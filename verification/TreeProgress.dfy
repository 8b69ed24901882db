/** An insertion into the radix tree that nobody holds up comes to its end.

    As long as no other thread is inside a slot, a thread's own steps take it down to its leaf, through creating whatever is
    missing, and out with the vertex of its key. */
module TreeProgress {
  import opened MixedRadix
  import opened Trie
  import opened ConcurrentTree

  ghost predicate NobodyInside(s: State, t: nat) {
    forall u | u in s.threads && u != t :: !s.threads[u].Critical()
  }

  /** Steps a thread has left on its level, at most. */
  ghost function StepsLeft(s: State, th: Thread): nat {
    match th.pc
    case Look => if ReadSlot(s.t, th) != Null then 0 else if th.again then 13 else 14
    case Want => 12
    case Recheck => 11
    case TakeTicket => 10
    case GrowTable => 9
    case SetIdx => 8
    case LinkLeaf => 7
    case SetNode => 6
    case MakeNode => 5
    case LinkNode => 4
    case Unlock => 1
    case _ => 0
  }

  /** Thread `t` has moved, and is done, deeper, or nearer to leaving its level. */
  ghost predicate Onward(s: State, s': State, t: nat) {
    && t in s.threads && t in s'.threads && s'.threads == s.threads[t := s'.threads[t]] && s'.t.ws == s.t.ws
    && var th, th' := s.threads[t], s'.threads[t];
       && th'.id == th.id
       && (th'.pc.Done? || (th'.Active() && th.level <= th'.level
                            && (th'.level > th.level || StepsLeft(s', th') < StepsLeft(s, th))))
  }

  lemma {:induction false} SlotIsFree(s: State, t: nat)
    requires Inv(s) && t in s.threads && s.threads[t].pc.Want? && NobodyInside(s, t)
    ensures SlotOf(s.t.ws, s.threads[t]) !in s.locks
  {
    assert LockOk(s, SlotOf(s.t.ws, s.threads[t]));
  }

  lemma {:induction false} OnwardOutside(s: State, t: nat, th: Thread)
    requires Inv(s) && t in s.threads && th == s.threads[t] && Typed(s, th) && NobodyInside(s, t)
    requires th.pc.Look? || th.pc.Want?
    ensures Onward(s, StepOf(s, t, th), t)
  {
    if th.pc.Want? {
      SlotIsFree(s, t);
    } else {
      assert ThreadOk(s, t);
      StandsSlot(s, t);
      PrefixEnds(s.t.ws, th.id);
      assert LeafOk(s, Key(s.t.ws, th.id));
      assert NodeOk(s.t, s.spot, th.level + 1, Prefix(s.t.ws, th.level + 1, th.id));
    }
  }

  lemma {:induction false} OnwardLeaving(s: State, t: nat, th: Thread)
    requires Inv(s) && t in s.threads && th == s.threads[t] && Typed(s, th) && th.pc.Unlock?
    ensures Onward(s, StepOf(s, t, th), t)
  {
    assert ThreadOk(s, t);
    StandsSlot(s, t);
  }

  lemma {:induction false} OnwardRechecking(s: State, t: nat, th: Thread)
    requires t in s.threads && th == s.threads[t] && Typed(s, th) && (th.pc.Recheck?)
    ensures Onward(s, StepOf(s, t, th), t)
  {
  }

  lemma {:induction false} OnwardNode(s: State, t: nat, th: Thread)
    requires t in s.threads && th == s.threads[t] && Typed(s, th) && (th.pc.MakeNode? || th.pc.LinkNode?)
    ensures Onward(s, StepOf(s, t, th), t)
  {
    match th.pc {
      case MakeNode =>
      case LinkNode =>
    }
  }

  lemma {:induction false} OnwardDrawing(s: State, t: nat, th: Thread)
    requires t in s.threads && th == s.threads[t] && Typed(s, th) && (th.pc.TakeTicket? || th.pc.GrowTable?)
    ensures Onward(s, StepOf(s, t, th), t)
  {
    match th.pc {
      case TakeTicket =>
      case GrowTable =>
    }
  }

  lemma {:induction false} OnwardVertex(s: State, t: nat, th: Thread)
    requires t in s.threads && th == s.threads[t] && Typed(s, th) && (th.pc.SetIdx? || th.pc.LinkLeaf? || th.pc.SetNode?)
    ensures Onward(s, StepOf(s, t, th), t)
  {
    match th.pc {
      case SetIdx =>
      case LinkLeaf =>
      case SetNode =>
    }
  }

  lemma {:induction false} OnwardInside(s: State, t: nat, th: Thread)
    requires t in s.threads && th == s.threads[t] && Typed(s, th) && th.Critical() && !th.pc.Unlock?
    ensures Onward(s, StepOf(s, t, th), t)
  {
    if th.pc.Recheck? {
      OnwardRechecking(s, t, th);
    } else if th.pc.MakeNode? || th.pc.LinkNode? {
      OnwardNode(s, t, th);
    } else if th.pc.TakeTicket? || th.pc.GrowTable? {
      OnwardDrawing(s, t, th);
    } else {
      OnwardVertex(s, t, th);
    }
  }

  lemma {:induction false} StepOn(run: seq<State>, widths: seq<nat>, t: nat) returns (run': seq<State>)
    requires IsRun(run, widths) && t in run[|run| - 1].threads
    requires run[|run| - 1].threads[t].Active() && NobodyInside(run[|run| - 1], t)
    ensures IsRun(run', widths) && run <= run' && Onward(run[|run| - 1], run'[|run'| - 1], t)
  {
    var s := run[|run| - 1];
    var th := s.threads[t];
    RunInv(run, widths, |run| - 1);
    InvTyped(s, t);
    run' := Extend(run, widths, t, Step);
    if th.pc.Look? || th.pc.Want? {
      OnwardOutside(s, t, th);
    } else if th.pc.Unlock? {
      OnwardLeaving(s, t, th);
    } else {
      OnwardInside(s, t, th);
    }
  }

  lemma {:induction false} LevelBound(run: seq<State>, widths: seq<nat>, t: nat)
    requires IsRun(run, widths) && t in run[|run| - 1].threads && run[|run| - 1].threads[t].Active()
    ensures run[|run| - 1].threads[t].level < |run[|run| - 1].t.ws|
  {
    RunInv(run, widths, |run| - 1);
    InvTyped(run[|run| - 1], t);
  }

  /** Left alone with no other thread inside a slot, an insertion ends, with the vertex its key leads to. */
  lemma {:induction false} FinishesAlone(run: seq<State>, widths: seq<nat>, t: nat) returns (run': seq<State>)
    requires IsRun(run, widths) && t in run[|run| - 1].threads
    requires run[|run| - 1].threads[t].Active() && NobodyInside(run[|run| - 1], t)
    ensures IsRun(run', widths) && run <= run'
    ensures var s, s' := run[|run| - 1], run'[|run'| - 1];
            && t in s'.threads && s'.threads == s.threads[t := s'.threads[t]]
            && s'.threads[t].pc.Done? && s'.threads[t].id == s.threads[t].id && s'.threads[t].tmp.VertexAt?
            && At(s'.t, |s'.t.ws|, Key(s'.t.ws, s.threads[t].id)) == s'.threads[t].tmp
    decreases |run[|run| - 1].t.ws| - run[|run| - 1].threads[t].level,
              StepsLeft(run[|run| - 1], run[|run| - 1].threads[t])
  {
    var s := run[|run| - 1];
    LevelBound(run, widths, t);
    run' := StepOn(run, widths, t);
    var s' := run'[|run'| - 1];
    if s'.threads[t].Active() {
      LevelBound(run', widths, t);
      run' := FinishesAlone(run', widths, t);
    } else {
      RunInv(run', widths, |run'| - 1);
      assert ThreadOk(s', t);
    }
  }

  /** From any state at rest any thread can insert any id and reach rest again. */
  lemma {:induction false} InsertsAlone(run: seq<State>, widths: seq<nat>, t: nat, id: nat) returns (run': seq<State>)
    requires IsRun(run, widths) && Quiescent(run[|run| - 1]) && t in run[|run| - 1].threads
    ensures IsRun(run', widths) && run <= run' && Quiescent(run'[|run'| - 1])
    ensures var s' := run'[|run'| - 1];
            && t in s'.threads && s'.threads[t].pc.Done? && s'.threads[t].id == id && s'.threads[t].tmp.VertexAt?
            && At(s'.t, |s'.t.ws|, Key(s'.t.ws, id)) == s'.threads[t].tmp
  {
    run' := Extend(run, widths, t, Start(id));
    run' := FinishesAlone(run', widths, t);
  }
}
