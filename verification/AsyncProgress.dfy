/** Every transfer can come to its end: whatever state the system has reached, as long as the waker works, there
    is a continuation without any new call after which the transfer has called back or was refused. */
module AsyncProgress {
  import opened Buffers
  import opened Syscalls
  import T = Transfer
  import E = EventLoop
  import I = EventLoopInvariant
  import P = EventLoopTheorems
  import opened EventLoopProgress
  import opened AsyncSystem
  import opened AsyncInvariant
  import opened AsyncRefinement
  import opened AsyncTheorems

  // ---------------------------------------------------------------- the measure

  /** Where a transfer in progress is: with a count to digest; being added; queued; in flight; with an error
      to digest, after which it has ended. */
  function Phase(op: Op, inflight: set<E.Token>): nat {
    if op.inbox.Some? then (if op.inbox.value.Fail? then 1 else 9)
    else if op.token.None? then 4
    else if op.token.value in inflight then 2
    else 3
  }

  function PhaseOf(s: System, o: nat): nat
    requires o < |s.ops|
  {
    Phase(s.ops[o], s.loop.rings.inflight)
  }

  /** What is left to do in its phase: for its own thread to add the SQE, or for the loop to come around. */
  function WorkAt(s: System, o: nat): Work
    requires o < |s.ops|
  {
    match PhaseOf(s, o)
    case 2 => Work(0, 0, 0, 0, 0, 0, 0)
    case 3 => WorkOf(false, s.loop)
    case 4 => Work(0, 0, 0, 0, 0, PcLeft(E.PcOf(s.loop, s.ops[o].adder)), Held(s.loop))
    case _ => WorkOf(true, s.loop)
  }

  predicate Smaller(s': System, s: System, o: nat)
    requires o < |s.ops| && o < |s'.ops|
  {
    PhaseOf(s', o) < PhaseOf(s, o) || (PhaseOf(s', o) == PhaseOf(s, o) && Less(WorkAt(s', o), WorkAt(s, o)))
  }

  /** Once the waker has failed, the loop must not wait while the SQE of the transfer is not submitted. */
  predicate Good(s: System, o: nat)
    requires o < |s.ops|
  {
    var op := s.ops[o];
    s.loop.pulse.down && op.inbox.None? ==>
      && (op.token.None? ==> op.adder == E.RUN)
      && (op.token.Some? && op.token.value in s.loop.rings.sq ==> !s.loop.threads.loop.Waiting?)
  }

  /** No new call: steps inside calls, of the loop and of the kernel. */
  predicate Quietly(l: Label) {
    l.Step? && !l.l.Call?
  }

  /** The step is possible, and ends the transfer or brings it closer to its end. */
  ghost predicate GetsOn(s: System, l: E.Label, o: nat)
    requires o < |s.ops|
  {
    && StepEnabled(s, l) && !l.Call?
    && var s' := ApplyStep(s, l);
       o < |s'.ops| && (Active(s'.ops[o]) ==> Good(s', o) && Smaller(s', s, o))
  }

  // ---------------------------------------------------------------- steps that leave the transfer alone

  lemma InsideLeaves(s: System, a: E.Actor, c: E.CallStep, o: nat)
    requires StepEnabled(s, E.Inside(a, c)) && o < |s.ops|
    requires c.GetSqe? ==> PendingFor(E.PcOf(s.loop, a)) != Some(o)
    ensures var s' := ApplyStep(s, E.Inside(a, c));
            o < |s'.ops| && s'.ops[o] == s.ops[o] && s'.loop == E.ApplyInside(s.loop, a, c)
  {
  }

  lemma LoopLeaves(s: System, c: E.LoopStep, o: nat)
    requires StepEnabled(s, E.Loop(c)) && o < |s.ops| && !c.Invoke?
    ensures var s' := ApplyStep(s, E.Loop(c));
            o < |s'.ops| && s'.ops[o] == s.ops[o] && s'.loop == E.ApplyLoop(s.loop, c)
  {
  }

  /** Only the thread that adds the SQE of a transfer asks for it. */
  lemma OneAdder(s: System, a: E.Actor, o: nat)
    requires SysInv(s) && o < |s.ops| && PendingFor(E.PcOf(s.loop, a)) == Some(o)
    ensures Active(s.ops[o]) && s.ops[o].token.None? && s.ops[o].inbox.None? && s.ops[o].adder == a
  {
    var loop := s.loop;
    assert PcLinked(E.PcAt(loop.threads.calls, a), a, s.ops, loop.rings.intent);
    assert OpLinked(s.ops[o], o, loop.threads.calls, loop.rings, I.InvokedToks(loop.batch.invoked));
  }

  lemma LinkOf(s: System, o: nat)
    requires SysInv(s) && o < |s.ops| && Active(s.ops[o])
    ensures OpLinked(s.ops[o], o, s.loop.threads.calls, s.loop.rings, I.InvokedToks(s.loop.batch.invoked))
  {
  }

  // ---------------------------------------------------------------- in flight

  /** The kernel answers with an error. */
  lemma InFlightGetsOn(s: System, o: nat) returns (l: E.Label)
    requires SysInv(s) && o < |s.ops| && Active(s.ops[o]) && PhaseOf(s, o) == 2
    ensures GetsOn(s, l, o)
  {
    var t := s.ops[o].token.value;
    l := E.Complete(t, Fail(0));
    LinkOf(s, o);
    NotShutOut(s, l);
    assert ApplyStep(s, l).ops == s.ops[o := s.ops[o].(inbox := Some(Fail(0)))];
  }

  // ---------------------------------------------------------------- being added

  lemma AddingGetsOn(s: System, o: nat) returns (l: E.Label)
    requires SysInv(s) && o < |s.ops| && Active(s.ops[o]) && PhaseOf(s, o) == 4 && Good(s, o)
    ensures GetsOn(s, l, o)
  {
    var a := s.ops[o].adder;
    var pc := E.PcOf(s.loop, a);
    LinkOf(s, o);
    if (pc.AddWantSub? && s.loop.threads.sub.Some?) || (pc.AddWantCb? && s.loop.threads.cbs.Some?) {
      l := BlockedAdderGetsOn(s, o);
    } else {
      NextInside(s.loop, a);
      l := E.Inside(a, StepOfPc(pc));
      NotShutOut(s, l);
      if pc.AddGet? {
        QueuedGetsOn(s, o);
      } else {
        LockedGetsOn(s, o);
      }
    }
  }

  lemma LockedGetsOn(s: System, o: nat)
    requires o < |s.ops| && Active(s.ops[o]) && PhaseOf(s, o) == 4 && Good(s, o)
    requires var pc := E.PcOf(s.loop, s.ops[o].adder); pc.AddWantSub? || pc.AddWantCb?
    requires StepEnabled(s, E.Inside(s.ops[o].adder, StepOfPc(E.PcOf(s.loop, s.ops[o].adder))))
    ensures GetsOn(s, E.Inside(s.ops[o].adder, StepOfPc(E.PcOf(s.loop, s.ops[o].adder))), o)
  {
    var a := s.ops[o].adder;
    var c := StepOfPc(E.PcOf(s.loop, a));
    InsideLeaves(s, a, c, o);
    InsideLowers(s.loop, a, c);
  }

  lemma QueuedGetsOn(s: System, o: nat)
    requires SysInv(s) && o < |s.ops| && Active(s.ops[o]) && PhaseOf(s, o) == 4 && Good(s, o)
    requires E.PcOf(s.loop, s.ops[o].adder).AddGet? && PendingFor(E.PcOf(s.loop, s.ops[o].adder)) == Some(o)
    requires StepEnabled(s, E.Inside(s.ops[o].adder, E.GetSqe))
    ensures GetsOn(s, E.Inside(s.ops[o].adder, E.GetSqe), o)
  {
    var a := s.ops[o].adder;
    assert I.RunOk(s.loop.threads);
    assert s.loop.rings.next !in s.loop.rings.inflight;
    assert ApplyStep(s, E.Inside(a, E.GetSqe)).ops[o] == Submitted(s.world, s.ops[o], s.loop.rings);
  }

  /** The adder waits for a mutex; who holds it makes a step. */
  lemma BlockedAdderGetsOn(s: System, o: nat) returns (l: E.Label)
    requires SysInv(s) && o < |s.ops| && Active(s.ops[o]) && PhaseOf(s, o) == 4 && Good(s, o)
    requires PendingFor(E.PcOf(s.loop, s.ops[o].adder)) == Some(o)
    requires var pc := E.PcOf(s.loop, s.ops[o].adder);
             (pc.AddWantSub? && s.loop.threads.sub.Some?) || (pc.AddWantCb? && s.loop.threads.cbs.Some?)
    ensures GetsOn(s, l, o)
  {
    var b := Blocker(s.loop);
    BlockerCanStep(s.loop);
    if b == E.RUN && (s.loop.threads.loop.Harvesting? || s.loop.threads.loop.Submitting?) {
      var c := if s.loop.threads.loop.Submitting? then E.Submit
               else if s.loop.batch.head < s.loop.batch.end then E.HarvestOne else E.HarvestEnd;
      l := E.Loop(c);
      NotShutOut(s, l);
      LoopBlockerGetsOn(s, o, c);
    } else {
      var c := StepOfPc(E.PcOf(s.loop, b));
      l := E.Inside(b, c);
      NotShutOut(s, l);
      BlockerGetsOn(s, o, b, c);
    }
  }

  lemma LoopBlockerGetsOn(s: System, o: nat, c: E.LoopStep)
    requires I.LocksInv(s.loop) && o < |s.ops| && Active(s.ops[o]) && PhaseOf(s, o) == 4 && Good(s, o)
    requires StepEnabled(s, E.Loop(c)) && (c.Submit? || c.HarvestOne? || c.HarvestEnd?)
    ensures GetsOn(s, E.Loop(c), o)
  {
    LoopLeaves(s, c, o);
    LoopBlockerLowers(s.loop, c);
  }

  /** A thread that does not ask for the SQE of the transfer makes a step inside its call. */
  lemma InsideKeeps(s: System, a: E.Actor, c: E.CallStep, o: nat)
    requires SysInv(s) && o < |s.ops| && Active(s.ops[o]) && Good(s, o) && StepEnabled(s, E.Inside(a, c))
    requires PendingFor(E.PcOf(s.loop, a)) != Some(o)
    ensures var s' := ApplyStep(s, E.Inside(a, c));
            && o < |s'.ops| && s'.ops[o] == s.ops[o] && s'.loop == E.ApplyInside(s.loop, a, c)
            && PhaseOf(s', o) == PhaseOf(s, o) && Good(s', o)
  {
    InsideLeaves(s, a, c, o);
    LinkOf(s, o);
    InsideKeepsQueue(s.loop, a, c);
  }

  /** A step inside a call leaves the loop where it is, or lets it go on after the waker was armed; and it queues
      at most a new token. */
  lemma InsideKeepsQueue(loop: E.State, a: E.Actor, c: E.CallStep)
    requires I.TokensInv(loop) && E.InsideEnabled(loop, a, c)
    ensures var loop' := E.ApplyInside(loop, a, c);
            && loop'.rings.inflight == loop.rings.inflight && loop'.pulse.down == loop.pulse.down
            && (loop'.threads.loop.Waiting? ==> loop.threads.loop.Waiting?)
            && (forall t :: t in loop.rings.intent && t in loop'.rings.sq ==> t in loop.rings.sq)
  {
    InsideLowers(loop, a, c);
    InsideLoop(loop, a, c);
  }

  lemma BlockerGetsOn(s: System, o: nat, b: E.Actor, c: E.CallStep)
    requires SysInv(s) && o < |s.ops| && Active(s.ops[o]) && PhaseOf(s, o) == 4 && Good(s, o)
    requires StepEnabled(s, E.Inside(b, c)) && (I.PcHoldsSub(E.PcOf(s.loop, b)) || I.PcHoldsCb(E.PcOf(s.loop, b)))
    requires b != s.ops[o].adder
    ensures GetsOn(s, E.Inside(b, c), o)
  {
    if PendingFor(E.PcOf(s.loop, b)) == Some(o) {
      OneAdder(s, b, o);
    }
    InsideKeeps(s, b, c, o);
    BlockerLowers(s, o, b, c);
    LowerGetsOn(s, E.Inside(b, c), o);
  }

  lemma LowerGetsOn(s: System, l: E.Label, o: nat)
    requires o < |s.ops| && PhaseOf(s, o) == 4 && StepEnabled(s, l) && !l.Call?
    requires var s' := ApplyStep(s, l);
             && o < |s'.ops| && s'.ops[o] == s.ops[o] && Good(s', o) && PhaseOf(s', o) == 4
             && Less(WorkAt(s.(loop := s'.loop), o), WorkAt(s, o))
    ensures GetsOn(s, l, o)
  {
  }

  lemma BlockerLowers(s: System, o: nat, b: E.Actor, c: E.CallStep)
    requires I.LocksInv(s.loop) && o < |s.ops| && PhaseOf(s, o) == 4 && E.InsideEnabled(s.loop, b, c)
    requires (I.PcHoldsSub(E.PcOf(s.loop, b)) || I.PcHoldsCb(E.PcOf(s.loop, b))) && b != s.ops[o].adder
    ensures Less(WorkAt(s.(loop := E.ApplyInside(s.loop, b, c)), o), WorkAt(s, o))
  {
    InsideLowers(s.loop, b, c);
    HolderLowers(s.loop, b, c);
  }

  // ---------------------------------------------------------------- queued, or posted

  /** The transfer waits for the loop: to submit its SQE, or to run its callback. */
  ghost predicate Waits(s: System, o: nat) {
    && SysInv(s) && o < |s.ops| && Active(s.ops[o]) && Good(s, o)
    && s.ops[o].token.Some? && PhaseOf(s, o) != 2
  }

  function Late(s: System, o: nat): bool
    requires o < |s.ops|
  {
    s.ops[o].inbox.Some?
  }

  /** A completion that is not on the list of callbacks is still in the ring. */
  lemma PostedIsAhead(s: System, o: nat)
    requires SysInv(s) && o < |s.ops| && Active(s.ops[o]) && s.ops[o].inbox.Some?
    requires s.loop.batch.pending == []
    ensures s.loop.batch.head < |s.loop.rings.posted|
  {
    var loop := s.loop;
    LinkOf(s, o);
    PostedIsReachable(s, o);
    var t := s.ops[o].token.value;
    assert t in E.Toks(loop.rings.posted) by {
      var i :| 0 <= i < |loop.rings.posted| && loop.rings.posted[i] == E.Cqe(t, s.ops[o].inbox.value);
    }
  }

  /** The transfer is not touched, and the work gets less. */
  lemma LessWorkGetsOn(s: System, l: E.Label, o: nat)
    requires o < |s.ops| && s.ops[o].token.Some? && PhaseOf(s, o) != 2 && StepEnabled(s, l) && !l.Call?
    requires var s' := ApplyStep(s, l);
             && o < |s'.ops| && s'.ops[o] == s.ops[o]
             && PhaseOf(s', o) == PhaseOf(s, o) && Good(s', o)
             && Less(WorkOf(Late(s, o), s'.loop), WorkOf(Late(s, o), s.loop))
    ensures GetsOn(s, l, o)
  {
  }

  /** The RUN thread goes on: inside its call, or in the loop; or the thread that is in its way does. */
  lemma WaitingGetsOn(s: System, o: nat) returns (l: E.Label)
    requires Waits(s, o)
    ensures GetsOn(s, l, o)
  {
    var loop := s.loop;
    var pc := E.PcOf(loop, E.RUN);
    var wantSub := pc.AddWantSub? || (pc.Idle? && loop.threads.loop.WantSub?);
    var wantCb := pc.AddWantCb? || pc.CancelWantCb? || (pc.Idle? && loop.threads.loop.WantCb?);
    if (wantSub && loop.threads.sub.Some?) || (wantCb && loop.threads.cbs.Some?) {
      l := RunBlocked(s, o);
    } else if !pc.Idle? {
      l := RunInside(s, o);
    } else {
      l := RunLoop(s, o);
    }
  }

  lemma InsideKeepsPhase(s: System, a: E.Actor, c: E.CallStep, o: nat)
    requires Waits(s, o) && StepEnabled(s, E.Inside(a, c))
    ensures var s' := ApplyStep(s, E.Inside(a, c));
            && o < |s'.ops| && s'.ops[o] == s.ops[o] && s'.loop == E.ApplyInside(s.loop, a, c)
            && PhaseOf(s', o) == PhaseOf(s, o) && Good(s', o)
  {
    if PendingFor(E.PcOf(s.loop, a)) == Some(o) {
      OneAdder(s, a, o);
    }
    InsideKeeps(s, a, c, o);
  }

  lemma RunInside(s: System, o: nat) returns (l: E.Label)
    requires Waits(s, o) && !E.PcOf(s.loop, E.RUN).Idle?
    requires E.PcOf(s.loop, E.RUN).AddWantSub? ==> s.loop.threads.sub.None?
    requires E.PcOf(s.loop, E.RUN).AddWantCb? || E.PcOf(s.loop, E.RUN).CancelWantCb? ==> s.loop.threads.cbs.None?
    ensures GetsOn(s, l, o)
  {
    var c := StepOfPc(E.PcOf(s.loop, E.RUN));
    l := E.Inside(E.RUN, c);
    NextInside(s.loop, E.RUN);
    NotShutOut(s, l);
    InsideKeepsPhase(s, E.RUN, c, o);
    RunInsideLowers(Late(s, o), s.loop, c);
    LessWorkGetsOn(s, l, o);
  }

  lemma RunBlocked(s: System, o: nat) returns (l: E.Label)
    requires Waits(s, o)
    requires var loop, pc := s.loop, E.PcOf(s.loop, E.RUN);
             || ((pc.AddWantSub? || (pc.Idle? && loop.threads.loop.WantSub?)) && loop.threads.sub.Some?)
             || ((pc.AddWantCb? || pc.CancelWantCb? || (pc.Idle? && loop.threads.loop.WantCb?))
                && loop.threads.cbs.Some?)
    ensures GetsOn(s, l, o)
  {
    var b := Blocker(s.loop);
    BlockerCanStep(s.loop);
    assert b != E.RUN;
    var c := StepOfPc(E.PcOf(s.loop, b));
    l := E.Inside(b, c);
    NotShutOut(s, l);
    InsideKeepsPhase(s, b, c, o);
    OtherInsideLowers(Late(s, o), s.loop, b, c);
    LessWorkGetsOn(s, l, o);
  }

  // ---------------------------------------------------------------- the loop itself

  /** The next step of the loop, if it needs no completion. */
  function NextOfLoop(loop: E.State): E.LoopStep {
    match loop.threads.loop
    case Stopped => E.StartRun
    case Top => E.CheckExit
    case WantSub => E.RunLockSub
    case Submitting => E.Submit
    case Waiting => E.WaitOk
    case Peeking => E.Peek
    case WantCb => E.RunLockCb
    case Harvesting => if loop.batch.head < loop.batch.end then E.HarvestOne else E.HarvestEnd
    case Dispatching => if loop.batch.pending == [] then E.LoopAgain else E.Invoke
    case InUser => E.UserReturn
    case WakerFire(_) => E.WakerRead(None)
    case WakerAdd => E.LoopAgain
    case WakerGiveUp => E.WakerExit
  }

  lemma LoopCanStep(loop: E.State)
    requires I.Inv(loop) && E.PcOf(loop, E.RUN).Idle?
    requires loop.threads.loop.WantSub? ==> loop.threads.sub.None?
    requires loop.threads.loop.WantCb? ==> loop.threads.cbs.None?
    requires loop.threads.loop.Waiting? ==> loop.batch.head < |loop.rings.posted|
    ensures E.LoopEnabled(loop, NextOfLoop(loop))
  {
  }

  lemma RunLoop(s: System, o: nat) returns (l: E.Label)
    requires Waits(s, o) && E.PcOf(s.loop, E.RUN).Idle?
    requires s.loop.threads.loop.WantSub? ==> s.loop.threads.sub.None?
    requires s.loop.threads.loop.WantCb? ==> s.loop.threads.cbs.None?
    ensures GetsOn(s, l, o)
  {
    var loop := s.loop;
    if loop.batch.pending == [] && s.ops[o].inbox.Some? {
      PostedIsAhead(s, o);
    }
    if loop.threads.loop.Waiting? && loop.batch.head >= |loop.rings.posted| {
      l := PollGetsOn(s, o);
    } else {
      var c := NextOfLoop(loop);
      LoopCanStep(loop);
      l := E.Loop(c);
      NotShutOut(s, l);
      if c.Invoke? {
        InvokeGetsOn(s, o);
      } else if c.Submit? && !Late(s, o) {
        SubmitGetsOn(s, o);
      } else {
        LoopGetsOn(s, o, c);
      }
    }
  }

  lemma LoopGetsOn(s: System, o: nat, c: E.LoopStep)
    requires Waits(s, o) && StepEnabled(s, E.Loop(c)) && E.PcOf(s.loop, E.RUN).Idle? && c == NextOfLoop(s.loop)
    requires !c.Invoke? && (c.Submit? ==> Late(s, o))
    ensures GetsOn(s, E.Loop(c), o)
  {
    if s.loop.batch.pending == [] && s.ops[o].inbox.Some? {
      PostedIsAhead(s, o);
    }
    LoopLeaves(s, c, o);
    LoopLowers(Late(s, o), s.loop, c);
    LoopKeepsPhase(s, o, c);
    LessWorkGetsOn(s, E.Loop(c), o);
  }

  lemma LoopKeepsPhase(s: System, o: nat, c: E.LoopStep)
    requires Waits(s, o) && E.LoopEnabled(s.loop, c) && c == NextOfLoop(s.loop)
    requires !c.Invoke? && (c.Submit? ==> Late(s, o))
    ensures var s' := s.(loop := E.ApplyLoop(s.loop, c)); PhaseOf(s', o) == PhaseOf(s, o) && Good(s', o)
  {
    LinkOf(s, o);
    match c {
      case StartRun => case CheckExit => case RunLockSub => case Submit => case WaitOk => case WaitFail(_) =>
      case Peek => case RunLockCb => case HarvestOne => case HarvestEnd => case UserReturn =>
      case WakerRead(_) => case WakerExit => case LoopAgain =>
    }
  }

  lemma SubmitGetsOn(s: System, o: nat)
    requires Waits(s, o) && !Late(s, o) && StepEnabled(s, E.Loop(E.Submit))
    ensures GetsOn(s, E.Loop(E.Submit), o)
  {
    LinkOf(s, o);
    LoopLeaves(s, E.Submit, o);
  }

  /** A callback is run: if it is not the one of the transfer, there is one less before it. */
  lemma InvokeGetsOn(s: System, o: nat)
    requires Waits(s, o) && StepEnabled(s, E.Loop(E.Invoke))
    ensures GetsOn(s, E.Loop(E.Invoke), o)
  {
    var who := CallbackOf(Some(s.loop.batch.pending[0].cb));
    if who.Some? {
      InvokeMeets(s, who.value);
      DigestedStands(s.world, s.ops[who.value]);
      InvokeGives(s, who.value);
      InvokeShape(s, who.value);
      if who.value == o {
        OwnInvokeGetsOn(s, o);
      } else {
        OtherInvokeGetsOn(s, o);
      }
    } else {
      OtherInvokeGetsOn(s, o);
    }
  }

  lemma OtherInvokeGetsOn(s: System, o: nat)
    requires Waits(s, o) && StepEnabled(s, E.Loop(E.Invoke))
    requires var s' := ApplyInvoke(s);
             && |s'.ops| == |s.ops| && s'.ops[o] == s.ops[o]
             && (s'.loop == E.InvokeHead(s.loop)
                  || exists p :: s'.loop == E.ApplyCall(E.InvokeHead(s.loop), E.RUN, E.ApiAdd(AddFor(p))))
    ensures GetsOn(s, E.Loop(E.Invoke), o)
  {
    InvokeLowers(Late(s, o), s.loop, ApplyInvoke(s).loop);
    LessWorkGetsOn(s, E.Loop(E.Invoke), o);
  }

  lemma OwnInvokeGetsOn(s: System, o: nat)
    requires Waits(s, o) && StepEnabled(s, E.Loop(E.Invoke))
    requires CallbackOf(Some(s.loop.batch.pending[0].cb)) == Some(o)
    requires s.ops[o].inbox == Some(s.loop.batch.pending[0].res)
    requires var s', q := ApplyInvoke(s), T.Digest(s.ops[o].req, Snapshot(s.world, s.ops[o]),
             s.loop.batch.pending[0].res);
             (q.outcome.None? ==> q.calls != []) && |s'.ops| == |s.ops|
                && s'.ops[o] == GoneOn(s.ops[o], s.loop.batch.pending[0].res, q)
    ensures GetsOn(s, E.Loop(E.Invoke), o)
  {
  }

  /** The loop waits with an empty ring: the kernel completes the poll of the waker. */
  lemma PollGetsOn(s: System, o: nat) returns (l: E.Label)
    requires Waits(s, o) && s.loop.threads.loop.Waiting? && s.loop.batch.head >= |s.loop.rings.posted|
    requires s.ops[o].inbox.None?
    ensures GetsOn(s, l, o)
  {
    var loop := s.loop;
    LinkOf(s, o);
    P.PollIsOutstanding(loop);
    var t := loop.pulse.armed.value;
    l := E.Complete(t, Count(1));
    PollLowers(loop, t, Count(1));
    var s' := ApplyStep(s, l);
    assert s' == s.(loop := loop.(rings := E.Post(loop.rings, t, Count(1))));
    LessWorkGetsOn(s, l, o);
  }

  // ---------------------------------------------------------------- to the end

  lemma NextGetsOn(s: System, o: nat) returns (l: E.Label)
    requires SysInv(s) && o < |s.ops| && Active(s.ops[o]) && Good(s, o)
    ensures GetsOn(s, l, o)
  {
    LinkOf(s, o);
    if PhaseOf(s, o) == 2 {
      l := InFlightGetsOn(s, o);
    } else if PhaseOf(s, o) == 4 {
      l := AddingGetsOn(s, o);
    } else {
      l := WaitingGetsOn(s, o);
    }
  }

  ghost predicate AllQuietly(labels: seq<Label>) {
    forall i :: 0 <= i < |labels| ==> Quietly(labels[i])
  }

  /** A run that starts with this step. */
  lemma {:induction false} RunCons(s: System, l: Label, rest: seq<Label>)
    requires Enabled(s, l) && IsRun(Apply(s, l), rest)
    ensures IsRun(s, [l] + rest) && Exec(s, [l] + rest) == Exec(Apply(s, l), rest)
    decreases |rest|
  {
    var all := [l] + rest;
    var n := |all| - 1;
    if rest == [] {
      assert all[..n] == [] && all[n] == l;
      assert IsRun(s, all[..n]) && Exec(s, all[..n]) == s;
    } else {
      var k := |rest| - 1;
      RunCons(s, l, rest[..k]);
      assert all[..n] == [l] + rest[..k] && all[n] == rest[k];
      assert IsRun(s, all[..n]) && Exec(s, all[..n]) == Exec(Apply(s, l), rest[..k]);
    }
  }

  /** After these steps the transfer has ended. */
  ghost predicate Leads(s: System, labels: seq<Label>, o: nat) {
    && IsRun(s, labels) && AllQuietly(labels) && SysInv(Exec(s, labels))
    && o < |Exec(s, labels).ops| && !Active(Exec(s, labels).ops[o])
  }

  lemma LeadsCons(s: System, l: E.Label, rest: seq<Label>, o: nat)
    requires StepEnabled(s, l) && !l.Call? && Leads(ApplyStep(s, l), rest, o)
    ensures Leads(s, [Step(l)] + rest, o)
  {
    RunCons(s, Step(l), rest);
  }

  ghost predicate CanGoOn(s: System, o: nat) {
    SysInv(s) && o < |s.ops| && (Active(s.ops[o]) ==> Good(s, o))
  }

  lemma OneStep(s: System, o: nat) returns (l: E.Label)
    requires CanGoOn(s, o) && Active(s.ops[o])
    ensures StepEnabled(s, l) && !l.Call? && CanGoOn(ApplyStep(s, l), o)
    ensures Active(ApplyStep(s, l).ops[o]) ==> Smaller(ApplyStep(s, l), s, o)
  {
    l := NextGetsOn(s, o);
    AnyStepKeeps(s, Step(l));
  }

  /** From here the transfer can come to its end. */
  lemma {:induction false} ComesToAnEnd(s: System, o: nat, phase: nat, w: Work) returns (labels: seq<Label>)
    requires CanGoOn(s, o) && phase == PhaseOf(s, o) && w == WorkAt(s, o)
    ensures Leads(s, labels, o)
    decreases Active(s.ops[o]), phase, w.outer, w.rank, w.inner, w.pending, w.item, w.pc, w.held
  {
    if !Active(s.ops[o]) {
      labels := [];
    } else {
      var l := OneStep(s, o);
      var s' := ApplyStep(s, l);
      var rest := ComesToAnEnd(s', o, PhaseOf(s', o), WorkAt(s', o));
      LeadsCons(s, l, rest, o);
      labels := [Step(l)] + rest;
    }
  }

  /** From every reachable state in which the waker works, and for every transfer, there is a continuation without
      any new call, in which the kernel only has to answer, after which the transfer has called back, once and
      with the result of the blocking loop, or was refused. */
  lemma CanCallBack(s0: System, labels: seq<Label>, o: nat) returns (more: seq<Label>)
    requires Init(s0) && IsRun(s0, labels) && o < |Exec(s0, labels).ops| && !Exec(s0, labels).loop.pulse.down
    ensures IsRun(Exec(s0, labels), more) && AllQuietly(more)
    ensures var s := Exec(Exec(s0, labels), more);
            o < |s.ops| && CalledBack(s.ops[o], o, s.completions) && (o in Ids(s.completions) || Refused(s.ops[o]))
  {
    RunKeeps(s0, labels);
    var s := Exec(s0, labels);
    more := ComesToAnEnd(s, o, PhaseOf(s, o), WorkAt(s, o));
    CallsBack(Exec(Exec(s0, labels), more), o);
  }
}
