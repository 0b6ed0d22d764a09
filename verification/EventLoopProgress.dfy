/** How far the event loop is from submitting the queue, or from the next completion: a measure that each of its steps
    lowers, and each step of a thread that is in its way. */
module EventLoopProgress {
  import opened Buffers
  import opened Syscalls
  import opened EventLoop
  import opened EventLoopInvariant

  /** What is left to do, the first component first. */
  datatype Work = Work(outer: nat, rank: nat, inner: nat, pending: nat, item: nat, pc: nat, held: nat)

  predicate Less(a: Work, b: Work) {
    || a.outer < b.outer
    || (a.outer == b.outer && a.rank < b.rank)
    || (a.outer == b.outer && a.rank == b.rank && a.inner < b.inner)
    || (a.outer == b.outer && a.rank == b.rank && a.inner == b.inner && InnerLess(a, b))
  }

  predicate InnerLess(a: Work, b: Work) {
    || a.pending < b.pending
    || (a.pending == b.pending && a.item < b.item)
    || (a.pending == b.pending && a.item == b.item && a.pc < b.pc)
    || (a.pending == b.pending && a.item == b.item && a.pc == b.pc && a.held < b.held)
  }

  // ---------------------------------------------------------------- threads

  /** The steps a thread has left in its call. */
  function PcLeft(pc: Pc): nat {
    match pc
    case Idle => 0
    case CancelErase(_) => 1
    case CancelWantCb(_) => 2
    case AddDropSub(_) => 2
    case AddDropCb(_) => 3
    case AddStore(_, _) => 4
    case AddWake(_, _) => 5
    case AddGet(_) => 6
    case AddWantCb(_) => 7
    case AddWantSub(_) => 8
  }

  function Ahead(b: Batch): nat {
    if b.head < b.end then b.end - b.head else 0
  }

  /** The steps the holders of the two mutexes have left; a step that takes the second one counts less than the
      step of the first one's holder it is. */
  function Held(s: State): nat {
    SubHeld(s.threads) + CbsHeld(s.threads, s.batch)
  }

  function SubHeld(th: Threads): nat {
    if th.sub.None? then 0
    else 10 * PcLeft(PcAt(th.calls, th.sub.value)) + if th.loop.Submitting? then 1 else 0
  }

  function CbsHeld(th: Threads, b: Batch): nat {
    if th.cbs.None? then 0
    else PcLeft(PcAt(th.calls, th.cbs.value)) + if th.loop.Harvesting? then 1 + Ahead(b) else 0
  }

  /** A step inside a call: what it leaves alone. */
  ghost predicate SameBut(s: State, s': State, a: Actor) {
    && s'.batch == s.batch && s'.rings.posted == s.rings.posted && s'.rings.inflight == s.rings.inflight
    && s'.ending == s.ending && s'.pulse.down == s.pulse.down
    && (forall t :: t in s.rings.sq ==> t in s'.rings.sq)
    && (forall b: Actor :: b != a ==> PcOf(s', b) == PcOf(s, b))
  }

  lemma InsideLowers(s: State, a: Actor, c: CallStep)
    requires InsideEnabled(s, a, c)
    ensures var s' := ApplyInside(s, a, c); SameBut(s, s', a) && PcLeft(PcOf(s', a)) < PcLeft(PcOf(s, a))
  {
    match c {
      case LockSub => case LockCb => case GetSqe => case WakeLoop => case StoreCb =>
      case DropCb => case DropSub => case CancelLock => case Erase =>
    }
  }

  lemma InsideLoop(s: State, a: Actor, c: CallStep)
    requires InsideEnabled(s, a, c)
    ensures var loop, loop' := s.threads.loop, ApplyInside(s, a, c).threads.loop;
            loop' == loop || (a == RUN && loop.WakerAdd? && (loop'.Dispatching? || loop'.WakerGiveUp?))
  {
    match c {
      case LockSub => case LockCb => case GetSqe => case WakeLoop => case StoreCb =>
      case DropCb => case DropSub => case CancelLock => case Erase =>
    }
  }

  /** The holder of a mutex makes a step. */
  lemma HolderLowers(s: State, a: Actor, c: CallStep)
    requires LocksInv(s) && InsideEnabled(s, a, c)
    requires PcHoldsSub(PcOf(s, a)) || PcHoldsCb(PcOf(s, a))
    ensures Held(ApplyInside(s, a, c)) < Held(s)
  {
    InsideLowers(s, a, c);
    match c {
      case LockSub => case LockCb => case GetSqe => case WakeLoop => case StoreCb =>
      case DropCb => case DropSub => case CancelLock => case Erase =>
    }
  }

  // ---------------------------------------------------------------- the loop

  /** How far the RUN thread is from the point where it submits the queue, or, when `late`, from the harvest of a
      completion that is in the ring. While it runs callbacks it is at one rank. */
  function Rank(late: bool, s: State): nat {
    match s.threads.loop
    case Submitting => if late then 4 else 0
    case WantSub => if late then 5 else 1
    case Top => (if late then 6 else 2) + if s.ending.exiting then 2 else 0
    case Stopped => (if late then 7 else 3) + if s.ending.exiting then 2 else 0
    case Waiting => if late then 3 else 10
    case Peeking => if late then 2 else 9
    case WantCb => if !late then 8 else if s.batch.head < s.batch.end then 1 else 12
    case Harvesting => if !late then 7 else if s.batch.head < s.batch.end then 0 else 11
    case _ => if late then 10 else 6
  }

  function Inner(s: State): nat {
    match s.threads.loop
    case Harvesting => Ahead(s.batch)
    case Waiting => if s.batch.head < |s.rings.posted| then 0 else 1
    case _ => 0
  }

  function Item(loop: LoopPc): nat {
    match loop
    case WakerFire(_) => 4
    case WakerAdd => 3
    case WakerGiveUp => 2
    case InUser => 1
    case _ => 0
  }

  function Unharvested(s: State): nat {
    if s.batch.head < |s.rings.posted| then |s.rings.posted| - s.batch.head else 0
  }

  function WorkOf(late: bool, s: State): Work {
    Work(if late then Unharvested(s) else 0, Rank(late, s), Inner(s), |s.batch.pending|, Item(s.threads.loop),
         PcLeft(PcOf(s, RUN)), Held(s))
  }

  /** The RUN thread makes a step inside a call. */
  lemma RunInsideLowers(late: bool, s: State, c: CallStep)
    requires LocksInv(s) && InsideEnabled(s, RUN, c)
    ensures Less(WorkOf(late, ApplyInside(s, RUN, c)), WorkOf(late, s))
  {
    InsideLowers(s, RUN, c);
    InsideLoop(s, RUN, c);
  }

  /** Another thread that holds a mutex makes a step inside its call. */
  lemma OtherInsideLowers(late: bool, s: State, a: Actor, c: CallStep)
    requires LocksInv(s) && InsideEnabled(s, a, c) && a != RUN
    requires PcHoldsSub(PcOf(s, a)) || PcHoldsCb(PcOf(s, a))
    ensures Less(WorkOf(late, ApplyInside(s, a, c)), WorkOf(late, s))
  {
    InsideLowers(s, a, c);
    InsideLoop(s, a, c);
    HolderLowers(s, a, c);
  }

  /** A step of the loop that gets it closer: not the failure of a wait, and not the submission it is waited for. */
  predicate Closer(late: bool, s: State, c: LoopStep) {
    && !c.WaitFail? && !c.Invoke?
    && (c.WakerRead? ==> c.fail.None?)
    && (c.Submit? ==> late)
    && (late && c.Peek? ==> s.batch.head < |s.rings.posted|)
  }

  lemma LoopLowers(late: bool, s: State, c: LoopStep)
    requires LocksInv(s) && DispatchInv(s) && LoopEnabled(s, c) && PcOf(s, RUN).Idle? && Closer(late, s, c)
    ensures Less(WorkOf(late, ApplyLoop(s, c)), WorkOf(late, s))
  {
    match c {
      case StartRun => OutsideLowers(late, s, c);
      case CheckExit => OutsideLowers(late, s, c);
      case RunLockSub => OutsideLowers(late, s, c);
      case Submit => OutsideLowers(late, s, c);
      case LoopAgain => OutsideLowers(late, s, c);
      case WaitOk => BatchLowers(late, s, c);
      case Peek => BatchLowers(late, s, c);
      case RunLockCb => BatchLowers(late, s, c);
      case HarvestOne => BatchLowers(late, s, c);
      case HarvestEnd => BatchLowers(late, s, c);
      case UserReturn => CallbackLowers(late, s, c);
      case WakerRead(_) => CallbackLowers(late, s, c);
      case WakerExit => CallbackLowers(late, s, c);
    }
  }

  lemma OutsideLowers(late: bool, s: State, c: LoopStep)
    requires LoopEnabled(s, c) && Closer(late, s, c)
    requires c.StartRun? || c.CheckExit? || c.RunLockSub? || c.Submit? || c.LoopAgain?
    ensures Less(WorkOf(late, ApplyLoop(s, c)), WorkOf(late, s))
  {
  }

  lemma BatchLowers(late: bool, s: State, c: LoopStep)
    requires DispatchInv(s) && LoopEnabled(s, c) && Closer(late, s, c)
    requires c.WaitOk? || c.Peek? || c.RunLockCb? || c.HarvestOne? || c.HarvestEnd?
    ensures Less(WorkOf(late, ApplyLoop(s, c)), WorkOf(late, s))
  {
  }

  lemma CallbackLowers(late: bool, s: State, c: LoopStep)
    requires LoopEnabled(s, c) && PcOf(s, RUN).Idle? && Closer(late, s, c)
    requires c.UserReturn? || c.WakerRead? || c.WakerExit?
    ensures Less(WorkOf(late, ApplyLoop(s, c)), WorkOf(late, s))
  {
  }

  /** A callback is started; it may be in `add_sqe` at once. */
  lemma InvokeLowers(late: bool, s: State, s': State)
    requires s.threads.loop.Dispatching? && s.batch.pending != []
    requires s' == InvokeHead(s) || exists add :: s' == ApplyCall(InvokeHead(s), RUN, ApiAdd(add))
    ensures Less(WorkOf(late, s'), WorkOf(late, s))
    ensures s'.rings == s.rings && s'.pulse.down == s.pulse.down && !s'.threads.loop.Waiting?
  {
  }

  /** The poll of the waker is completed while the loop waits. */
  lemma PollLowers(s: State, t: Token, r: Reply)
    requires CompleteEnabled(s, t, r) && s.threads.loop.Waiting? && DispatchInv(s) && s.batch.head == |s.rings.posted|
    ensures Less(WorkOf(false, s.(rings := Post(s.rings, t, r))), WorkOf(false, s))
  {
  }

  // ---------------------------------------------------------------- who is in the way

  /** A mutex is held by a thread inside a call; the step of that thread. */
  function StepOfPc(pc: Pc): CallStep {
    match pc
    case AddWantSub(_) => LockSub
    case AddWantCb(_) => LockCb
    case AddGet(_) => GetSqe
    case AddWake(_, _) => WakeLoop
    case AddStore(_, _) => StoreCb
    case AddDropCb(_) => DropCb
    case AddDropSub(_) => DropSub
    case CancelWantCb(_) => CancelLock
    case _ => Erase
  }

  /** A thread inside a call can make its next step, unless it waits for a mutex that is held. */
  lemma NextInside(s: State, a: Actor)
    requires !PcOf(s, a).Idle?
    requires PcOf(s, a).AddWantSub? ==> s.threads.sub.None?
    requires PcOf(s, a).AddWantCb? || PcOf(s, a).CancelWantCb? ==> s.threads.cbs.None?
    ensures InsideEnabled(s, a, StepOfPc(PcOf(s, a)))
  {
  }

  /** Some thread is in the way of one that waits for `m_callbacks_`, or of one that waits for `m_submission_`. */
  function Blocker(s: State): Actor
    requires s.threads.cbs.Some? || s.threads.sub.Some?
  {
    if s.threads.cbs.Some? then s.threads.cbs.value else s.threads.sub.value
  }

  lemma BlockerCanStep(s: State)
    requires LocksInv(s) && (s.threads.cbs.Some? || s.threads.sub.Some?)
    ensures var a := Blocker(s);
            if a == RUN && s.threads.loop.Harvesting? then s.threads.cbs == Some(RUN)
            else if a == RUN && s.threads.loop.Submitting? then s.threads.sub == Some(RUN) && s.threads.cbs.None?
            else
              && (PcHoldsSub(PcOf(s, a)) || PcHoldsCb(PcOf(s, a)))
              && InsideEnabled(s, a, StepOfPc(PcOf(s, a)))
  {
    var th, a := s.threads, Blocker(s);
    if th.cbs.Some? {
      assert PcHoldsCb(PcAt(th.calls, a)) || (a == RUN && th.loop.Harvesting?);
    } else {
      assert PcHoldsSub(PcAt(th.calls, a)) || (a == RUN && th.loop.Submitting?);
    }
  }

  /** The loop gives up a mutex, or comes closer to it. */
  lemma LoopBlockerLowers(s: State, c: LoopStep)
    requires LocksInv(s) && LoopEnabled(s, c) && (c.Submit? || c.HarvestOne? || c.HarvestEnd?)
    ensures Held(ApplyLoop(s, c)) < Held(s)
  {
    assert s.threads.loop.Submitting? ==> s.threads.sub == Some(RUN);
    assert s.threads.loop.Harvesting? ==> s.threads.cbs == Some(RUN);
  }
}
