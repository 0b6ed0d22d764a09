/** The event loop of `ark/async/io_uring/context.hpp` as a labelled transition system.

    Any number of threads call `add_sqe`, `cancel`, `exit` and `wake`; one thread, RUN, is the one
    that calls `run`. The steps are as fine as the locks: a thread takes `m_submission_`,
    takes `m_callbacks_`, gets an SQE, wakes the loop, stores its callback and releases the
    locks, and every other thread, the loop and the kernel may step in between. The result of
    a step is a function of the label, so a run of the system is a sequence of labels. */
module EventLoop {
  import opened Buffers
  import opened Syscalls

  type Token = nat
  type Actor = nat

  /** The thread inside `run`. */
  const RUN: Actor := 0

  /** The size given to io_uring_queue_init, which is also the size of a batch. */
  const BATCH: nat := 1024

  const ENOBUFS: int := 105

  /** Who an SQE or a callback belongs to: a transfer of this library, or other code. */
  datatype Owner = OfTransfer(id: nat) | OfOther(id: nat)

  datatype Work = Poll | Job(who: Owner)

  datatype Callback = Waker | User(who: Owner)

  /** The arguments of `add_sqe`; there is a form with and one without a callback. */
  datatype Add = Add(work: Work, cb: Option<Callback>)

  datatype Cqe = Cqe(tok: Token, res: Reply)

  datatype Invocation = Invocation(tok: Token, cb: Callback, res: Reply)

  /** Where a thread is inside a call of `add_sqe` or `cancel`. */
  datatype Pc =
    | Idle
    | AddWantSub(add: Add)                 // before m_submission_
    | AddWantCb(add: Add)                  // holds m_submission_, before m_callbacks_
    | AddGet(add: Add)                     // holds what its form of add_sqe needs
    | AddWake(tok: Token, cb: Option<Callback>)  // the SQE is queued
    | AddStore(tok: Token, stored: Callback)     // the loop is woken, the callback not stored yet
    | AddDropCb(ok: bool)                  // about to release m_callbacks_
    | AddDropSub(ok: bool)                 // about to release m_submission_
    | CancelWantCb(victim: Token)          // before m_callbacks_
    | CancelErase(victim: Token)           // holds m_callbacks_

  /** Where the RUN thread is inside `run`. */
  datatype LoopPc =
    | Stopped
    | Top
    | WantSub
    | Submitting
    | Waiting
    | Peeking
    | WantCb
    | Harvesting
    | Dispatching
    | InUser
    | WakerFire(res: Reply)
    | WakerAdd
    | WakerGiveUp

  // The state, in groups of fields that change together. The fields marked as history record
  // what has happened; no step depends on them.

  /** The submission queue, what the kernel works on, everything it ever posted,
      `callbacks_idx_`, and the content of every SQE, with the callback it was added with. */
  datatype Rings = Rings(
    sq: seq<Token>, inflight: set<Token>, posted: seq<Cqe>, next: Token, intent: map<Token, Add>)

  /** The head of the completion ring, the end of the peeked batch and `run_callbacks`. History:
      what the harvest found for each completion, and the invocations. */
  datatype Batch = Batch(
    head: nat, end: nat, pending: seq<Invocation>, found: seq<Option<Callback>>, invoked: seq<Invocation>)

  /** `callbacks_`. History: the tokens cancelled. */
  datatype Table = Table(callbacks: map<Token, Callback>, cancelled: set<Token>)

  /** Where the threads are, and who owns the two mutexes. */
  datatype Threads = Threads(
    calls: map<Actor, Pc>, loop: LoopPc, sub: Option<Actor>, cbs: Option<Actor>)

  /** `exiting_` and `exiting_error_`. History: the requests since `run` last returned on one, and what
      every `run` has returned. */
  datatype Ending = Ending(
    exiting: bool, error: Option<int>, requests: seq<Option<int>>, returned: seq<Option<int>>)

  /** The event counter. History: the outstanding poll of the waker, and whether it failed. */
  datatype Pulse = Pulse(counter: nat, armed: Option<Token>, down: bool)

  datatype State = State(
    rings: Rings, batch: Batch, table: Table, threads: Threads, ending: Ending, pulse: Pulse)

  // ---------------------------------------------------------------- labels

  /** What a thread may ask of the context. */
  datatype ApiCall =
    | ApiAdd(add: Add)
    | ApiCancel(victim: Token)
    | ApiExit(error: Option<int>)
    | ApiWake

  /** The steps inside `add_sqe` and `cancel`. */
  datatype CallStep =
    | LockSub
    | LockCb
    | GetSqe
    | WakeLoop
    | StoreCb
    | DropCb
    | DropSub
    | CancelLock
    | Erase

  /** The steps of `run`. */
  datatype LoopStep =
    | StartRun
    | CheckExit
    | RunLockSub
    | Submit
    | WaitOk
    | WaitFail(error: int)
    | Peek
    | RunLockCb
    | HarvestOne
    | HarvestEnd
    | Invoke
    | UserReturn
    | WakerRead(fail: Option<int>)
    | WakerExit
    | LoopAgain

  datatype Label =
    | Call(a: Actor, call: ApiCall)
    | Inside(a: Actor, step: CallStep)
    | Loop(loop: LoopStep)
    | Complete(tok: Token, res: Reply)

  // ---------------------------------------------------------------- when a step is possible

  function PcAt(calls: map<Actor, Pc>, a: Actor): Pc {
    if a in calls then calls[a] else Idle
  }

  function PcOf(s: State, a: Actor): Pc {
    PcAt(s.threads.calls, a)
  }

  /** A thread may call the interface when it is not inside a call already; the RUN thread
      also while it is outside of `run` or inside a user callback. */
  predicate CanCall(s: State, a: Actor) {
    && PcOf(s, a).Idle?
    && (a == RUN ==> s.threads.loop.Stopped? || s.threads.loop.InUser?)
  }

  /** Tokens are cancelled by those who got them from `add_sqe`. */
  predicate CallEnabled(s: State, a: Actor, c: ApiCall) {
    && CanCall(s, a)
    && (c.ApiAdd? ==> c.add.work.Job? && c.add.cb != Some(Waker))
    && (c.ApiCancel? ==> c.victim in s.rings.intent && s.rings.intent[c.victim].cb != Some(Waker))
  }

  predicate InsideEnabled(s: State, a: Actor, c: CallStep) {
    var pc := PcOf(s, a);
    match c
    case LockSub => pc.AddWantSub? && s.threads.sub.None?
    case LockCb => pc.AddWantCb? && s.threads.cbs.None?
    case GetSqe => pc.AddGet?
    case WakeLoop => pc.AddWake?
    case StoreCb => pc.AddStore?
    case DropCb => pc.AddDropCb?
    case DropSub => pc.AddDropSub?
    case CancelLock => pc.CancelWantCb? && s.threads.cbs.None?
    case Erase => pc.CancelErase?
  }

  predicate LoopEnabled(s: State, c: LoopStep) {
    var loop := s.threads.loop;
    match c
    case StartRun => loop.Stopped? && PcOf(s, RUN).Idle?
    case CheckExit => loop.Top?
    case RunLockSub => loop.WantSub? && s.threads.sub.None?
    case Submit => loop.Submitting?
    case WaitOk => loop.Waiting? && s.batch.head < |s.rings.posted|
    case WaitFail(e) => loop.Waiting?
    case Peek => loop.Peeking?
    case RunLockCb => loop.WantCb? && s.threads.cbs.None?
    case HarvestOne => loop.Harvesting? && s.batch.head < s.batch.end && s.batch.head < |s.rings.posted|
    case HarvestEnd => loop.Harvesting? && s.batch.head >= s.batch.end
    case Invoke => loop.Dispatching? && s.batch.pending != []
    case UserReturn => loop.InUser? && PcOf(s, RUN).Idle?
    case WakerRead(fail) => loop.WakerFire? && (loop.res.Count? && fail.None? ==> s.pulse.counter > 0)
    case WakerExit => loop.WakerGiveUp?
    case LoopAgain => loop.Dispatching? && s.batch.pending == []
  }

  /** The kernel completes what is in flight; a poll succeeds only when the event counter is
      positive. */
  predicate CompleteEnabled(s: State, t: Token, r: Reply) {
    && t in s.rings.inflight
    && (t in s.rings.intent && s.rings.intent[t].work.Poll? && r.Count? ==> s.pulse.counter > 0)
  }

  predicate Enabled(s: State, l: Label) {
    match l
    case Call(a, c) => CallEnabled(s, a, c)
    case Inside(a, c) => InsideEnabled(s, a, c)
    case Loop(c) => LoopEnabled(s, c)
    case Complete(t, r) => CompleteEnabled(s, t, r)
  }

  // ---------------------------------------------------------------- what a step does

  function Goto(th: Threads, a: Actor, pc: Pc): Threads {
    th.(calls := th.calls[a := pc])
  }

  function AtLoop(s: State, pc: LoopPc): State {
    s.(threads := s.threads.(loop := pc))
  }

  /** `exit`, with or without an error. */
  function RequestExit(e: Ending, error: Option<int>): Ending {
    e.(exiting := true,
       error := if error.Some? then error else e.error,
       requests := e.requests + [error])
  }

  function Beat(p: Pulse): Pulse {
    p.(counter := p.counter + 1)
  }

  function Toks(cs: seq<Cqe>): set<Token> {
    set i | 0 <= i < |cs| :: cs[i].tok
  }

  function ApplyCall(s: State, a: Actor, c: ApiCall): State {
    match c
    case ApiAdd(add) => s.(threads := Goto(s.threads, a, AddWantSub(add)))
    case ApiCancel(t) => s.(threads := Goto(s.threads, a, CancelWantCb(t)))
    case ApiExit(e) => s.(ending := RequestExit(s.ending, e), pulse := Beat(s.pulse))
    case ApiWake => s.(pulse := Beat(s.pulse))
  }

  /** A new token is queued with the arguments of its call. */
  function Push(r: Rings, add: Add): Rings {
    Rings(r.sq + [r.next], r.inflight, r.posted, r.next + 1, r.intent[r.next := add])
  }

  /** `base_add_sqe` up to the wake: an SQE is taken from the queue, or there is none. */
  function TakeSqe(s: State, a: Actor, add: Add): State {
    if |s.rings.sq| >= BATCH then
      s.(threads := Goto(s.threads, a, if add.cb.Some? then AddDropCb(false) else AddDropSub(false)))
    else
      s.(threads := Goto(s.threads, a, AddWake(s.rings.next, add.cb)),
         rings := Push(s.rings, add),
         pulse := if add.cb == Some(Waker) then s.pulse.(armed := Some(s.rings.next)) else s.pulse)
  }

  function ApplyInside(s: State, a: Actor, c: CallStep): State
    requires InsideEnabled(s, a, c)
  {
    var pc, th := PcOf(s, a), s.threads;
    match c
    case LockSub =>
      s.(threads := Goto(th, a, if pc.add.cb.Some? then AddWantCb(pc.add) else AddGet(pc.add)).(sub := Some(a)))
    case LockCb => s.(threads := Goto(th, a, AddGet(pc.add)).(cbs := Some(a)))
    case GetSqe => TakeSqe(s, a, pc.add)
    case WakeLoop =>
      s.(threads := Goto(th, a, if pc.cb.Some? then AddStore(pc.tok, pc.cb.value) else AddDropSub(true)),
         pulse := Beat(s.pulse))
    case StoreCb =>
      s.(threads := Goto(th, a, AddDropCb(true)),
         table := s.table.(callbacks := s.table.callbacks[pc.tok := pc.stored]))
    case DropCb => s.(threads := Goto(th, a, AddDropSub(pc.ok)).(cbs := None))
    case DropSub =>
      var loop := if a == RUN && th.loop.WakerAdd? then (if pc.ok then Dispatching else WakerGiveUp) else th.loop;
      s.(threads := Goto(th, a, Idle).(sub := None, loop := loop))
    case CancelLock => s.(threads := Goto(th, a, CancelErase(pc.victim)).(cbs := Some(a)))
    case Erase =>
      s.(threads := Goto(th, a, Idle).(cbs := None),
         table := Table(s.table.callbacks - {pc.victim}, s.table.cancelled + {pc.victim}))
  }

  /** The whole queue is handed to the kernel. */
  function SubmitAll(r: Rings): Rings {
    r.(inflight := r.inflight + (set t | t in r.sq), sq := [])
  }

  /** The harvest of one completion: its callback moves from the map to the local list, and the
      ring entry is released. */
  function HarvestHead(s: State): State
    requires s.batch.head < |s.rings.posted|
  {
    var c, b, cbs := s.rings.posted[s.batch.head], s.batch, s.table.callbacks;
    if c.tok in cbs then
      s.(table := s.table.(callbacks := cbs - {c.tok}),
         batch := b.(head := b.head + 1, found := b.found + [Some(cbs[c.tok])],
                     pending := b.pending + [Invocation(c.tok, cbs[c.tok], c.res)]))
    else
      s.(batch := b.(head := b.head + 1, found := b.found + [None]))
  }

  function InvokeHead(s: State): State
    requires s.batch.pending != []
  {
    var v := s.batch.pending[0];
    var s' := s.(batch := s.batch.(pending := s.batch.pending[1..], invoked := s.batch.invoked + [v]));
    if v.cb.Waker? then AtLoop(s', WakerFire(v.res)).(pulse := s.pulse.(armed := None))
    else AtLoop(s', InUser)
  }

  /** The waker gives up: it asks for an exit and is not armed again. */
  function WakerFails(s: State, error: int): State {
    AtLoop(s, Dispatching).(
      ending := RequestExit(s.ending, Some(error)),
      pulse := Beat(s.pulse).(down := true))
  }

  /** The callback of the waker: on an error it gives up; otherwise it empties the event counter
      and starts to add the next poll. */
  function FireWaker(s: State, fail: Option<int>): State
    requires s.threads.loop.WakerFire?
  {
    if s.threads.loop.res.Fail? then WakerFails(s, s.threads.loop.res.error)
    else if fail.Some? then WakerFails(s, fail.value)
    else
      s.(threads := Goto(s.threads, RUN, AddWantSub(Add(Poll, Some(Waker)))).(loop := WakerAdd),
         pulse := s.pulse.(counter := 0))
  }

  function ApplyLoop(s: State, c: LoopStep): State
    requires LoopEnabled(s, c)
  {
    match c
    case StartRun => AtLoop(s, Top)
    case CheckExit =>
      if s.ending.exiting then
        AtLoop(s, Stopped).(ending := Ending(false, None, [], s.ending.returned + [s.ending.error]))
      else AtLoop(s, WantSub)
    case RunLockSub => s.(threads := s.threads.(sub := Some(RUN), loop := Submitting))
    case Submit => s.(rings := SubmitAll(s.rings), threads := s.threads.(sub := None, loop := Waiting))
    case WaitOk => AtLoop(s, Peeking)
    case WaitFail(e) => AtLoop(s, Stopped).(ending := s.ending.(returned := s.ending.returned + [Some(e)]))
    case Peek => AtLoop(s, WantCb).(batch := s.batch.(end := Min(|s.rings.posted|, s.batch.head + BATCH)))
    case RunLockCb => s.(threads := s.threads.(cbs := Some(RUN), loop := Harvesting))
    case HarvestOne => HarvestHead(s)
    case HarvestEnd => s.(threads := s.threads.(cbs := None, loop := Dispatching))
    case Invoke => InvokeHead(s)
    case UserReturn => AtLoop(s, Dispatching)
    case WakerRead(fail) => FireWaker(s, fail)
    case WakerExit => WakerFails(s, ENOBUFS)
    case LoopAgain => AtLoop(s, Top)
  }

  function Post(r: Rings, t: Token, res: Reply): Rings {
    r.(inflight := r.inflight - {t}, posted := r.posted + [Cqe(t, res)])
  }

  function Apply(s: State, l: Label): State
    requires Enabled(s, l)
  {
    match l
    case Call(a, c) => ApplyCall(s, a, c)
    case Inside(a, c) => ApplyInside(s, a, c)
    case Loop(c) => ApplyLoop(s, c)
    case Complete(t, r) => s.(rings := Post(s.rings, t, r))
  }

  // ---------------------------------------------------------------- runs

  /** The context after a successful `init`: the first poll of the waker is queued, its callback is
      stored, and its `wake` has made the event counter positive. */
  const INITIAL: State :=
    State(Rings([0], {}, [], 1, map[0 := Add(Poll, Some(Waker))]),
          Batch(0, 0, [], [], []),
          Table(map[0 := Waker], {}),
          Threads(map[], Stopped, None, None),
          Ending(false, None, [], []),
          Pulse(1, Some(0), false))

  ghost predicate IsRun(s: State, labels: seq<Label>)
    decreases |labels|, 0
  {
    labels == [] ||
    var k := |labels| - 1;
    IsRun(s, labels[..k]) && Enabled(Exec(s, labels[..k]), labels[k])
  }

  /** The state a run of the system ends in. */
  ghost function Exec(s: State, labels: seq<Label>): State
    requires IsRun(s, labels)
    decreases |labels|, 1
  {
    if labels == [] then s
    else
      var k := |labels| - 1;
      Apply(Exec(s, labels[..k]), labels[k])
  }
}
