/** What every step of the event loop keeps. The invariant has one part per concern, each a
    predicate of only the fields it is about; a step that leaves those fields alone keeps the
    part at once, and the other steps have a small lemma each. */
module EventLoopInvariant {
  import opened Buffers
  import opened Syscalls
  import opened EventLoop

  // ---------------------------------------------------------------- tokens

  /** Every token handed out is in exactly one place: queued, in flight, or posted; and it is
      there once. */
  ghost predicate TokensOk(r: Rings) {
    && (forall i, j :: 0 <= i < j < |r.sq| ==> r.sq[i] != r.sq[j])
    && (forall i, j :: 0 <= i < j < |r.posted| ==> r.posted[i].tok != r.posted[j].tok)
    && (forall t :: t in r.sq ==> t !in r.inflight && t !in Toks(r.posted))
    && r.inflight !! Toks(r.posted)
    && (forall t: Token :: t < r.next <==> t in r.sq || t in r.inflight || t in Toks(r.posted))
    && (forall t: Token :: t < r.next <==> t in r.intent)
  }

  lemma TokensPush(r: Rings, add: Add)
    requires TokensOk(r)
    ensures TokensOk(Push(r, add))
  {
    assert r.next !in r.sq && r.next !in r.inflight && r.next !in Toks(r.posted);
  }

  lemma TokensSubmit(r: Rings)
    requires TokensOk(r)
    ensures TokensOk(SubmitAll(r))
  {
  }

  lemma ToksSnoc(cs: seq<Cqe>, c: Cqe)
    ensures Toks(cs + [c]) == Toks(cs) + {c.tok}
  {
    var ds := cs + [c];
    assert ds[|cs|] == c;
    forall t | t in Toks(cs)
      ensures t in Toks(ds)
    {
      var i :| 0 <= i < |cs| && cs[i].tok == t;
      assert ds[i].tok == t;
    }
  }

  lemma TokensPost(r: Rings, t: Token, res: Reply)
    requires TokensOk(r) && t in r.inflight
    ensures TokensOk(Post(r, t, res))
  {
    ToksSnoc(r.posted, Cqe(t, res));
    forall i | 0 <= i < |r.posted|
      ensures r.posted[i].tok != t
    {
      assert r.posted[i].tok in Toks(r.posted);
    }
  }

  // ---------------------------------------------------------------- locks

  predicate PcHoldsSub(pc: Pc) {
    pc.AddWantCb? || pc.AddGet? || pc.AddWake? || pc.AddStore? || pc.AddDropCb? || pc.AddDropSub?
  }

  predicate PcHoldsCb(pc: Pc) {
    || (pc.AddGet? && pc.add.cb.Some?)
    || (pc.AddWake? && pc.cb.Some?)
    || pc.AddStore? || pc.AddDropCb? || pc.CancelErase?
  }

  /** A mutex is held by the one thread that is between taking and releasing it. */
  ghost predicate LocksOk(th: Threads) {
    && (forall a: Actor :: PcHoldsSub(PcAt(th.calls, a)) || (a == RUN && th.loop.Submitting?) <==> th.sub == Some(a))
    && (forall a: Actor :: PcHoldsCb(PcAt(th.calls, a)) || (a == RUN && th.loop.Harvesting?) <==> th.cbs == Some(a))
  }

  /** The RUN thread is inside a call only outside of `run`, in a user callback, or while the
      waker is re-armed. */
  predicate RunOk(th: Threads) {
    var pc := PcAt(th.calls, RUN);
    && (!pc.Idle? ==> th.loop.Stopped? || th.loop.InUser? || th.loop.WakerAdd?)
    && (th.loop.WakerAdd? ==> !pc.Idle? && !pc.CancelWantCb? && !pc.CancelErase?)
  }

  /** The owner of a mutex after a thread moved to a point where it does or does not hold it. */
  predicate LockMove(lock: Option<Actor>, a: Actor, holds: bool, lock': Option<Actor>) {
    if holds then lock' == Some(a) && (lock.None? || lock == Some(a))
    else lock' == if lock == Some(a) then None else lock
  }

  /** A thread moves inside a call; the RUN thread may move its loop along, but not to or from
      a point where the loop itself holds a mutex. */
  lemma LocksGoto(th: Threads, a: Actor, pc: Pc, th': Threads)
    requires LocksOk(th)
    requires th'.calls == th.calls[a := pc]
    requires a == RUN ==> !th.loop.Submitting? && !th.loop.Harvesting?
    requires th'.loop.Submitting? == th.loop.Submitting? && th'.loop.Harvesting? == th.loop.Harvesting?
    requires LockMove(th.sub, a, PcHoldsSub(pc), th'.sub) && LockMove(th.cbs, a, PcHoldsCb(pc), th'.cbs)
    ensures LocksOk(th')
  {
    forall b: Actor
      ensures PcAt(th'.calls, b) == if b == a then pc else PcAt(th.calls, b)
    {
    }
  }

  // ---------------------------------------------------------------- calls

  predicate AddSane(add: Add, waker: bool) {
    if waker then add == Add(Poll, Some(Waker)) else add.work.Job? && add.cb != Some(Waker)
  }

  /** A call carries the callback it was given: that of the waker only when the waker is
      re-armed. Between the queueing of an SQE and the storing of its callback the SQE
      stays queued. */
  predicate PcSane(pc: Pc, waker: bool, r: Rings, callbacks: map<Token, Callback>) {
    match pc
    case AddWantSub(add) => AddSane(add, waker)
    case AddWantCb(add) => add.cb.Some? && AddSane(add, waker)
    case AddGet(add) => AddSane(add, waker)
    case AddWake(t, cb) =>
      t in r.sq && t !in callbacks && t in r.intent && r.intent[t].cb == cb && (waker <==> cb == Some(Waker))
    case AddStore(t, cb) =>
      t in r.sq && t !in callbacks && t in r.intent && r.intent[t].cb == Some(cb) && (waker <==> cb.Waker?)
    case CancelWantCb(t) => t in r.intent && r.intent[t].cb != Some(Waker)
    case CancelErase(t) => t in r.intent && r.intent[t].cb != Some(Waker)
    case _ => true
  }

  ghost predicate CallsOk(calls: map<Actor, Pc>, waker: bool, r: Rings, callbacks: map<Token, Callback>) {
    forall a: Actor :: PcSane(PcAt(calls, a), a == RUN && waker, r, callbacks)
  }

  lemma CallsGoto(calls: map<Actor, Pc>, waker: bool, r: Rings, callbacks: map<Token, Callback>,
                  a: Actor, pc: Pc, waker': bool)
    requires CallsOk(calls, waker, r, callbacks)
    requires PcSane(pc, a == RUN && waker', r, callbacks)
    requires waker != waker' ==> a == RUN
    ensures CallsOk(calls[a := pc], waker', r, callbacks)
  {
    var calls' := calls[a := pc];
    forall b: Actor
      ensures PcSane(PcAt(calls', b), b == RUN && waker', r, callbacks)
    {
      if b != a {
        assert PcAt(calls', b) == PcAt(calls, b);
        assert PcSane(PcAt(calls, b), b == RUN && waker, r, callbacks);
      }
    }
  }

  lemma CallsPush(calls: map<Actor, Pc>, waker: bool, r: Rings, callbacks: map<Token, Callback>, add: Add)
    requires CallsOk(calls, waker, r, callbacks) && TokensOk(r)
    ensures CallsOk(calls, waker, Push(r, add), callbacks)
  {
    forall b: Actor
      ensures PcSane(PcAt(calls, b), b == RUN && waker, Push(r, add), callbacks)
    {
      assert PcSane(PcAt(calls, b), b == RUN && waker, r, callbacks);
    }
  }

  /** The rings and the callback map may change as long as the tokens being stored stay queued
      and out of the map. */
  lemma CallsKeep(calls: map<Actor, Pc>, waker: bool, r: Rings, callbacks: map<Token, Callback>,
                  r': Rings, callbacks': map<Token, Callback>)
    requires CallsOk(calls, waker, r, callbacks) && r'.intent == r.intent
    requires forall b: Actor :: PcAt(calls, b).AddWake? || PcAt(calls, b).AddStore? ==>
               PcAt(calls, b).tok in r'.sq && PcAt(calls, b).tok !in callbacks'
    ensures CallsOk(calls, waker, r', callbacks')
  {
    forall b: Actor
      ensures PcSane(PcAt(calls, b), b == RUN && waker, r', callbacks')
    {
      assert PcSane(PcAt(calls, b), b == RUN && waker, r, callbacks);
    }
  }

  // ---------------------------------------------------------------- callbacks

  /** The token whose callback is about to be stored, by the thread that holds m_submission_. */
  function StoringTok(th: Threads): Option<Token> {
    if th.sub.None? then None
    else
      var pc := PcAt(th.calls, th.sub.value);
      if pc.AddWake? || pc.AddStore? then Some(pc.tok) else None
  }

  function HarvestedToks(posted: seq<Cqe>, head: nat): set<Token> {
    Toks(if head <= |posted| then posted[..head] else posted)
  }

  /** The map holds what was passed with the SQE of a token and only for tokens not harvested
      yet; and what was passed is there unless it was cancelled, harvested or is being stored. */
  ghost predicate CallbacksOk(tb: Table, intent: map<Token, Add>, harvested: set<Token>, storing: Option<Token>) {
    && (forall t :: t in tb.callbacks ==>
          t in intent && intent[t].cb == Some(tb.callbacks[t]) && t !in harvested)
    && (forall t :: t in intent && intent[t].cb.Some? ==>
          t in tb.callbacks || t in tb.cancelled || t in harvested || storing == Some(t))
    && (forall t :: t in tb.cancelled ==> t in intent && intent[t].cb != Some(Waker))
  }

  lemma HarvestedNext(posted: seq<Cqe>, head: nat)
    requires head < |posted|
    ensures HarvestedToks(posted, head + 1) == HarvestedToks(posted, head) + {posted[head].tok}
  {
    assert posted[..head + 1] == posted[..head] + [posted[head]];
    ToksSnoc(posted[..head], posted[head]);
  }

  // ---------------------------------------------------------------- dispatch

  /** The callbacks found for the first |found| completions, in the order of the queue. */
  ghost function Selected(posted: seq<Cqe>, found: seq<Option<Callback>>): seq<Invocation>
    requires |found| <= |posted|
  {
    if found == [] then []
    else
      var k := |found| - 1;
      Selected(posted, found[..k])
      + (if found[k].Some? then [Invocation(posted[k].tok, found[k].value, posted[k].res)] else [])
  }

  lemma {:induction false} SelectedFrame(posted: seq<Cqe>, posted': seq<Cqe>, found: seq<Option<Callback>>)
    requires |found| <= |posted| && posted <= posted'
    ensures Selected(posted', found) == Selected(posted, found)
    decreases |found|
  {
    if found != [] {
      SelectedFrame(posted, posted', found[..|found| - 1]);
    }
  }

  /** Every selected invocation stems from one completion, and its place in the selection is
      the number of callbacks found before it. */
  lemma {:induction false} SelectedOrigin(posted: seq<Cqe>, found: seq<Option<Callback>>, k: nat) returns (i: nat)
    requires |found| <= |posted| && k < |Selected(posted, found)|
    ensures i < |found| && found[i].Some?
    ensures Selected(posted, found)[k] == Invocation(posted[i].tok, found[i].value, posted[i].res)
    ensures k == |Selected(posted, found[..i])|
    decreases |found|
  {
    var n := |found| - 1;
    if k < |Selected(posted, found[..n])| {
      i := SelectedOrigin(posted, found[..n], k);
      assert found[..n][..i] == found[..i];
    } else {
      i := n;
    }
  }

  /** And every callback found is selected. */
  lemma {:induction false} SelectedAt(posted: seq<Cqe>, found: seq<Option<Callback>>, i: nat)
    requires |found| <= |posted| && i < |found| && found[i].Some?
    ensures |Selected(posted, found[..i])| < |Selected(posted, found)|
    ensures Selected(posted, found)[|Selected(posted, found[..i])|]
            == Invocation(posted[i].tok, found[i].value, posted[i].res)
    decreases |found|
  {
    var n := |found| - 1;
    if i < n {
      SelectedAt(posted, found[..n], i);
      assert found[..n][..i] == found[..i];
    }
  }

  /** What the harvest found for a completion is the callback passed with its SQE; it finds
      nothing only if there was none or it was cancelled. */
  predicate FoundRight(r: Rings, found: seq<Option<Callback>>, cancelled: set<Token>, i: nat) {
    && i < |found| && i < |r.posted|
    && var t := r.posted[i].tok;
       && t in r.intent
       && (found[i].Some? ==> r.intent[t].cb == found[i])
       && (found[i].None? && r.intent[t].cb.Some? ==> t in cancelled)
  }

  ghost predicate FoundOk(r: Rings, found: seq<Option<Callback>>, cancelled: set<Token>) {
    |found| <= |r.posted| && forall i :: 0 <= i < |found| ==> FoundRight(r, found, cancelled, i)
  }

  /** Callbacks are invoked in the order of the completion queue, across all batches. */
  ghost predicate OrderOk(posted: seq<Cqe>, b: Batch) {
    && |b.found| == b.head <= |posted|
    && b.invoked + b.pending == Selected(posted, b.found)
  }

  predicate Busy(pc: LoopPc) {
    || pc.Harvesting? || pc.Dispatching? || pc.InUser?
    || pc.WakerFire? || pc.WakerAdd? || pc.WakerGiveUp?
  }

  /** The batch of a harvest is in the ring, and the local list is empty outside of a pass. */
  predicate PassOk(loop: LoopPc, b: Batch, ready: nat) {
    && (loop.WantCb? || loop.Harvesting? ==> b.end <= ready)
    && (b.pending != [] ==> Busy(loop))
  }

  // ---------------------------------------------------------------- the waker

  function InvokedToks(invoked: seq<Invocation>): set<Token> {
    set i | 0 <= i < |invoked| :: invoked[i].tok
  }

  /** The outstanding poll is the only waker token that was not invoked. */
  ghost predicate ArmedOk(intent: map<Token, Add>, armed: Option<Token>, done: set<Token>) {
    && (forall t :: t in intent && intent[t].cb == Some(Waker) ==>
          intent[t].work.Poll? && (armed == Some(t) || t in done))
    && (armed.Some? ==> armed.value in intent && intent[armed.value].cb == Some(Waker) && armed.value !in done)
  }

  /** Whether the RUN thread is between the start of the waker's callback and its next poll. */
  predicate Rearming(loop: LoopPc, pc: Pc) {
    || loop.WakerFire?
    || loop.WakerGiveUp?
    || (loop.WakerAdd? &&
          (pc.AddWantSub? || pc.AddWantCb? || pc.AddGet? || pc == AddDropCb(false) || pc == AddDropSub(false)))
  }

  /** Unless the waker failed there is an outstanding poll, except while it is being re-armed;
      and the event counter is positive from the wake of its add to the read of its callback. */
  predicate PulseOk(loop: LoopPc, pc: Pc, p: Pulse) {
    && (Rearming(loop, pc) ==> p.armed.None?)
    && (!p.down && !Rearming(loop, pc) ==> p.armed.Some?)
    && (p.armed.Some? ==> p.counter > 0 || (loop.WakerAdd? && pc.AddWake?))
    && (loop.WakerFire? ==> p.counter > 0)
    && (loop.WakerAdd? && pc.AddWake? ==> p.armed == Some(pc.tok))
  }

  /** From the submission to the end of the harvest the poll is not in the queue any more. */
  predicate SentOk(loop: LoopPc, armed: Option<Token>, sq: seq<Token>) {
    (loop.Waiting? || loop.Peeking? || loop.WantCb? || loop.Harvesting?) && armed.Some? ==> armed.value !in sq
  }

  // ---------------------------------------------------------------- exit

  /** The most recent error among the exit requests. */
  function LastError(exits: seq<Option<int>>): Option<int> {
    if exits == [] then None
    else
      var k := |exits| - 1;
      if exits[k].Some? then exits[k] else LastError(exits[..k])
  }

  predicate ExitOk(e: Ending) {
    && (e.exiting <==> e.requests != [])
    && e.error == LastError(e.requests)
  }

  lemma ExitRequest(e: Ending, error: Option<int>)
    requires ExitOk(e)
    ensures ExitOk(RequestExit(e, error))
  {
    assert (e.requests + [error])[..|e.requests|] == e.requests;
  }

  // ---------------------------------------------------------------- the whole

  ghost predicate TokensInv(s: State) {
    TokensOk(s.rings)
  }

  ghost predicate LocksInv(s: State) {
    LocksOk(s.threads) && RunOk(s.threads)
  }

  ghost predicate CallsInv(s: State) {
    CallsOk(s.threads.calls, s.threads.loop.WakerAdd?, s.rings, s.table.callbacks)
  }

  ghost predicate CallbacksInv(s: State) {
    CallbacksOk(s.table, s.rings.intent, HarvestedToks(s.rings.posted, s.batch.head), StoringTok(s.threads))
  }

  ghost predicate DispatchInv(s: State) {
    && OrderOk(s.rings.posted, s.batch)
    && FoundOk(s.rings, s.batch.found, s.table.cancelled)
    && PassOk(s.threads.loop, s.batch, |s.rings.posted|)
  }

  ghost predicate WakerInv(s: State) {
    && ArmedOk(s.rings.intent, s.pulse.armed, InvokedToks(s.batch.invoked))
    && PulseOk(s.threads.loop, PcOf(s, RUN), s.pulse)
    && SentOk(s.threads.loop, s.pulse.armed, s.rings.sq)
  }

  predicate ExitInv(s: State) {
    ExitOk(s.ending)
  }

  ghost predicate Inv(s: State) {
    && TokensInv(s)
    && LocksInv(s)
    && CallsInv(s)
    && CallbacksInv(s)
    && DispatchInv(s)
    && WakerInv(s)
    && ExitInv(s)
  }

  lemma InitialInv()
    ensures Inv(INITIAL)
  {
    InitialRings();
    InitialThreads();
    InitialLoop();
  }

  lemma InitialRings()
    ensures TokensInv(INITIAL) && CallbacksInv(INITIAL)
  {
  }

  lemma InitialThreads()
    ensures LocksInv(INITIAL) && CallsInv(INITIAL)
  {
  }

  lemma InitialLoop()
    ensures DispatchInv(INITIAL) && WakerInv(INITIAL) && ExitInv(INITIAL)
  {
  }

  // ---------------------------------------------------------------- tokens and exit are kept

  lemma TokensLoop(s: State, c: LoopStep)
    requires TokensInv(s) && LoopEnabled(s, c)
    ensures TokensInv(ApplyLoop(s, c))
  {
    match c {
      case Submit => TokensSubmit(s.rings);
      case StartRun => case CheckExit => case RunLockSub => case WaitOk => case WaitFail(_) =>
      case Peek => case RunLockCb => case HarvestOne => case HarvestEnd => case Invoke => case UserReturn =>
      case WakerRead(_) => case WakerExit => case LoopAgain =>
    }
  }

  lemma TokensStep(s: State, l: Label)
    requires TokensInv(s) && Enabled(s, l)
    ensures TokensInv(Apply(s, l))
  {
    match l {
      case Call(a, c) =>
      case Inside(a, c) =>
        if c.GetSqe? {
          TokensPush(s.rings, PcOf(s, a).add);
        }
      case Loop(c) => TokensLoop(s, c);
      case Complete(t, r) => TokensPost(s.rings, t, r);
    }
  }

  lemma ExitLoop(s: State, c: LoopStep)
    requires ExitInv(s) && LoopEnabled(s, c)
    ensures ExitInv(ApplyLoop(s, c))
  {
    match c {
      case WakerRead(fail) =>
        ExitRequest(s.ending, if s.threads.loop.res.Fail? then Some(s.threads.loop.res.error) else fail);
      case WakerExit => ExitRequest(s.ending, Some(ENOBUFS));
      case StartRun => case CheckExit => case RunLockSub => case Submit => case WaitOk => case WaitFail(_) =>
      case Peek => case RunLockCb => case HarvestOne => case HarvestEnd => case Invoke => case UserReturn =>
      case LoopAgain =>
    }
  }

  lemma ExitStep(s: State, l: Label)
    requires ExitInv(s) && Enabled(s, l)
    ensures ExitInv(Apply(s, l))
  {
    match l {
      case Call(a, c) =>
        if c.ApiExit? {
          ExitRequest(s.ending, c.error);
        }
      case Inside(a, c) =>
      case Loop(c) => ExitLoop(s, c);
      case Complete(t, r) =>
    }
  }

  // ---------------------------------------------------------------- locks are kept

  lemma InsideLocks(s: State, a: Actor, c: CallStep)
    requires LocksInv(s) && InsideEnabled(s, a, c)
    requires PcOf(s, a).AddWantCb? ==> PcOf(s, a).add.cb.Some?
    ensures var th, th' := s.threads, ApplyInside(s, a, c).threads;
            && th'.calls == th.calls[a := PcAt(th'.calls, a)]
            && LockMove(th.sub, a, PcHoldsSub(PcAt(th'.calls, a)), th'.sub)
            && LockMove(th.cbs, a, PcHoldsCb(PcAt(th'.calls, a)), th'.cbs)
            && RunOk(th')
            && th'.loop.Submitting? == th.loop.Submitting? && th'.loop.Harvesting? == th.loop.Harvesting?
  {
    assert PcHoldsSub(PcAt(s.threads.calls, a)) ==> s.threads.sub == Some(a);
    assert PcHoldsCb(PcAt(s.threads.calls, a)) <==> s.threads.cbs == Some(a);
    match c {
      case LockSub => case LockCb => case GetSqe => case WakeLoop => case StoreCb =>
      case DropCb => case DropSub => case CancelLock => case Erase =>
    }
  }

  lemma LocksInside(s: State, a: Actor, c: CallStep)
    requires LocksInv(s) && CallsInv(s) && InsideEnabled(s, a, c)
    ensures LocksInv(ApplyInside(s, a, c))
  {
    var th' := ApplyInside(s, a, c).threads;
    assert PcSane(PcAt(s.threads.calls, a), a == RUN && s.threads.loop.WakerAdd?, s.rings, s.table.callbacks);
    InsideLocks(s, a, c);
    LocksGoto(s.threads, a, PcAt(th'.calls, a), th');
  }

  lemma LocksLoop(s: State, c: LoopStep)
    requires LocksInv(s) && LoopEnabled(s, c)
    ensures LocksInv(ApplyLoop(s, c))
  {
    match c {
      case StartRun => case CheckExit => case RunLockSub => case Submit => case WaitOk => case WaitFail(_) =>
      case Peek => case RunLockCb => case HarvestOne => case HarvestEnd => case Invoke => case UserReturn =>
      case WakerRead(_) =>
        var th' := ApplyLoop(s, c).threads;
        if th'.loop.WakerAdd? {
          LocksGoto(s.threads, RUN, PcAt(th'.calls, RUN), th');
        }
      case WakerExit => case LoopAgain =>
    }
  }

  // ---------------------------------------------------------------- calls are kept

  /** Only one thread at a time is between the queueing of an SQE and the storing of its callback. */
  lemma OneStoring(s: State, a: Actor, b: Actor)
    requires LocksInv(s)
    requires PcHoldsSub(PcOf(s, a)) && PcHoldsSub(PcOf(s, b))
    ensures a == b
  {
    assert PcHoldsSub(PcAt(s.threads.calls, a)) && PcHoldsSub(PcAt(s.threads.calls, b));
  }

  lemma CallsCall(s: State, a: Actor, c: ApiCall)
    requires CallsInv(s) && CallEnabled(s, a, c)
    ensures CallsInv(ApplyCall(s, a, c))
  {
    var waker := s.threads.loop.WakerAdd?;
    match c {
      case ApiAdd(add) => CallsGoto(s.threads.calls, waker, s.rings, s.table.callbacks, a, AddWantSub(add), waker);
      case ApiCancel(t) => CallsGoto(s.threads.calls, waker, s.rings, s.table.callbacks, a, CancelWantCb(t), waker);
      case ApiExit(_) => case ApiWake =>
    }
  }

  /** The next point of a call is as sane as the one before. */
  lemma InsideSane(s: State, a: Actor, c: CallStep)
    requires CallsInv(s) && TokensInv(s) && InsideEnabled(s, a, c)
    requires s.table.callbacks.Keys <= s.rings.intent.Keys
    requires !c.StoreCb? && !c.Erase?
    ensures var s' := ApplyInside(s, a, c);
            PcSane(PcOf(s', a), a == RUN && s'.threads.loop.WakerAdd?, s'.rings, s'.table.callbacks)
  {
    assert PcSane(PcAt(s.threads.calls, a), a == RUN && s.threads.loop.WakerAdd?, s.rings, s.table.callbacks);
    match c {
      case LockSub => case LockCb => case GetSqe => case WakeLoop =>
      case DropCb => case DropSub => case CancelLock =>
    }
  }

  lemma CallsInside(s: State, a: Actor, c: CallStep)
    requires CallsInv(s) && LocksInv(s) && TokensInv(s) && InsideEnabled(s, a, c)
    requires s.table.callbacks.Keys <= s.rings.intent.Keys
    ensures CallsInv(ApplyInside(s, a, c))
  {
    var s', calls, waker := ApplyInside(s, a, c), s.threads.calls, s.threads.loop.WakerAdd?;
    var pc' := PcOf(s', a);
    InsideLocksFrame(s, a, c);
    if c.StoreCb? || c.Erase? {
      CallsGoto(calls, waker, s.rings, s.table.callbacks, a, pc', waker);
      forall b: Actor | PcAt(s'.threads.calls, b).AddWake? || PcAt(s'.threads.calls, b).AddStore?
        ensures PcAt(s'.threads.calls, b).tok in s.rings.sq && PcAt(s'.threads.calls, b).tok !in s'.table.callbacks
      {
        assert PcAt(s'.threads.calls, b) == PcAt(calls, b);
        assert PcSane(PcAt(calls, b), b == RUN && waker, s.rings, s.table.callbacks);
        if c.StoreCb? {
          OneStoring(s, a, b);
        }
      }
      CallsKeep(s'.threads.calls, waker, s.rings, s.table.callbacks, s.rings, s'.table.callbacks);
    } else {
      InsideSane(s, a, c);
      if c.GetSqe? && |s.rings.sq| < BATCH {
        CallsPush(calls, waker, s.rings, s.table.callbacks, PcOf(s, a).add);
      }
      CallsGoto(calls, waker, s'.rings, s.table.callbacks, a, pc', s'.threads.loop.WakerAdd?);
    }
  }

  lemma InsideLocksFrame(s: State, a: Actor, c: CallStep)
    requires InsideEnabled(s, a, c)
    ensures var s' := ApplyInside(s, a, c);
            && s'.threads.calls == s.threads.calls[a := PcOf(s', a)]
            && (s'.threads.loop.WakerAdd? != s.threads.loop.WakerAdd? ==> a == RUN && c.DropSub?)
            && (!c.GetSqe? ==> s'.rings == s.rings)
            && (!c.StoreCb? && !c.Erase? ==> s'.table == s.table)
            && s'.batch == s.batch && s'.ending == s.ending
            && (c.GetSqe? && |s.rings.sq| >= BATCH ==> s'.rings == s.rings && s'.pulse == s.pulse)
            && (c.GetSqe? && |s.rings.sq| < BATCH ==> s'.rings == Push(s.rings, PcOf(s, a).add))
  {
    match c {
      case LockSub => case LockCb => case GetSqe => case WakeLoop => case StoreCb =>
      case DropCb => case DropSub => case CancelLock => case Erase =>
    }
  }

  lemma CallsLoop(s: State, c: LoopStep)
    requires CallsInv(s) && LocksInv(s) && LoopEnabled(s, c)
    ensures CallsInv(ApplyLoop(s, c))
  {
    var s', calls, waker := ApplyLoop(s, c), s.threads.calls, s.threads.loop.WakerAdd?;
    match c {
      case StartRun => case CheckExit => case RunLockSub => case WaitOk => case WaitFail(_) =>
      case Peek => case RunLockCb => case HarvestEnd => case Invoke => case UserReturn =>
      case WakerExit => case LoopAgain =>
      case Submit =>
        forall b: Actor
          ensures !PcAt(calls, b).AddWake? && !PcAt(calls, b).AddStore?
        {
          assert PcHoldsSub(PcAt(calls, b)) ==> b == RUN;
        }
        CallsKeep(calls, waker, s.rings, s.table.callbacks, s'.rings, s'.table.callbacks);
      case HarvestOne =>
        forall b: Actor | PcAt(calls, b).AddWake? || PcAt(calls, b).AddStore?
          ensures PcAt(calls, b).tok in s.rings.sq && PcAt(calls, b).tok !in s'.table.callbacks
        {
          assert PcSane(PcAt(calls, b), b == RUN && waker, s.rings, s.table.callbacks);
        }
        CallsKeep(calls, waker, s.rings, s.table.callbacks, s.rings, s'.table.callbacks);
      case WakerRead(_) =>
        if s'.threads.loop.WakerAdd? {
          CallsGoto(calls, waker, s.rings, s.table.callbacks, RUN, PcOf(s', RUN), true);
        }
    }
  }

  // ---------------------------------------------------------------- callbacks are kept

  /** A step inside a call leaves the token of another thread's pending store alone. */
  lemma StoringKept(s: State, a: Actor, c: CallStep)
    requires LocksInv(s) && InsideEnabled(s, a, c) && CallsInv(s)
    ensures var s' := ApplyInside(s, a, c);
            var was, now := StoringTok(s.threads), StoringTok(s'.threads);
            match c
            case GetSqe => was.None? && now == (if |s.rings.sq| < BATCH then Some(s.rings.next) else None)
            case WakeLoop => was == Some(PcOf(s, a).tok) && now == (if PcOf(s, a).cb.Some? then was else None)
            case StoreCb => was == Some(PcOf(s, a).tok) && now.None?
            case _ => was == now
  {
    var s', calls := ApplyInside(s, a, c), s.threads.calls;
    assert PcHoldsSub(PcAt(calls, a)) ==> s.threads.sub == Some(a);
    assert PcSane(PcAt(calls, a), a == RUN && s.threads.loop.WakerAdd?, s.rings, s.table.callbacks);
    if s.threads.sub.Some? {
      assert s.threads.sub.value != a ==>
               PcAt(s'.threads.calls, s.threads.sub.value) == PcAt(calls, s.threads.sub.value);
    }
    match c {
      case LockSub => case LockCb => case GetSqe => case WakeLoop => case StoreCb =>
      case DropCb => case DropSub => case CancelLock => case Erase =>
    }
  }

  lemma CallbacksInside(s: State, a: Actor, c: CallStep)
    requires CallbacksInv(s) && CallsInv(s) && LocksInv(s) && TokensInv(s) && InsideEnabled(s, a, c)
    requires HarvestedToks(s.rings.posted, s.batch.head) <= Toks(s.rings.posted)
    ensures CallbacksInv(ApplyInside(s, a, c))
  {
    var s' := ApplyInside(s, a, c);
    StoringKept(s, a, c);
    InsideLocksFrame(s, a, c);
    assert PcSane(PcAt(s.threads.calls, a), a == RUN && s.threads.loop.WakerAdd?, s.rings, s.table.callbacks);
    if c.StoreCb? {
      assert PcOf(s, a).tok in s.rings.sq;
    }
  }

  lemma CallbacksHarvest(s: State)
    requires CallbacksInv(s) && s.batch.head < |s.rings.posted|
    ensures CallbacksInv(HarvestHead(s))
  {
    HarvestedNext(s.rings.posted, s.batch.head);
  }

  lemma StoringLoop(s: State, c: LoopStep)
    requires LocksInv(s) && LoopEnabled(s, c)
    ensures StoringTok(ApplyLoop(s, c).threads) == StoringTok(s.threads)
  {
    var s' := ApplyLoop(s, c);
    assert s.threads.sub.Some? ==> PcHoldsSub(PcAt(s.threads.calls, s.threads.sub.value)) || s.threads.loop.Submitting?;
    match c {
      case StartRun => case CheckExit => case RunLockSub => case Submit => case WaitOk => case WaitFail(_) =>
      case Peek => case RunLockCb => case HarvestOne => case HarvestEnd => case Invoke => case UserReturn =>
      case WakerRead(_) => case WakerExit => case LoopAgain =>
    }
  }

  lemma CallbacksLoop(s: State, c: LoopStep)
    requires CallbacksInv(s) && LocksInv(s) && LoopEnabled(s, c)
    ensures CallbacksInv(ApplyLoop(s, c))
  {
    StoringLoop(s, c);
    match c {
      case HarvestOne => CallbacksHarvest(s);
      case StartRun => case CheckExit => case RunLockSub => case Submit => case WaitOk => case WaitFail(_) =>
      case Peek => case RunLockCb => case HarvestEnd => case Invoke => case UserReturn =>
      case WakerRead(_) => case WakerExit => case LoopAgain =>
    }
  }

  // ---------------------------------------------------------------- dispatch is kept

  lemma FoundGrow(r: Rings, r': Rings, found: seq<Option<Callback>>, cancelled: set<Token>, cancelled': set<Token>)
    requires FoundOk(r, found, cancelled) && cancelled <= cancelled'
    requires r.posted <= r'.posted
    requires forall t :: t in r.intent ==> t in r'.intent && r'.intent[t] == r.intent[t]
    ensures FoundOk(r', found, cancelled')
  {
    forall i | 0 <= i < |found|
      ensures FoundRight(r', found, cancelled', i)
    {
      assert FoundRight(r, found, cancelled, i);
    }
  }

  lemma DispatchInside(s: State, a: Actor, c: CallStep)
    requires DispatchInv(s) && TokensInv(s) && InsideEnabled(s, a, c)
    ensures DispatchInv(ApplyInside(s, a, c))
  {
    var s' := ApplyInside(s, a, c);
    match c {
      case LockSub => case LockCb => case WakeLoop => case StoreCb =>
      case DropCb => case DropSub => case CancelLock =>
      case GetSqe => FoundGrow(s.rings, s'.rings, s.batch.found, s.table.cancelled, s.table.cancelled);
      case Erase => FoundGrow(s.rings, s.rings, s.batch.found, s.table.cancelled, s'.table.cancelled);
    }
  }

  lemma DispatchPost(s: State, t: Token, res: Reply)
    requires DispatchInv(s)
    ensures DispatchInv(s.(rings := Post(s.rings, t, res)))
  {
    var r' := Post(s.rings, t, res);
    SelectedFrame(s.rings.posted, r'.posted, s.batch.found);
    FoundGrow(s.rings, r', s.batch.found, s.table.cancelled, s.table.cancelled);
  }

  /** A completion about to be harvested finds its callback, unless it was cancelled. */
  lemma HarvestFinds(s: State)
    requires TokensInv(s) && CallsInv(s) && LocksInv(s) && CallbacksInv(s)
    requires s.batch.head < |s.rings.posted|
    ensures var t := s.rings.posted[s.batch.head].tok;
            && t in s.rings.intent
            && (t in s.table.callbacks ==> s.rings.intent[t].cb == Some(s.table.callbacks[t]))
            && (s.rings.intent[t].cb.Some? && t !in s.table.callbacks ==> t in s.table.cancelled)
  {
    var r, head := s.rings, s.batch.head;
    var t := r.posted[head].tok;
    assert t in Toks(r.posted);
    forall i | 0 <= i < head
      ensures r.posted[..head][i].tok != t
    {
    }
    if StoringTok(s.threads).Some? {
      var a := s.threads.sub.value;
      assert PcSane(PcAt(s.threads.calls, a), a == RUN && s.threads.loop.WakerAdd?, r, s.table.callbacks);
    }
  }

  lemma DispatchHarvest(s: State)
    requires TokensInv(s) && CallsInv(s) && LocksInv(s) && CallbacksInv(s) && DispatchInv(s)
    requires s.batch.head < |s.rings.posted| && s.threads.loop.Harvesting?
    ensures DispatchInv(HarvestHead(s))
  {
    var s' := HarvestHead(s);
    var found, found' := s.batch.found, s'.batch.found;
    HarvestFinds(s);
    assert found'[..|found|] == found;
    forall i | 0 <= i < |found'|
      ensures FoundRight(s.rings, found', s.table.cancelled, i)
    {
      if i < |found| {
        assert FoundRight(s.rings, found, s.table.cancelled, i);
      }
    }
  }

  lemma DispatchLoop(s: State, c: LoopStep)
    requires TokensInv(s) && CallsInv(s) && LocksInv(s) && CallbacksInv(s) && DispatchInv(s)
    requires LoopEnabled(s, c)
    ensures DispatchInv(ApplyLoop(s, c))
  {
    match c {
      case HarvestOne => DispatchHarvest(s);
      case Submit => FoundGrow(s.rings, SubmitAll(s.rings), s.batch.found, s.table.cancelled, s.table.cancelled);
      case Invoke => assert (s.batch.invoked + [s.batch.pending[0]]) + s.batch.pending[1..]
           == s.batch.invoked + s.batch.pending;
      case StartRun => case CheckExit => case RunLockSub => case WaitOk => case WaitFail(_) =>
      case Peek => case RunLockCb => case HarvestEnd => case UserReturn =>
      case WakerRead(_) => case WakerExit => case LoopAgain =>
    }
  }

  // ---------------------------------------------------------------- the waker is kept

  /** The callback about to be invoked is the one its SQE was added with, and its token was not
      invoked before. */
  lemma InvokedOnce(s: State)
    requires TokensInv(s) && DispatchInv(s) && s.batch.pending != []
    ensures var v := s.batch.pending[0];
            && v.tok in s.rings.intent && s.rings.intent[v.tok].cb == Some(v.cb)
            && v.tok !in InvokedToks(s.batch.invoked)
  {
    var posted, found, invoked := s.rings.posted, s.batch.found, s.batch.invoked;
    var all := Selected(posted, found);
    var v := s.batch.pending[0];
    assert all[|invoked|] == v;
    var i := SelectedOrigin(posted, found, |invoked|);
    assert FoundRight(s.rings, found, s.table.cancelled, i);
    forall k | 0 <= k < |invoked|
      ensures invoked[k].tok != v.tok
    {
      assert all[k] == invoked[k];
      var j := SelectedOrigin(posted, found, k);
      assert j != i;
    }
  }

  lemma ArmedInside(s: State, a: Actor, c: CallStep)
    requires WakerInv(s) && CallsInv(s) && TokensInv(s) && InsideEnabled(s, a, c)
    requires InvokedToks(s.batch.invoked) <= s.rings.intent.Keys
    ensures var s' := ApplyInside(s, a, c);
            ArmedOk(s'.rings.intent, s'.pulse.armed, InvokedToks(s'.batch.invoked))
  {
    assert PcSane(PcAt(s.threads.calls, a), a == RUN && s.threads.loop.WakerAdd?, s.rings, s.table.callbacks);
    match c {
      case LockSub => case LockCb => case GetSqe => case WakeLoop => case StoreCb =>
      case DropCb => case DropSub => case CancelLock => case Erase =>
    }
  }

  lemma PulseInside(s: State, a: Actor, c: CallStep)
    requires WakerInv(s) && CallsInv(s) && LocksInv(s) && InsideEnabled(s, a, c)
    ensures var s' := ApplyInside(s, a, c);
            PulseOk(s'.threads.loop, PcOf(s', RUN), s'.pulse)
  {
    assert PcSane(PcAt(s.threads.calls, a), a == RUN && s.threads.loop.WakerAdd?, s.rings, s.table.callbacks);
    match c {
      case LockSub => case LockCb => case GetSqe => case WakeLoop => case StoreCb =>
      case DropCb => case DropSub => case CancelLock => case Erase =>
    }
  }

  lemma SentInside(s: State, a: Actor, c: CallStep)
    requires WakerInv(s) && TokensInv(s) && LocksInv(s) && CallsInv(s) && InsideEnabled(s, a, c)
    ensures var s' := ApplyInside(s, a, c);
            SentOk(s'.threads.loop, s'.pulse.armed, s'.rings.sq)
  {
    assert PcSane(PcAt(s.threads.calls, a), a == RUN && s.threads.loop.WakerAdd?, s.rings, s.table.callbacks);
    match c {
      case LockSub => case LockCb => case GetSqe => case WakeLoop => case StoreCb =>
      case DropCb => case DropSub => case CancelLock => case Erase =>
    }
  }

  lemma WakerInvoke(s: State)
    requires WakerInv(s) && TokensInv(s) && DispatchInv(s) && LocksInv(s)
    requires s.threads.loop.Dispatching? && s.batch.pending != []
    ensures WakerInv(InvokeHead(s))
  {
    var s', v := InvokeHead(s), s.batch.pending[0];
    InvokedOnce(s);
    assert InvokedToks(s'.batch.invoked) == InvokedToks(s.batch.invoked) + {v.tok} by {
      InvokedSnoc(s.batch.invoked, v);
    }
  }

  lemma InvokedSnoc(vs: seq<Invocation>, v: Invocation)
    ensures InvokedToks(vs + [v]) == InvokedToks(vs) + {v.tok}
  {
    var ws := vs + [v];
    assert ws[|vs|] == v;
    forall t | t in InvokedToks(vs)
      ensures t in InvokedToks(ws)
    {
      var i :| 0 <= i < |vs| && vs[i].tok == t;
      assert ws[i].tok == t;
    }
  }

  lemma WakerLoop(s: State, c: LoopStep)
    requires WakerInv(s) && TokensInv(s) && DispatchInv(s) && LocksInv(s) && LoopEnabled(s, c)
    ensures WakerInv(ApplyLoop(s, c))
  {
    if c.Invoke? {
      WakerInvoke(s);
    } else {
      PulseLoop(s, c);
      ArmedLoop(s, c);
    }
  }

  lemma PulseLoop(s: State, c: LoopStep)
    requires PulseOk(s.threads.loop, PcOf(s, RUN), s.pulse) && SentOk(s.threads.loop, s.pulse.armed, s.rings.sq)
    requires RunOk(s.threads) && LoopEnabled(s, c) && !c.Invoke?
    ensures var s' := ApplyLoop(s, c);
            PulseOk(s'.threads.loop, PcOf(s', RUN), s'.pulse) && SentOk(s'.threads.loop, s'.pulse.armed, s'.rings.sq)
  {
    match c {
      case StartRun => case CheckExit => case RunLockSub => case Submit => case WaitOk => case WaitFail(_) =>
      case Peek => case RunLockCb => case HarvestOne => case HarvestEnd => case UserReturn =>
      case WakerRead(_) => case WakerExit => case LoopAgain =>
    }
  }

  lemma ArmedLoop(s: State, c: LoopStep)
    requires LoopEnabled(s, c) && !c.Invoke?
    ensures var s' := ApplyLoop(s, c);
            s'.rings.intent == s.rings.intent && s'.pulse.armed == s.pulse.armed && s'.batch.invoked == s.batch.invoked
  {
    match c {
      case StartRun => case CheckExit => case RunLockSub => case Submit => case WaitOk => case WaitFail(_) =>
      case Peek => case RunLockCb => case HarvestOne => case HarvestEnd => case UserReturn =>
      case WakerRead(_) => case WakerExit => case LoopAgain =>
    }
  }

  // ---------------------------------------------------------------- the whole is kept

  lemma InvokedIssued(s: State)
    requires TokensInv(s) && DispatchInv(s)
    ensures InvokedToks(s.batch.invoked) <= s.rings.intent.Keys
  {
    var posted, found, invoked := s.rings.posted, s.batch.found, s.batch.invoked;
    forall k | 0 <= k < |invoked|
      ensures invoked[k].tok in s.rings.intent
    {
      assert Selected(posted, found)[k] == invoked[k];
      var i := SelectedOrigin(posted, found, k);
      assert FoundRight(s.rings, found, s.table.cancelled, i);
    }
  }

  lemma HarvestedArePosted(posted: seq<Cqe>, head: nat)
    ensures HarvestedToks(posted, head) <= Toks(posted)
  {
    if head <= |posted| {
      forall i | 0 <= i < head
        ensures posted[..head][i].tok in Toks(posted)
      {
        assert posted[i].tok in Toks(posted);
      }
    }
  }

  lemma CallKeeps(s: State, a: Actor, c: ApiCall)
    requires Inv(s) && CallEnabled(s, a, c)
    ensures Inv(ApplyCall(s, a, c))
  {
    var s' := ApplyCall(s, a, c);
    CallsCall(s, a, c);
    TokensStep(s, Call(a, c));
    ExitStep(s, Call(a, c));
    CallThreads(s, a, c);
  }

  lemma CallThreads(s: State, a: Actor, c: ApiCall)
    requires Inv(s) && CallEnabled(s, a, c)
    ensures var s' := ApplyCall(s, a, c);
            LocksInv(s') && CallbacksInv(s') && DispatchInv(s') && WakerInv(s')
  {
    var s', th := ApplyCall(s, a, c), s.threads;
    assert !PcHoldsSub(PcAt(th.calls, a)) && !PcHoldsCb(PcAt(th.calls, a));
    if c.ApiAdd? || c.ApiCancel? {
      LocksGoto(th, a, PcOf(s', a), s'.threads);
      assert StoringTok(s'.threads) == StoringTok(th) by {
        if th.sub.Some? {
          assert th.sub.value != a ==> PcAt(s'.threads.calls, th.sub.value) == PcAt(th.calls, th.sub.value);
        }
      }
    }
  }

  lemma InsideKeeps(s: State, a: Actor, c: CallStep)
    requires Inv(s) && InsideEnabled(s, a, c)
    ensures Inv(ApplyInside(s, a, c))
  {
    HarvestedArePosted(s.rings.posted, s.batch.head);
    InvokedIssued(s);
    TokensStep(s, Inside(a, c));
    LocksInside(s, a, c);
    CallsInside(s, a, c);
    CallbacksInside(s, a, c);
    DispatchInside(s, a, c);
    ArmedInside(s, a, c);
    PulseInside(s, a, c);
    SentInside(s, a, c);
    ExitStep(s, Inside(a, c));
  }

  lemma LoopKeeps(s: State, c: LoopStep)
    requires Inv(s) && LoopEnabled(s, c)
    ensures Inv(ApplyLoop(s, c))
  {
    TokensLoop(s, c);
    LocksLoop(s, c);
    CallsLoop(s, c);
    CallbacksLoop(s, c);
    DispatchLoop(s, c);
    WakerLoop(s, c);
    ExitLoop(s, c);
  }

  lemma PostKeeps(s: State, t: Token, res: Reply)
    requires Inv(s) && CompleteEnabled(s, t, res)
    ensures Inv(s.(rings := Post(s.rings, t, res)))
  {
    TokensPost(s.rings, t, res);
    DispatchPost(s, t, res);
    var posted' := Post(s.rings, t, res).posted;
    assert posted'[..s.batch.head] == s.rings.posted[..s.batch.head];
    CallsKeep(s.threads.calls, s.threads.loop.WakerAdd?, s.rings, s.table.callbacks, Post(s.rings, t, res),
       s.table.callbacks)
      by {
        forall b: Actor | PcAt(s.threads.calls, b).AddWake? || PcAt(s.threads.calls, b).AddStore?
          ensures PcAt(s.threads.calls, b).tok in s.rings.sq && PcAt(s.threads.calls, b).tok !in s.table.callbacks
        {
          assert PcSane(PcAt(s.threads.calls, b), b == RUN && s.threads.loop.WakerAdd?, s.rings, s.table.callbacks);
        }
      }
  }

  /** Every step of every thread, of the loop and of the kernel keeps the invariant. */
  lemma StepKeeps(s: State, l: Label)
    requires Inv(s) && Enabled(s, l)
    ensures Inv(Apply(s, l))
  {
    match l {
      case Call(a, c) => CallKeeps(s, a, c);
      case Inside(a, c) => InsideKeeps(s, a, c);
      case Loop(c) => LoopKeeps(s, c);
      case Complete(t, r) => PostKeeps(s, t, r);
    }
  }

  /** So it holds after every run. */
  lemma {:induction false} RunKeeps(s: State, labels: seq<Label>)
    requires Inv(s) && IsRun(s, labels)
    ensures Inv(Exec(s, labels))
    decreases |labels|
  {
    if labels != [] {
      var k := |labels| - 1;
      RunKeeps(s, labels[..k]);
      StepKeeps(Exec(s, labels[..k]), labels[k]);
    }
  }
}
