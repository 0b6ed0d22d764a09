/** The methods of `base_singlethread_uring_async_context` (`ark/async/io_uring/context.hpp`), working in
    place on the fields of the context.

    They are proved against the transition system of module EventLoop: `run` is a run of it, and the
    fields are those of the state it ends in. So everything module EventLoopTheorems says about all
    runs holds of this code. Here each method runs to its end before another thread steps in. */
module Context {
  import opened Buffers
  import opened Syscalls
  import opened EventLoop
  import opened EventLoopInvariant
  import opened EventLoopTheorems
  import opened Ring

  /** A run of the transition system ends in this state. */
  ghost predicate Reachable(run: seq<Label>, st: State)
    decreases |run|, 1
  {
    if run == [] then st == INITIAL else exists before :: Leads(before, run, st)
  }

  ghost predicate Leads(before: State, run: seq<Label>, st: State)
    requires run != []
    decreases |run|, 0
  {
    var k := |run| - 1;
    Reachable(run[..k], before) && Enabled(before, run[k]) && st == Apply(before, run[k])
  }

  lemma Extend(run: seq<Label>, st: State, l: Label)
    requires Reachable(run, st) && Enabled(st, l)
    ensures Reachable(run + [l], Apply(st, l))
  {
    assert (run + [l])[..|run|] == run;
    assert Leads(st, run + [l], Apply(st, l));
  }

  lemma {:induction false} ReachableIsRun(run: seq<Label>, st: State)
    requires Reachable(run, st)
    ensures IsRun(INITIAL, run) && Exec(INITIAL, run) == st
    decreases |run|
  {
    if run != [] {
      var before :| Leads(before, run, st);
      ReachableIsRun(run[..|run| - 1], before);
    }
  }

  /** The list of callbacks to run, and the map. */
  datatype Haul = Haul(list: seq<Invocation>, callbacks: map<Token, Callback>)

  /** A completion takes its callback out of the map and puts it on the list, if there is one. */
  function Hauled(x: Haul, c: Cqe): Haul {
    if c.tok in x.callbacks then
      Haul(x.list + [Invocation(c.tok, x.callbacks[c.tok], c.res)], x.callbacks - {c.tok})
    else x
  }

  /** What a harvest of these completions leaves. */
  function Gathered(cqes: seq<Cqe>, callbacks: map<Token, Callback>): Haul {
    if cqes == [] then Haul([], callbacks)
    else Hauled(Gathered(cqes[..|cqes| - 1], callbacks), cqes[|cqes| - 1])
  }

  lemma GatheredNext(posted: seq<Cqe>, lo: nat, hi: nat, callbacks: map<Token, Callback>)
    requires lo <= hi < |posted|
    ensures Gathered(posted[lo..hi + 1], callbacks) == Hauled(Gathered(posted[lo..hi], callbacks), posted[hi])
  {
    assert posted[lo..hi + 1][..hi - lo] == posted[lo..hi];
  }

  /** What a harvest does: the map loses exactly the tokens of the completions, and the list has the callback
      that was stored for a completion, with the result of that completion. */
  lemma {:induction false} GatheredMeaning(cqes: seq<Cqe>, callbacks: map<Token, Callback>)
    ensures var x := Gathered(cqes, callbacks);
            && (forall t :: t in x.callbacks <==> t in callbacks && t !in Toks(cqes))
            && (forall t :: t in x.callbacks ==> x.callbacks[t] == callbacks[t])
            && |x.list| <= |cqes|
            && forall v :: v in x.list ==> v.tok in callbacks && v.cb == callbacks[v.tok] && Cqe(v.tok, v.res) in cqes
  {
    if cqes != [] {
      var k := |cqes| - 1;
      GatheredMeaning(cqes[..k], callbacks);
      ToksSnoc(cqes[..k], cqes[k]);
      assert cqes == cqes[..k] + [cqes[k]];
    }
  }

  /** The entries released, after those from `lo` on and below `hi` were, in order. */
  function Through(seen: seq<nat>, lo: nat, hi: nat): (r: seq<nat>)
    requires lo <= hi
  {
    seen + seq(hi - lo, i requires 0 <= i => lo + i)
  }

  lemma ThroughNext(seen: seq<nat>, lo: nat, hi: nat)
    requires lo <= hi
    ensures Through(seen, lo, hi + 1) == Through(seen, lo, hi) + [hi]
  {
  }

  lemma ThroughInOrder(seen: seq<nat>, lo: nat, hi: nat)
    requires lo <= hi && InOrder(seen, lo)
    ensures InOrder(Through(seen, lo, hi), hi)
  {
  }

  /** The fields that `add_sqe` changes. */
  datatype Queue = Queue(sq: seq<Token>, idx: Token, callbacks: map<Token, Callback>, evfd: nat)

  /** Where the RUN thread is, and its batch. */
  datatype RunStage = RunStage(loop: LoopPc, batch: Batch)

  /** Where the RUN thread is after a call of `add_sqe` that may be the one of the waker. */
  function Resumed(g: RunStage, a: Actor, ok: bool): RunStage {
    if a == RUN && g.loop.WakerAdd? then g.(loop := if ok then Dispatching else WakerGiveUp) else g
  }

  /** What the callback of a user may ask of the context, once these tokens are issued. */
  predicate Harmless(c: ApiCall, intent: map<Token, Add>) {
    match c
    case ApiAdd(add) => add.work.Job? && add.cb != Some(Waker)
    case ApiCancel(t) => t in intent && intent[t].cb != Some(Waker)
    case ApiExit(_) => true
    case ApiWake => true
  }

  /** What the callback of a user does with the context: a call, or the cancellation of an operation that callbacks
      of the same pass added, the `k`-th of them. */
  datatype Reaction = Ask(call: ApiCall) | CancelOwn(k: nat)

  predicate Sensible(r: Reaction, intent: map<Token, Add>) {
    r.Ask? ==> Harmless(r.call, intent)
  }

  /** Tokens that users got from `add_sqe`. */
  ghost predicate OfUsers(mine: seq<Token>, intent: map<Token, Add>) {
    forall i :: 0 <= i < |mine| ==> mine[i] in intent && intent[mine[i]].cb != Some(Waker)
  }

  lemma IssuedOnce(s: State, l: Label, t: Token)
    requires TokensInv(s) && Enabled(s, l) && t in s.rings.intent
    ensures t in Apply(s, l).rings.intent && Apply(s, l).rings.intent[t] == s.rings.intent[t]
  {
    match l {
      case Call(a, c) => case Complete(u, r) =>
      case Inside(a, c) =>
        match c {
          case LockSub => case LockCb => case GetSqe => case WakeLoop => case StoreCb =>
          case DropCb => case DropSub => case CancelLock => case Erase =>
        }
      case Loop(c) =>
        match c {
          case StartRun => case CheckExit => case RunLockSub => case Submit => case WaitOk => case WaitFail(_) =>
          case Peek => case RunLockCb => case HarvestOne => case HarvestEnd => case Invoke => case UserReturn =>
          case WakerRead(_) => case WakerExit => case LoopAgain =>
        }
    }
  }

  /** An SQE keeps its content for good. */
  lemma {:induction false} IssuedForGood(run: seq<Label>, st: State, run': seq<Label>, st': State, t: Token)
    requires Reachable(run, st) && Reachable(run', st') && run <= run' && t in st.rings.intent
    ensures t in st'.rings.intent && st'.rings.intent[t] == st.rings.intent[t]
    decreases |run'|
  {
    if |run'| == |run| {
      assert run == run';
      ReachableIsRun(run, st);
      ReachableIsRun(run', st');
    } else {
      var k := |run'| - 1;
      var before :| Leads(before, run', st');
      IssuedForGood(run, st, run'[..k], before, t);
      ReachableIsRun(run'[..k], before);
      Reached(run'[..k]);
      IssuedOnce(before, run'[k], t);
    }
  }

  lemma StillSensible(run: seq<Label>, st: State, run': seq<Label>, st': State, r: Reaction)
    requires Reachable(run, st) && Reachable(run', st') && run <= run' && Sensible(r, st.rings.intent)
    ensures Sensible(r, st'.rings.intent)
  {
    if r.Ask? && r.call.ApiCancel? {
      IssuedForGood(run, st, run', st', r.call.victim);
    }
  }

  lemma AllSensible(run: seq<Label>, st: State, run': seq<Label>, st': State, rs: seq<Reaction>)
    requires Reachable(run, st) && Reachable(run', st') && run <= run'
    requires forall i :: 0 <= i < |rs| ==> Sensible(rs[i], st.rings.intent)
    ensures forall i :: 0 <= i < |rs| ==> Sensible(rs[i], st'.rings.intent)
  {
    forall i | 0 <= i < |rs|
      ensures Sensible(rs[i], st'.rings.intent)
    {
      StillSensible(run, st, run', st', rs[i]);
    }
  }

  lemma AllRoundSensible(run: seq<Label>, st: State, run': seq<Label>, st': State, r: Round)
    requires Reachable(run, st) && Reachable(run', st') && run <= run'
    requires forall v: Invocation, j :: 0 <= j < |r.react(v)| ==> Sensible(r.react(v)[j], st.rings.intent)
    ensures forall v: Invocation, j :: 0 <= j < |r.react(v)| ==> Sensible(r.react(v)[j], st'.rings.intent)
  {
    forall v: Invocation, j | 0 <= j < |r.react(v)|
      ensures Sensible(r.react(v)[j], st'.rings.intent)
    {
      StillSensible(run, st, run', st', r.react(v)[j]);
    }
  }

  lemma StillOfUsers(run: seq<Label>, st: State, run': seq<Label>, st': State, mine: seq<Token>)
    requires Reachable(run, st) && Reachable(run', st') && run <= run' && OfUsers(mine, st.rings.intent)
    ensures OfUsers(mine, st'.rings.intent)
  {
    forall i | 0 <= i < |mine|
      ensures mine[i] in st'.rings.intent && st'.rings.intent[mine[i]].cb != Some(Waker)
    {
      IssuedForGood(run, st, run', st', mine[i]);
    }
  }

  /** The other fields. */
  datatype Locks = Locks(sub: Option<Actor>, cbs: Option<Actor>, inflight: set<Token>, exiting: bool,
                         error: Option<int>)

  function QueueOf(st: State): Queue {
    Queue(st.rings.sq, st.rings.next, st.table.callbacks, st.pulse.counter)
  }

  function LocksOf(st: State): Locks {
    Locks(st.threads.sub, st.threads.cbs, st.rings.inflight, st.ending.exiting, st.ending.error)
  }

  /** The token `add_sqe` returns; without one it returns ENOBUFS. */
  function Issued(q: Queue): Option<Token> {
    if |q.sq| < BATCH then Some(q.idx) else None
  }

  /** With a token, the SQE is queued, the loop is woken and the callback, if given, is stored under the
      token; without one nothing changes. */
  function Added(q: Queue, cb: Option<Callback>): Queue {
    if |q.sq| < BATCH then
      Queue(q.sq + [q.idx], q.idx + 1, if cb.Some? then q.callbacks[q.idx := cb.value] else q.callbacks, q.evfd + 1)
    else q
  }

  // ---------------------------------------------------------------- what callbacks do to the context

  /** The fields that callbacks can change. */
  datatype Control = Control(queue: Queue, exiting: bool, error: Option<int>)

  /** A wake, which is one more in the event counter. */
  function Woken(q: Queue): Queue {
    q.(evfd := q.evfd + 1)
  }

  /** An exit was requested: the flag is set, an error given replaces the stored one, the loop is woken. */
  function Exiting(x: Control, error: Option<int>): Control {
    Control(Woken(x.queue), true, if error.Some? then error else x.error)
  }

  function AfterCall(x: Control, c: ApiCall): Control {
    match c
    case ApiAdd(add) => x.(queue := Added(x.queue, add.cb))
    case ApiCancel(t) => x.(queue := x.queue.(callbacks := x.queue.callbacks - {t}))
    case ApiExit(error) => Exiting(x, error)
    case ApiWake => x.(queue := Woken(x.queue))
  }

  /** The context, and the tokens that callbacks have got so far. */
  datatype View = View(control: Control, mine: seq<Token>)

  /** The call a reaction makes, if it makes one. */
  function CallOf(r: Reaction, mine: seq<Token>): Option<ApiCall> {
    match r
    case Ask(c) => Some(c)
    case CancelOwn(k) => if k < |mine| then Some(ApiCancel(mine[k])) else None
  }

  function Obtained(x: View, r: Reaction): seq<Token> {
    var tok := if r.Ask? && r.call.ApiAdd? then Issued(x.control.queue) else None;
    if tok.Some? then x.mine + [tok.value] else x.mine
  }

  function AfterReaction(x: View, r: Reaction): View {
    var c := CallOf(r, x.mine);
    View(if c.Some? then AfterCall(x.control, c.value) else x.control, Obtained(x, r))
  }

  function AfterReactions(x: View, rs: seq<Reaction>): View {
    if rs == [] then x else AfterReaction(AfterReactions(x, rs[..|rs| - 1]), rs[|rs| - 1])
  }

  /** The harvest changes the map only. */
  function Taken(x: Control, haul: Haul): Control {
    x.(queue := x.queue.(callbacks := haul.callbacks))
  }

  /** The callback of the waker: a failure requests an exit; otherwise the counter is emptied and the next poll is
      added, and if that fails an exit is requested. */
  function AfterWaker(x: Control, res: Reply, readError: Option<int>): Control {
    var emptied := x.(queue := x.queue.(evfd := 0));
    if res.Fail? then Exiting(x, Some(res.error))
    else if readError.Some? then Exiting(x, readError)
    else if |x.queue.sq| >= BATCH then Exiting(emptied, Some(ENOBUFS))
    else emptied.(queue := Added(emptied.queue, Some(Waker)))
  }

  function AfterCallback(x: View, v: Invocation, rs: seq<Reaction>, readError: Option<int>): View {
    if v.cb.Waker? then x.(control := AfterWaker(x.control, v.res, readError)) else AfterReactions(x, rs)
  }

  function AfterList(x: View, list: seq<Invocation>, react: Invocation -> seq<Reaction>, readError: Option<int>): View {
    if list == [] then x
    else
      var v := list[|list| - 1];
      AfterCallback(AfterList(x, list[..|list| - 1], react, readError), v, react(v), readError)
  }

  lemma AfterListNext(x: View, list: seq<Invocation>, k: nat, react: Invocation -> seq<Reaction>,
                      readError: Option<int>)
    requires k < |list|
    ensures AfterList(x, list[..k + 1], react, readError)
         == AfterCallback(AfterList(x, list[..k], react, readError), list[k], react(list[k]), readError)
  {
    assert list[..k + 1][..k] == list[..k];
  }

  lemma AfterReactionsNext(x: View, rs: seq<Reaction>, k: nat)
    requires k < |rs|
    ensures AfterReactions(x, rs[..k + 1]) == AfterReaction(AfterReactions(x, rs[..k]), rs[k])
  {
    assert rs[..k + 1][..k] == rs[..k];
  }

  /** The exits a callback asks for, in order. */
  function ExitsOf(rs: seq<Reaction>): seq<Option<int>> {
    if rs == [] then []
    else
      var r := rs[|rs| - 1];
      ExitsOf(rs[..|rs| - 1]) + if r.Ask? && r.call.ApiExit? then [r.call.error] else []
  }

  /** After the callback of a user the flag is set exactly if it was before or the callback asked for an exit, and the
      stored error is the last one it gave, if it gave one. */
  lemma {:induction false} ExitsCount(x: View, rs: seq<Reaction>)
    ensures var y := AfterReactions(x, rs).control;
            && (y.exiting <==> x.control.exiting || ExitsOf(rs) != [])
            && y.error == if LastError(ExitsOf(rs)).Some? then LastError(ExitsOf(rs)) else x.control.error
    decreases |rs|
  {
    if rs != [] {
      var k := |rs| - 1;
      ExitsCount(x, rs[..k]);
      var r := rs[k];
      if r.Ask? && r.call.ApiExit? {
        assert (ExitsOf(rs[..k]) + [r.call.error])[..|ExitsOf(rs[..k])|] == ExitsOf(rs[..k]);
      } else {
        assert ExitsOf(rs) == ExitsOf(rs[..k]);
      }
    }
  }

  /** What happens in one round of `run`: what the kernel posts, whether `wait` fails, what the callbacks do and
      whether the waker can read the event counter. */
  datatype Round = Round(
    arrivals: seq<Cqe>, failure: Option<int>, react: Invocation -> seq<Reaction>, readError: Option<int>)

  /** All fields, and the ring. */
  datatype Whole = Whole(view: View, inflight: set<Token>, posted: seq<Cqe>, head: nat)

  function Submitted(w: Whole): Whole {
    var q := w.view.control.queue;
    w.(view := w.view.(control := w.view.control.(queue := q.(sq := []))), inflight := w.inflight + set t | t in q.sq)
  }

  /** The kernel posts a completion, if the token is in flight; what is not in flight it does not post. */
  function ArrivedOne(w: Whole, c: Cqe): Whole {
    if c.tok in w.inflight && (w.view.control.queue.evfd > 0 || c.res.Fail?) then
      w.(inflight := w.inflight - {c.tok}, posted := w.posted + [c])
    else w
  }

  function Arrived(w: Whole, cs: seq<Cqe>): Whole {
    if cs == [] then w else ArrivedOne(Arrived(w, cs[..|cs| - 1]), cs[|cs| - 1])
  }

  lemma ArrivedNext(w: Whole, cs: seq<Cqe>, k: nat)
    requires k < |cs|
    ensures Arrived(w, cs[..k + 1]) == ArrivedOne(Arrived(w, cs[..k]), cs[k])
  {
    assert cs[..k + 1][..k] == cs[..k];
  }

  /** A pass over what is in the ring, up to a batch. */
  function Passed(w: Whole, react: Invocation -> seq<Reaction>, readError: Option<int>): Whole
    requires w.head <= |w.posted|
  {
    var head := Min(|w.posted|, w.head + BATCH);
    var haul := Gathered(w.posted[w.head..head], w.view.control.queue.callbacks);
    w.(head := head,
       view := AfterList(View(Taken(w.view.control, haul), w.view.mine), haul.list, react, readError))
  }

  /** Where `run` is after some rounds: it has returned, it is blocked in `wait`, or it is at the top of the loop. */
  datatype Outcome = Outcome(whole: Whole, ret: Option<Option<int>>, blocked: bool)

  function AfterRound(w: Whole, r: Round): Outcome {
    var a := Arrived(Submitted(w), r.arrivals);
    if r.failure.Some? then Outcome(a, Some(r.failure), false)
    else if a.head >= |a.posted| then Outcome(a, None, true)
    else Outcome(Passed(a, r.react, r.readError), None, false)
  }

  /** At the top of the loop a pending request ends `run`: it returns the last error, or success, and forgets both. */
  function AfterCheck(w: Whole, r: Round): Outcome {
    var x := w.view.control;
    if x.exiting then Outcome(w.(view := w.view.(control := Control(x.queue, false, None))), Some(x.error), false)
    else AfterRound(w, r)
  }

  function AfterRounds(w: Whole, rounds: seq<Round>): Outcome
    decreases |rounds|
  {
    if rounds == [] then Outcome(w, None, false)
    else
      var x := AfterCheck(w, rounds[0]);
      if x.ret.Some? || x.blocked then x else AfterRounds(x.whole, rounds[1..])
  }

  class UringContext {
    const ring: CompletionRing
    var sq: seq<Token>
    var inflight: set<Token>
    var callbacks: map<Token, Callback>
    var callbacksIdx: Token
    var mSubmission: Option<Actor>
    var mCallbacks: Option<Actor>
    var evfd: nat
    var exiting: bool
    var exitingError: Option<int>
    ghost var st: State
    ghost var run: seq<Label>

    ghost function Locked(): Locks
      reads this
    {
      Locks(mSubmission, mCallbacks, inflight, exiting, exitingError)
    }

    /** The fields are those of the state. */
    ghost predicate Coupled()
      reads this, ring
    {
      Queued() == QueueOf(st) && Locked() == LocksOf(st) && ring.posted == st.rings.posted && ring.head == st.batch.head
    }

    ghost predicate Valid()
      reads this, ring
    {
      Reachable(run, st) && Coupled()
    }

    ghost function Queued(): Queue
      reads this
    {
      Queue(sq, callbacksIdx, callbacks, evfd)
    }

    ghost function Ctl(): Control
      reads this
    {
      Control(Queued(), exiting, exitingError)
    }

    ghost function All(mine: seq<Token>): Whole
      reads this, ring
    {
      Whole(View(Ctl(), mine), inflight, ring.posted, ring.head)
    }

    ghost function Stage(): RunStage
      reads this
    {
      RunStage(st.threads.loop, st.batch)
    }

    /** The token was issued with these arguments. */
    ghost predicate Holds(t: Token, add: Add)
      reads this
    {
      t in st.rings.intent && st.rings.intent[t] == add
    }

    ghost predicate Free()
      reads this
    {
      mSubmission.None? && mCallbacks.None?
    }

    /** A context after a successful `init`: the event counter is created, then `add_waker` queues its poll,
        wakes the loop and stores its callback. */
    constructor ()
      ensures Valid() && Free() && run == [] && st == INITIAL && fresh(ring) && InOrder(ring.seen, ring.head)
    {
      ring := new CompletionRing();
      mSubmission, mCallbacks := None, None;
      exiting, exitingError := false, None;
      sq, inflight, callbacksIdx, evfd, callbacks := [0], {}, 1, 1, map[0 := Waker];
      st, run := INITIAL, [];
    }

    ghost method Take(l: Label)
      requires Reachable(run, st) && Enabled(st, l)
      modifies this`st, this`run
      ensures Reachable(run, st) && st == Apply(old(st), l) && run == old(run) + [l]
    {
      Extend(run, st, l);
      st, run := Apply(st, l), run + [l];
    }

    /** `wake`, which is assumed to succeed. */
    method Write()
      modifies this`evfd
      ensures evfd == old(evfd) + 1
    {
      evfd := evfd + 1;
    }

    // -------------------------------------------------------------- the parts of add_sqe

    method LockSubmission(a: Actor, add: Add)
      requires Valid() && mSubmission.None? && PcOf(st, a) == AddWantSub(add)
      modifies this`mSubmission, this`st, this`run
      ensures Valid() && mSubmission == Some(a) && Stage() == old(Stage())
      ensures PcOf(st, a) == if add.cb.Some? then AddWantCb(add) else AddGet(add)
      ensures run == old(run) + [Inside(a, LockSub)]
    {
      Take(Inside(a, LockSub));
      mSubmission := Some(a);
    }

    method UnlockSubmission(a: Actor, ok: bool)
      requires Valid() && PcOf(st, a) == AddDropSub(ok)
      modifies this`mSubmission, this`st, this`run
      ensures Valid() && mSubmission.None? && PcOf(st, a).Idle?
      ensures Stage() == Resumed(old(Stage()), a, ok)
      ensures run == old(run) + [Inside(a, DropSub)]
    {
      Take(Inside(a, DropSub));
      mSubmission := None;
    }

    method LockCallbacks(a: Actor, add: Add)
      requires Valid() && mCallbacks.None? && PcOf(st, a) == AddWantCb(add)
      modifies this`mCallbacks, this`st, this`run
      ensures Valid() && mCallbacks == Some(a) && Stage() == old(Stage())
      ensures PcOf(st, a) == AddGet(add)
      ensures run == old(run) + [Inside(a, LockCb)]
    {
      Take(Inside(a, LockCb));
      mCallbacks := Some(a);
    }

    method UnlockCallbacks(a: Actor, ok: bool)
      requires Valid() && PcOf(st, a) == AddDropCb(ok)
      modifies this`mCallbacks, this`st, this`run
      ensures Valid() && mCallbacks.None? && PcOf(st, a) == AddDropSub(ok) && Stage() == old(Stage())
      ensures run == old(run) + [Inside(a, DropCb)]
    {
      Take(Inside(a, DropCb));
      mCallbacks := None;
    }

    method StoreCallback(a: Actor, tok: Token, cb: Callback)
      requires Valid() && PcOf(st, a) == AddStore(tok, cb)
      modifies this`callbacks, this`st, this`run
      ensures Valid() && PcOf(st, a) == AddDropCb(true) && Stage() == old(Stage())
      ensures callbacks == old(callbacks)[tok := cb]
      ensures run == old(run) + [Inside(a, StoreCb)]
    {
      Take(Inside(a, StoreCb));
      callbacks := callbacks[tok := cb];
    }

    /** `get_sqe`, and the token for the SQE if there is one. */
    method GetSqe(a: Actor, add: Add) returns (tok: Option<Token>)
      requires Valid() && PcOf(st, a) == AddGet(add)
      modifies this`sq, this`callbacksIdx, this`st, this`run
      ensures Valid() && Stage() == old(Stage())
      ensures tok == if |old(sq)| < BATCH then Some(old(callbacksIdx)) else None
      ensures tok.None? ==> sq == old(sq) && callbacksIdx == old(callbacksIdx)
      ensures tok.Some? ==> sq == old(sq) + [tok.value] && callbacksIdx == tok.value + 1
      ensures PcOf(st, a) ==
              match tok
              case None => if add.cb.Some? then AddDropCb(false) else AddDropSub(false)
              case Some(t) => AddWake(t, add.cb)
      ensures tok.Some? ==> Holds(tok.value, add)
      ensures run == old(run) + [Inside(a, EventLoop.GetSqe)]
    {
      Take(Inside(a, EventLoop.GetSqe));
      if |sq| >= BATCH {
        return None;
      }
      tok := Some(callbacksIdx);
      sq, callbacksIdx := sq + [callbacksIdx], callbacksIdx + 1;
    }

    method WakeAfterAdd(a: Actor, tok: Token, cb: Option<Callback>)
      requires Valid() && PcOf(st, a) == AddWake(tok, cb)
      modifies this`evfd, this`st, this`run
      ensures Valid() && evfd == old(evfd) + 1 && Stage() == old(Stage())
      ensures PcOf(st, a) == if cb.Some? then AddStore(tok, cb.value) else AddDropSub(true)
      ensures run == old(run) + [Inside(a, WakeLoop)]
    {
      Take(Inside(a, WakeLoop));
      Write();
    }

    /** `base_add_sqe`, called with the locks held. */
    method BaseAddSqe(a: Actor, add: Add) returns (tok: Option<Token>)
      requires Valid() && PcOf(st, a) == AddGet(add)
      modifies this`sq, this`callbacksIdx, this`evfd, this`st, this`run
      ensures Valid() && Stage() == old(Stage())
      ensures tok == Issued(old(Queued())) && Queued() == Added(old(Queued()), None)
      ensures PcOf(st, a) ==
              match tok
              case None => if add.cb.Some? then AddDropCb(false) else AddDropSub(false)
              case Some(t) => if add.cb.Some? then AddStore(t, add.cb.value) else AddDropSub(true)
      ensures tok.Some? ==> Holds(tok.value, add)
      ensures old(run) <= run
    {
      tok := GetSqe(a, add);
      if tok.Some? {
        ghost var run1, st1 := run, st;
        WakeAfterAdd(a, tok.value, add.cb);
        IssuedForGood(run1, st1, run, st, tok.value);
      }
    }

    /** What `add_sqe` with a callback does while it holds the first lock. */
    method AddStoring(a: Actor, add: Add) returns (tok: Option<Token>)
      requires Valid() && mCallbacks.None? && PcOf(st, a) == AddWantCb(add) && add.cb.Some?
      modifies this`sq, this`callbacksIdx, this`evfd, this`callbacks, this`mCallbacks, this`st, this`run
      ensures Valid() && mCallbacks.None? && PcOf(st, a) == AddDropSub(tok.Some?) && Stage() == old(Stage())
      ensures tok == Issued(old(Queued())) && Queued() == Added(old(Queued()), add.cb)
      ensures tok.Some? ==> Holds(tok.value, add)
      ensures old(run) <= run
    {
      LockCallbacks(a, add);
      tok := BaseAddSqe(a, add);
      ghost var run1, st1 := run, st;
      StoreAndUnlock(a, tok, add.cb.value);
      if tok.Some? {
        IssuedForGood(run1, st1, run, st, tok.value);
      }
    }

    method StoreAndUnlock(a: Actor, tok: Option<Token>, cb: Callback)
      requires Valid() && PcOf(st, a) == if tok.Some? then AddStore(tok.value, cb) else AddDropCb(false)
      modifies this`callbacks, this`mCallbacks, this`st, this`run
      ensures Valid() && mCallbacks.None? && PcOf(st, a) == AddDropSub(tok.Some?) && Stage() == old(Stage())
      ensures callbacks == if tok.Some? then old(callbacks)[tok.value := cb] else old(callbacks)
      ensures old(run) <= run
    {
      if tok.Some? {
        StoreCallback(a, tok.value, cb);
      }
      UnlockCallbacks(a, tok.Some?);
    }

    /** What both forms of `add_sqe` do while they hold the first lock. */
    method AddLocked(a: Actor, add: Add) returns (tok: Option<Token>)
      requires Valid() && mCallbacks.None? && PcOf(st, a) == if add.cb.Some? then AddWantCb(add) else AddGet(add)
      modifies this`sq, this`callbacksIdx, this`evfd, this`callbacks, this`mCallbacks, this`st, this`run
      ensures Valid() && mCallbacks.None? && PcOf(st, a) == AddDropSub(tok.Some?) && Stage() == old(Stage())
      ensures tok == Issued(old(Queued())) && Queued() == Added(old(Queued()), add.cb)
      ensures tok.Some? ==> Holds(tok.value, add)
      ensures old(run) <= run
    {
      if add.cb.Some? {
        tok := AddStoring(a, add);
      } else {
        tok := BaseAddSqe(a, add);
      }
    }

    /** `add_sqe` with and without a callback, from its first lock on. */
    method AddSqeBody(a: Actor, add: Add) returns (tok: Option<Token>)
      requires Valid() && Free() && PcOf(st, a) == AddWantSub(add)
      modifies this`sq, this`callbacksIdx, this`evfd, this`callbacks, this`mSubmission, this`mCallbacks, this`st,
               this`run
      ensures Valid() && Free() && PcOf(st, a).Idle?
      ensures tok == Issued(old(Queued())) && Queued() == Added(old(Queued()), add.cb)
      ensures tok.Some? ==> Holds(tok.value, add)
      ensures Stage() == Resumed(old(Stage()), a, tok.Some?)
      ensures old(run) <= run
    {
      LockSubmission(a, add);
      tok := AddLocked(a, add);
      ghost var run1, st1 := run, st;
      UnlockSubmission(a, tok.Some?);
      if tok.Some? {
        IssuedForGood(run1, st1, run, st, tok.value);
      }
    }

    /** `add_sqe`, as called by code outside of the context. */
    method AddSqe(a: Actor, add: Add) returns (tok: Option<Token>)
      requires Valid() && Free() && CallEnabled(st, a, ApiAdd(add))
      modifies this`sq, this`callbacksIdx, this`evfd, this`callbacks, this`mSubmission, this`mCallbacks, this`st,
               this`run
      ensures Valid() && Free() && PcOf(st, a).Idle? && Stage() == old(Stage())
      ensures tok == Issued(old(Queued())) && Queued() == Added(old(Queued()), add.cb)
      ensures tok.Some? ==> Holds(tok.value, add)
      ensures old(run) <= run
    {
      Take(Call(a, ApiAdd(add)));
      tok := AddSqeBody(a, add);
    }

    /** `cancel`. */
    method Cancel(a: Actor, t: Token)
      requires Valid() && Free() && CallEnabled(st, a, ApiCancel(t))
      modifies this`callbacks, this`mCallbacks, this`st, this`run
      ensures Valid() && Free() && PcOf(st, a).Idle? && Stage() == old(Stage())
      ensures callbacks == old(callbacks) - {t}
      ensures old(run) <= run
    {
      Take(Call(a, ApiCancel(t)));
      LockToErase(a, t);
      EraseCallback(a, t);
    }

    method EraseCallback(a: Actor, t: Token)
      requires Valid() && PcOf(st, a) == CancelErase(t)
      modifies this`callbacks, this`mCallbacks, this`st, this`run
      ensures Valid() && mCallbacks.None? && PcOf(st, a).Idle? && Stage() == old(Stage())
      ensures callbacks == old(callbacks) - {t}
      ensures run == old(run) + [Inside(a, Erase)]
    {
      Take(Inside(a, Erase));
      callbacks := callbacks - {t};
      mCallbacks := None;
    }

    method LockToErase(a: Actor, t: Token)
      requires Valid() && mCallbacks.None? && PcOf(st, a) == CancelWantCb(t)
      modifies this`mCallbacks, this`st, this`run
      ensures Valid() && mCallbacks == Some(a) && PcOf(st, a) == CancelErase(t) && Stage() == old(Stage())
      ensures run == old(run) + [Inside(a, CancelLock)]
    {
      Take(Inside(a, CancelLock));
      mCallbacks := Some(a);
    }

    /** The effect of `exit` on the fields. */
    method SetExit(error: Option<int>)
      modifies this`exiting, this`exitingError, this`evfd
      ensures exiting && exitingError == (if error.Some? then error else old(exitingError)) && evfd == old(evfd) + 1
    {
      if error.Some? {
        exitingError := error;
      }
      exiting := true;
      Write();
    }

    /** `exit`, with or without an error. */
    method Exit(a: Actor, error: Option<int>)
      requires Valid() && CallEnabled(st, a, ApiExit(error))
      modifies this`exiting, this`exitingError, this`evfd, this`st, this`run
      ensures Valid() && st.threads == old(st.threads) && Stage() == old(Stage())
              && run == old(run) + [Call(a, ApiExit(error))]
      ensures exiting && exitingError == (if error.Some? then error else old(exitingError)) && evfd == old(evfd) + 1
    {
      Take(Call(a, ApiExit(error)));
      SetExit(error);
    }

    method Wake(a: Actor)
      requires Valid() && CallEnabled(st, a, ApiWake)
      modifies this`evfd, this`st, this`run
      ensures Valid() && st.threads == old(st.threads) && Stage() == old(Stage())
              && run == old(run) + [Call(a, ApiWake)]
      ensures evfd == old(evfd) + 1
    {
      Take(Call(a, ApiWake));
      Write();
    }

    /** The kernel posts a completion. */
    method Complete(t: Token, res: Reply)
      requires Valid() && CompleteEnabled(st, t, res)
      modifies this`inflight, this`st, this`run, ring`posted
      ensures Valid() && st.threads == old(st.threads) && Stage() == old(Stage())
      ensures ring.posted == old(ring.posted) + [Cqe(t, res)]
      ensures inflight == old(inflight) - {t}
      ensures run == old(run) + [EventLoop.Complete(t, res)]
    {
      Take(EventLoop.Complete(t, res));
      inflight := inflight - {t};
      ring.Post(Cqe(t, res));
    }

    // -------------------------------------------------------------- run

    /** The top of the loop: on a request `run` returns, with the last error or success, and forgets
        both. */
    method CheckExit() returns (ret: Option<Option<int>>)
      requires Valid() && st.threads.loop.Top?
      modifies this`exiting, this`exitingError, this`st, this`run
      ensures Valid() && !exiting && st.batch == old(st.batch)
      ensures run == old(run) + [Loop(EventLoop.CheckExit)]
      ensures ret == if old(exiting) then Some(old(exitingError)) else None
      ensures st.threads.loop == if ret.Some? then Stopped else WantSub
      ensures exitingError == if ret.Some? then None else old(exitingError)
      ensures st.ending.returned == old(st.ending.returned) + if ret.Some? then [ret.value] else []
      ensures PcOf(st, RUN) == old(PcOf(st, RUN))
    {
      Take(Loop(EventLoop.CheckExit));
      ret := None;
      if exiting {
        exiting := false;
        ret := Some(exitingError);
        exitingError := None;
      }
    }

    /** `submit`: the queue goes to the kernel. */
    method Submit()
      requires Valid() && Free() && st.threads.loop.WantSub?
      modifies this`sq, this`inflight, this`mSubmission, this`st, this`run
      ensures Valid() && Free() && Stage() == old(Stage()).(loop := Waiting)
      ensures sq == [] && inflight == old(inflight) + (set t | t in old(sq)) && PcOf(st, RUN) == old(PcOf(st, RUN))
      ensures run == old(run) + [Loop(RunLockSub), Loop(EventLoop.Submit)]
    {
      LockForSubmit();
      Take(Loop(EventLoop.Submit));
      inflight := inflight + (set t | t in sq);
      sq := [];
      mSubmission := None;
    }

    method LockForSubmit()
      requires Valid() && mSubmission.None? && st.threads.loop.WantSub?
      modifies this`mSubmission, this`st, this`run
      ensures Valid() && mSubmission == Some(RUN) && Stage() == old(Stage()).(loop := Submitting)
      ensures PcOf(st, RUN) == old(PcOf(st, RUN))
      ensures run == old(run) + [Loop(RunLockSub)]
    {
      Take(Loop(RunLockSub));
      mSubmission := Some(RUN);
    }

    /** `wait` returns, the batch is peeked and `m_callbacks_` is taken. */
    method PeekAndLock(refs: seq<CqeRef>) returns (n: nat)
      requires Valid() && Free() && st.threads.loop.Waiting? && ring.head < |ring.posted|
      requires Peeked(ring, refs, 0, 0, ring.head) && |refs| == BATCH
      modifies this`mCallbacks, this`st, this`run, refs, ring`head, ring`seen
      ensures Valid() && mSubmission.None? && mCallbacks == Some(RUN)
      ensures ring.head == old(ring.head) && ring.seen == old(ring.seen)
      ensures n == Min(|ring.posted|, ring.head + BATCH) - ring.head
      ensures Peeked(ring, refs, 0, n, ring.head)
      ensures Stage() == RunStage(Harvesting, old(st.batch).(end := ring.head + n))
      ensures run == old(run) + [Loop(WaitOk), Loop(Peek), Loop(RunLockCb)]
    {
      ReturnFromWait();
      n := PeekBatch(ring, refs, BATCH);
      NoteBatch();
      LockForHarvest();
    }

    ghost method ReturnFromWait()
      requires Valid() && st.threads.loop.Waiting? && ring.head < |ring.posted|
      modifies this`st, this`run
      ensures Valid() && Stage() == old(Stage()).(loop := Peeking)
      ensures run == old(run) + [Loop(WaitOk)]
    {
      Take(Loop(WaitOk));
    }

    ghost method NoteBatch()
      requires Valid() && st.threads.loop.Peeking?
      modifies this`st, this`run
      ensures Valid()
      ensures Stage() == RunStage(WantCb, old(st.batch).(end := Min(|ring.posted|, ring.head + BATCH)))
      ensures run == old(run) + [Loop(Peek)]
    {
      Take(Loop(Peek));
    }

    method LockForHarvest()
      requires Valid() && mCallbacks.None? && st.threads.loop.WantCb?
      modifies this`mCallbacks, this`st, this`run
      ensures Valid() && mCallbacks == Some(RUN) && Stage() == old(Stage()).(loop := Harvesting)
      ensures run == old(run) + [Loop(RunLockCb)]
    {
      Take(Loop(RunLockCb));
      mCallbacks := Some(RUN);
    }

    /** One completion of the batch: its token and its result are read, its callback moves from the map to
        the list, and only then is the entry of the ring released. */
    method HarvestOne(refs: seq<CqeRef>, i: nat, ghost n: nat, list: seq<Invocation>) returns (longer: seq<Invocation>)
      requires Valid() && st.threads.loop.Harvesting? && i < n && ring.head < |ring.posted|
      requires ring.head < st.batch.end && Peeked(ring, refs, i, n, ring.head) && st.batch.pending == list
      modifies this`callbacks, this`st, this`run, refs[i], ring`head, ring`seen
      ensures Valid() && st.threads == old(st.threads)
      ensures Peeked(ring, refs, i + 1, n, ring.head)
      ensures ring.head == old(ring.head) + 1 && ring.seen == old(ring.seen) + [old(ring.head)]
      ensures Haul(longer, callbacks) == Hauled(Haul(list, old(callbacks)), old(ring.posted[ring.head]))
      ensures st.batch.end == old(st.batch.end) && st.batch.invoked == old(st.batch.invoked)
      ensures st.batch.pending == longer
      ensures run == old(run) + [Loop(EventLoop.HarvestOne)]
    {
      var cqe := ring.Get(refs[i].cqe.value);
      longer := list;
      Take(Loop(EventLoop.HarvestOne));
      if cqe.tok in callbacks {
        longer := list + [Invocation(cqe.tok, callbacks[cqe.tok], cqe.res)];
        callbacks := callbacks - {cqe.tok};
      }
      Release(ring, refs, i, n);
    }

    /** The same, after the completions from `h` on. */
    method HarvestNext(refs: seq<CqeRef>, i: nat, ghost n: nat, list: seq<Invocation>,
                       ghost h: nat, ghost seen: seq<nat>, ghost cbs: map<Token, Callback>)
      returns (longer: seq<Invocation>)
      requires Valid() && st.threads.loop.Harvesting? && i < n && h <= ring.head < |ring.posted|
      requires ring.head < st.batch.end && Peeked(ring, refs, i, n, ring.head) && st.batch.pending == list
      requires ring.seen == Through(seen, h, ring.head)
      requires Haul(list, callbacks) == Gathered(ring.posted[h..ring.head], cbs)
      modifies this`callbacks, this`st, this`run, refs[i], ring`head, ring`seen
      ensures Valid() && st.threads == old(st.threads)
      ensures Peeked(ring, refs, i + 1, n, ring.head)
      ensures ring.head == old(ring.head) + 1 && ring.seen == Through(seen, h, ring.head)
      ensures Haul(longer, callbacks) == Gathered(ring.posted[h..ring.head], cbs)
      ensures st.batch.end == old(st.batch.end) && st.batch.invoked == old(st.batch.invoked)
      ensures st.batch.pending == longer
      ensures old(run) <= run
    {
      GatheredNext(ring.posted, h, ring.head, cbs);
      ThroughNext(seen, h, ring.head);
      longer := HarvestOne(refs, i, n, list);
    }

    /** The loop over the batch, under `m_callbacks_`: in ring order, each entry released once and after it
        was read. */
    method HarvestBatch(refs: seq<CqeRef>, n: nat) returns (list: seq<Invocation>)
      requires Valid() && st.threads.loop.Harvesting? && Peeked(ring, refs, 0, n, ring.head)
      requires st.batch.end == ring.head + n <= |ring.posted| && st.batch.pending == []
      modifies this`callbacks, this`st, this`run, refs, ring`head, ring`seen
      ensures Valid() && st.threads == old(st.threads) && ring.head == st.batch.end == old(ring.head) + n
      ensures ring.seen == Through(old(ring.seen), old(ring.head), ring.head)
      ensures Haul(list, callbacks) == Gathered(ring.posted[old(ring.head)..ring.head], old(callbacks))
      ensures st.batch.pending == list && st.batch.invoked == old(st.batch.invoked)
      ensures Peeked(ring, refs, n, n, ring.head)
      ensures old(run) <= run
    {
      ghost var h, cbs, seen := ring.head, callbacks, ring.seen;
      list := [];
      assert ring.posted[h..h] == [];
      assert Through(seen, h, h) == seen;
      for i := 0 to n
        invariant Valid() && st.threads == old(st.threads)
        invariant ring.head == h + i && ring.seen == Through(seen, h, ring.head) && Peeked(ring, refs, i, n, ring.head)
        invariant st.batch.end == h + n && st.batch.pending == list && st.batch.invoked == old(st.batch.invoked)
        invariant Haul(list, callbacks) == Gathered(ring.posted[h..ring.head], cbs)
        invariant old(run) <= run
      {
        list := HarvestNext(refs, i, n, list, h, seen, cbs);
      }
    }

    /** The harvest: lock, loop, unlock. */
    method Harvest(refs: seq<CqeRef>) returns (list: seq<Invocation>)
      requires Valid() && Free() && st.threads.loop.Waiting? && ring.head < |ring.posted|
      requires Peeked(ring, refs, 0, 0, ring.head) && |refs| == BATCH && st.batch.pending == []
      modifies this`callbacks, this`mCallbacks, this`st, this`run, refs, ring`head, ring`seen
      ensures Valid() && Free() && st.threads.loop.Dispatching? && st.batch.pending == list
      ensures ring.head == Min(|ring.posted|, old(ring.head) + BATCH)
      ensures ring.seen == Through(old(ring.seen), old(ring.head), ring.head)
      ensures Haul(list, callbacks) == Gathered(ring.posted[old(ring.head)..ring.head], old(callbacks))
      ensures st.batch.invoked == old(st.batch.invoked) && old(run) <= run
      ensures Peeked(ring, refs, 0, 0, ring.head)
    {
      var n := PeekAndLock(refs);
      list := HarvestBatch(refs, n);
      EndHarvest();
    }

    method EndHarvest()
      requires Valid() && st.threads.loop.Harvesting? && ring.head == st.batch.end
      modifies this`mCallbacks, this`st, this`run
      ensures Valid() && mCallbacks.None? && Stage() == old(Stage()).(loop := Dispatching)
      ensures run == old(run) + [Loop(HarvestEnd)]
    {
      Take(Loop(HarvestEnd));
      mCallbacks := None;
    }

    // -------------------------------------------------------------- the callbacks, outside of the locks

    /** The RUN thread is at a place of the loop, with nothing locked and in no call. */
    ghost predicate Between(loop: LoopPc)
      reads this, ring
    {
      Valid() && Free() && st.threads.loop == loop && PcOf(st, RUN).Idle?
    }

    /** The next callback of the list is started. */
    method Invoke(v: Invocation, rest: seq<Invocation>)
      requires Between(Dispatching) && st.batch.pending == [v] + rest
      modifies this`st, this`run
      ensures Between(if v.cb.Waker? then WakerFire(v.res) else InUser)
      ensures st.batch.pending == rest && st.batch.invoked == old(st.batch.invoked) + [v]
      ensures run == old(run) + [Loop(EventLoop.Invoke)]
    {
      Take(Loop(EventLoop.Invoke));
    }

    /** The callback of the waker: it reads the event counter, which never blocks, and adds the next poll;
        on any failure it requests an exit. */
    method RunWaker(res: Reply, readError: Option<int>)
      requires Between(WakerFire(res))
      modifies this`sq, this`callbacksIdx, this`evfd, this`callbacks, this`mSubmission, this`mCallbacks,
               this`exiting, this`exitingError, this`st, this`run
      ensures Between(Dispatching) && st.batch == old(st.batch) && old(run) <= run
      ensures Ctl() == AfterWaker(old(Ctl()), res, readError)
      ensures res.Fail? ==> exiting && exitingError == Some(res.error)
      ensures res.Count? && readError.Some? ==> exiting && exitingError == readError
      ensures res.Count? && readError.None? && |old(sq)| >= BATCH ==> exiting && exitingError == Some(ENOBUFS)
      ensures res.Count? && readError.None? && |old(sq)| < BATCH ==>
                && Queued() == Added(old(Queued()).(evfd := 0), Some(Waker))
                && exiting == old(exiting) && exitingError == old(exitingError)
    {
      var fail := if res.Fail? then Some(res.error) else readError;
      ReadCounter(res, readError);
      if fail.None? {
        Rearm();
      }
    }

    /** `add_waker`, and what the callback of the waker does when it fails. */
    method Rearm()
      requires Valid() && Free() && st.threads.loop == WakerAdd && PcOf(st, RUN) == AddWantSub(Add(Poll, Some(Waker)))
      modifies this`sq, this`callbacksIdx, this`evfd, this`callbacks, this`mSubmission, this`mCallbacks,
               this`exiting, this`exitingError, this`st, this`run
      ensures Between(Dispatching) && st.batch == old(st.batch) && old(run) <= run
      ensures |old(sq)| >= BATCH ==> Ctl() == Exiting(old(Ctl()), Some(ENOBUFS))
      ensures |old(sq)| < BATCH ==> Ctl() == old(Ctl()).(queue := Added(old(Queued()), Some(Waker)))
    {
      var tok := AddSqeBody(RUN, Add(Poll, Some(Waker)));
      if tok.None? {
        GiveUp();
      }
    }

    method ReadCounter(res: Reply, readError: Option<int>)
      requires Between(WakerFire(res))
      modifies this`evfd, this`exiting, this`exitingError, this`st, this`run
      ensures Valid() && Free() && st.batch == old(st.batch)
      ensures run == old(run) + [Loop(WakerRead(readError))]
      ensures var fail := if res.Fail? then Some(res.error) else readError;
              if fail.Some? then
                Between(Dispatching) && exiting && exitingError == fail && evfd == old(evfd) + 1
              else
                && st.threads.loop == WakerAdd && PcOf(st, RUN) == AddWantSub(Add(Poll, Some(Waker)))
                && evfd == 0 && exiting == old(exiting) && exitingError == old(exitingError)
    {
      var fail := if res.Fail? then Some(res.error) else readError;
      CounterIsPositive();
      Take(Loop(WakerRead(readError)));
      if fail.Some? {
        SetExit(fail);
      } else {
        evfd := 0;
      }
    }

    lemma CounterIsPositive()
      requires Valid() && st.threads.loop.WakerFire?
      ensures st.pulse.counter > 0
    {
      ReachableIsRun(run, st);
      WakerReadNeverBlocks(run);
    }

    method GiveUp()
      requires Between(WakerGiveUp)
      modifies this`evfd, this`exiting, this`exitingError, this`st, this`run
      ensures Between(Dispatching) && st.batch == old(st.batch) && run == old(run) + [Loop(WakerExit)]
      ensures exiting && exitingError == Some(ENOBUFS) && evfd == old(evfd) + 1
    {
      Take(Loop(WakerExit));
      SetExit(Some(ENOBUFS));
    }

    /** The callback of a user, which may call the context again, and cancel what it has just added. */
    method RunUser(reactions: seq<Reaction>, mine: seq<Token>) returns (tokens: seq<Token>)
      requires Between(InUser) && forall i :: 0 <= i < |reactions| ==> Sensible(reactions[i], st.rings.intent)
      requires OfUsers(mine, st.rings.intent)
      modifies this`sq, this`callbacksIdx, this`evfd, this`callbacks, this`mSubmission, this`mCallbacks,
               this`exiting, this`exitingError, this`st, this`run
      ensures Between(Dispatching) && st.batch == old(st.batch) && old(run) <= run
      ensures OfUsers(tokens, st.rings.intent)
      ensures View(Ctl(), tokens) == AfterReactions(View(old(Ctl()), mine), reactions)
    {
      ghost var run0, st0, x := run, st, View(Ctl(), mine);
      tokens := mine;
      for i := 0 to |reactions|
        invariant Between(InUser) && st.batch == old(st.batch) && run0 <= run && OfUsers(tokens, st.rings.intent)
        invariant View(Ctl(), tokens) == AfterReactions(x, reactions[..i])
      {
        AfterReactionsNext(x, reactions, i);
        StillSensible(run0, st0, run, st, reactions[i]);
        tokens := RunReaction(reactions[i], tokens);
      }
      assert reactions[..|reactions|] == reactions;
      ReturnFromUser();
    }

    method RunReaction(r: Reaction, mine: seq<Token>) returns (tokens: seq<Token>)
      requires Between(InUser) && Sensible(r, st.rings.intent) && OfUsers(mine, st.rings.intent)
      modifies this`sq, this`callbacksIdx, this`evfd, this`callbacks, this`mSubmission, this`mCallbacks,
               this`exiting, this`exitingError, this`st, this`run
      ensures Between(InUser) && st.batch == old(st.batch) && old(run) <= run
      ensures OfUsers(tokens, st.rings.intent)
      ensures View(Ctl(), tokens) == AfterReaction(View(old(Ctl()), mine), r)
    {
      ghost var run0, st0 := run, st;
      var tok := None;
      match r {
        case Ask(c) => tok := RunCall(c);
        case CancelOwn(k) =>
          if k < |mine| {
            tok := RunCall(ApiCancel(mine[k]));
          }
      }
      StillOfUsers(run0, st0, run, st, mine);
      tokens := mine + if tok.Some? then [tok.value] else [];
    }

    /** One call of the context from the callback of a user. */
    method RunCall(c: ApiCall) returns (tok: Option<Token>)
      requires Between(InUser) && Harmless(c, st.rings.intent)
      modifies this`sq, this`callbacksIdx, this`evfd, this`callbacks, this`mSubmission, this`mCallbacks,
               this`exiting, this`exitingError, this`st, this`run
      ensures Between(InUser) && st.batch == old(st.batch) && old(run) <= run
      ensures tok == if c.ApiAdd? then Issued(old(Queued())) else None
      ensures tok.Some? ==> Holds(tok.value, c.add)
      ensures c.ApiAdd? ==> Queued() == Added(old(Queued()), c.add.cb)
      ensures c.ApiCancel? ==> Queued() == old(Queued()).(callbacks := old(callbacks) - {c.victim})
      ensures c.ApiExit? || c.ApiWake? ==> Queued() == old(Queued()).(evfd := old(evfd) + 1)
      ensures c.ApiExit? ==> exiting && exitingError == if c.error.Some? then c.error else old(exitingError)
      ensures !c.ApiExit? ==> exiting == old(exiting) && exitingError == old(exitingError)
    {
      tok := None;
      match c {
        case ApiAdd(add) => tok := AddSqe(RUN, add);
        case ApiCancel(t) => Cancel(RUN, t);
        case ApiExit(error) => Exit(RUN, error);
        case ApiWake => Wake(RUN);
      }
    }

    ghost method ReturnFromUser()
      requires Between(InUser)
      modifies this`st, this`run
      ensures st.rings == old(st.rings)
      ensures Between(Dispatching) && st.batch == old(st.batch) && run == old(run) + [Loop(UserReturn)]
    {
      Take(Loop(UserReturn));
    }

    /** The callback at the front of the list. */
    method DispatchOne(v: Invocation, rest: seq<Invocation>, reactions: seq<Reaction>, readError: Option<int>,
                       mine: seq<Token>) returns (tokens: seq<Token>)
      requires Between(Dispatching) && st.batch.pending == [v] + rest && OfUsers(mine, st.rings.intent)
      requires forall i :: 0 <= i < |reactions| ==> Sensible(reactions[i], st.rings.intent)
      modifies this`sq, this`callbacksIdx, this`evfd, this`callbacks, this`mSubmission, this`mCallbacks,
               this`exiting, this`exitingError, this`st, this`run
      ensures Between(Dispatching) && st.batch.pending == rest && st.batch.invoked == old(st.batch.invoked) + [v]
      ensures old(run) <= run && OfUsers(tokens, st.rings.intent)
      ensures View(Ctl(), tokens) == AfterCallback(View(old(Ctl()), mine), v, reactions, readError)
    {
      ghost var run0, st0 := run, st;
      Invoke(v, rest);
      if v.cb.Waker? {
        RunWaker(v.res, readError);
        StillOfUsers(run0, st0, run, st, mine);
        tokens := mine;
      } else {
        StillOfUsers(run0, st0, run, st, mine);
        AllSensible(run0, st0, run, st, reactions);
        tokens := RunUser(reactions, mine);
      }
    }

    /** The list is run from its front; what callbacks add is not on it. `mine` are the tokens that callbacks have
        got so far. */
    method Dispatch(list: seq<Invocation>, react: Invocation -> seq<Reaction>, readError: Option<int>, mine: seq<Token>)
      returns (tokens: seq<Token>)
      requires Between(Dispatching) && st.batch.pending == list && OfUsers(mine, st.rings.intent)
      requires forall v: Invocation, i :: 0 <= i < |react(v)| ==> Sensible(react(v)[i], st.rings.intent)
      modifies this`sq, this`callbacksIdx, this`evfd, this`callbacks, this`mSubmission, this`mCallbacks,
               this`exiting, this`exitingError, this`st, this`run
      ensures Between(Dispatching) && st.batch.pending == [] && st.batch.invoked == old(st.batch.invoked) + list
      ensures old(run) <= run && OfUsers(tokens, st.rings.intent)
      ensures View(Ctl(), tokens) == AfterList(View(old(Ctl()), mine), list, react, readError)
    {
      ghost var run0, st0, x := run, st, View(Ctl(), mine);
      tokens := mine;
      for k := 0 to |list|
        invariant Between(Dispatching) && st.batch.pending == list[k..]
        invariant st.batch.invoked == old(st.batch.invoked) + list[..k]
        invariant run0 <= run && OfUsers(tokens, st.rings.intent)
        invariant View(Ctl(), tokens) == AfterList(x, list[..k], react, readError)
      {
        var v := list[k];
        AfterListNext(x, list, k, react, readError);
        assert list[k..] == [v] + list[k + 1..];
        assert list[..k + 1] == list[..k] + [v];
        AllSensible(run0, st0, run, st, react(v));
        tokens := DispatchOne(v, list[k + 1..], react(v), readError, tokens);
      }
      assert list[..|list|] == list;
    }

    /** One pass of the loop from `wait` on: the callbacks of the completions that are in the ring, at most a
        batch of them, are invoked in the order of the ring, with the results of their completions, and nothing
        else is; every one of these entries is released once and in order, also by the destructors at the end. */
    method Pass(react: Invocation -> seq<Reaction>, readError: Option<int>, mine: seq<Token>)
      returns (tokens: seq<Token>)
      requires Between(Waiting) && ring.head < |ring.posted| && InOrder(ring.seen, ring.head)
      requires OfUsers(mine, st.rings.intent)
      requires forall v: Invocation, i :: 0 <= i < |react(v)| ==> Sensible(react(v)[i], st.rings.intent)
      modifies this, ring`head, ring`seen
      ensures Between(Top) && old(run) <= run && OfUsers(tokens, st.rings.intent)
      ensures ring.head == Min(|ring.posted|, old(ring.head) + BATCH)
      ensures InOrder(ring.seen, ring.head)
      ensures var haul := Gathered(ring.posted[old(ring.head)..ring.head], old(callbacks));
              && st.batch.invoked == old(st.batch.invoked) + haul.list
              && View(Ctl(), tokens) == AfterList(View(Taken(old(Ctl()), haul), mine), haul.list, react, readError)
      ensures inflight == old(inflight)
    {
      ghost var run0, st0 := run, st;
      var refs, list := GatherPass();
      StillOfUsers(run0, st0, run, st, mine);
      forall v: Invocation, i | 0 <= i < |react(v)|
        ensures Sensible(react(v)[i], st.rings.intent)
      {
        StillSensible(run0, st0, run, st, react(v)[i]);
      }
      tokens := FinishPass(refs, list, react, readError, mine);
    }

    /** The second half of a pass: the list is run, and the buffer of the batch dies. */
    method FinishPass(refs: seq<CqeRef>, list: seq<Invocation>, react: Invocation -> seq<Reaction>,
                      readError: Option<int>, mine: seq<Token>) returns (tokens: seq<Token>)
      requires Between(Dispatching) && st.batch.pending == list && OfUsers(mine, st.rings.intent)
      requires Peeked(ring, refs, 0, 0, ring.head)
      requires forall v: Invocation, i :: 0 <= i < |react(v)| ==> Sensible(react(v)[i], st.rings.intent)
      modifies this`sq, this`callbacksIdx, this`evfd, this`callbacks, this`mSubmission, this`mCallbacks,
               this`exiting, this`exitingError, this`st, this`run, ring`head, ring`seen
      ensures Between(Top) && old(run) <= run && OfUsers(tokens, st.rings.intent)
      ensures ring.head == old(ring.head) && ring.seen == old(ring.seen)
      ensures st.batch.invoked == old(st.batch.invoked) + list
      ensures View(Ctl(), tokens) == AfterList(View(old(Ctl()), mine), list, react, readError)
    {
      tokens := Dispatch(list, react, readError, mine);
      DestroyBuffer(refs);
      GoAround();
    }

    /** The first half of a pass: the batch is peeked and harvested. */
    method GatherPass() returns (refs: seq<CqeRef>, list: seq<Invocation>)
      requires Between(Waiting) && ring.head < |ring.posted| && InOrder(ring.seen, ring.head)
      modifies this`callbacks, this`mCallbacks, this`st, this`run, ring`head, ring`seen
      ensures Between(Dispatching) && old(run) <= run && st.batch.pending == list
      ensures ring.head == Min(|ring.posted|, old(ring.head) + BATCH)
      ensures InOrder(ring.seen, ring.head)
      ensures var haul := Gathered(ring.posted[old(ring.head)..ring.head], old(callbacks));
              list == haul.list && Ctl() == Taken(old(Ctl()), haul)
      ensures st.batch.invoked == old(st.batch.invoked)
      ensures Peeked(ring, refs, 0, 0, ring.head)
    {
      BetweenPasses();
      refs := NewBuffer();
      ghost var seen, head := ring.seen, ring.head;
      list := Harvest(refs);
      ThroughInOrder(seen, head, ring.head);
      BetweenPasses();
    }

    /** The destructors of `cqe_buffer`, of its references in any order: none of them owns an entry any more, so
        none is released a second time. */
    method DestroyBuffer(refs: seq<CqeRef>)
      requires Peeked(ring, refs, 0, 0, ring.head)
      modifies ring`head, ring`seen
      ensures ring.head == old(ring.head) && ring.seen == old(ring.seen)
    {
      for i := 0 to |refs|
        invariant ring.head == old(ring.head) && ring.seen == old(ring.seen)
      {
        refs[i].Destroy(ring);
      }
    }

    lemma BetweenPasses()
      requires Valid() && (st.threads.loop.Waiting? || st.threads.loop.Dispatching?)
      ensures PcOf(st, RUN).Idle? && (st.threads.loop.Waiting? ==> st.batch.pending == [])
    {
      ReachableIsRun(run, st);
      Reached(run);
    }

    /** `cqe_buffer`, local to a pass. */
    method NewBuffer() returns (refs: seq<CqeRef>)
      ensures |refs| == BATCH && Peeked(ring, refs, 0, 0, ring.head) && forall i :: 0 <= i < |refs| ==> fresh(refs[i])
    {
      refs := [];
      for i := 0 to BATCH
        invariant |refs| == i && Peeked(ring, refs, 0, 0, ring.head) && forall i :: 0 <= i < |refs| ==> fresh(refs[i])
      {
        var r := new CqeRef();
        refs := refs + [r];
      }
    }

    ghost method GoAround()
      requires Between(Dispatching) && st.batch.pending == []
      modifies this`st, this`run
      ensures st.rings == old(st.rings)
      ensures Between(Top) && st.batch == old(st.batch) && run == old(run) + [Loop(LoopAgain)]
    {
      Take(Loop(LoopAgain));
    }

    // -------------------------------------------------------------- the whole of run

    /** `run` is called. */
    method Enter()
      requires Between(Stopped)
      modifies this`st, this`run
      ensures Between(Top) && st.batch == old(st.batch) && run == old(run) + [Loop(StartRun)]
      ensures st.rings == old(st.rings)
    {
      Take(Loop(StartRun));
    }

    /** `wait` fails, and `run` returns its error; the requests for an exit stay. */
    method FailWait(error: int) returns (ret: Option<int>)
      requires Between(Waiting)
      modifies this`st, this`run
      ensures Between(Stopped) && ret == Some(error) && st.batch == old(st.batch)
      ensures st.ending.returned == old(st.ending.returned) + [ret] && st.ending.requests == old(st.ending.requests)
      ensures run == old(run) + [Loop(WaitFail(error))]
      ensures st.rings == old(st.rings)
    {
      Take(Loop(WaitFail(error)));
      ret := Some(error);
    }

    /** The kernel posts completions while the loop waits; what is not in flight it does not post. */
    method Arrive(arrivals: seq<Cqe>, ghost mine: seq<Token>)
      requires Between(Waiting) && ring.head <= |ring.posted|
      modifies this`inflight, this`st, this`run, ring`posted
      ensures Between(Waiting) && old(run) <= run && old(ring.posted) <= ring.posted
      ensures All(mine) == Arrived(old(All(mine)), arrivals)
    {
      ghost var w := All(mine);
      for i := 0 to |arrivals|
        invariant Between(Waiting) && old(run) <= run && old(ring.posted) <= ring.posted
        invariant All(mine) == Arrived(w, arrivals[..i])
      {
        var c := arrivals[i];
        ArrivedNext(w, arrivals, i);
        if c.tok in inflight && (evfd > 0 || c.res.Fail?) {
          Complete(c.tok, c.res);
        }
      }
      assert arrivals[..|arrivals|] == arrivals;
    }

    /** The queue is submitted, and the kernel posts what it completes. */
    method SubmitAndWait(arrivals: seq<Cqe>, ghost mine: seq<Token>)
      requires Between(WantSub) && ring.head <= |ring.posted|
      modifies this`sq, this`inflight, this`mSubmission, this`st, this`run, ring`posted
      ensures Between(Waiting) && old(run) <= run && ring.head <= |ring.posted|
      ensures All(mine) == Arrived(Submitted(old(All(mine))), arrivals)
    {
      ghost var w := All(mine);
      Submit();
      assert All(mine) == Submitted(w);
      Arrive(arrivals, mine);
    }

    /** What is in the ring is passed over, if there is something. */
    method PassIfAny(r: Round, mine: seq<Token>) returns (tokens: seq<Token>, blocked: bool)
      requires Between(Waiting) && InOrder(ring.seen, ring.head) && ring.head <= |ring.posted|
      requires OfUsers(mine, st.rings.intent)
      requires forall v: Invocation, j :: 0 <= j < |r.react(v)| ==> Sensible(r.react(v)[j], st.rings.intent)
      modifies this, ring`head, ring`seen
      ensures Valid() && Free() && old(run) <= run && InOrder(ring.seen, ring.head) && ring.head <= |ring.posted|
      ensures OfUsers(tokens, st.rings.intent)
      ensures blocked <==> old(ring.head) == |ring.posted|
      ensures if blocked then Between(Waiting) && All(tokens) == old(All(mine))
              else Between(Top) && All(tokens) == Passed(old(All(mine)), r.react, r.readError)
    {
      tokens, blocked := mine, ring.head == |ring.posted|;
      if !blocked {
        tokens := Pass(r.react, r.readError, mine);
      }
    }

    /** One round of `run`, after its check: submit, wait, and a pass, if there is something in the ring. */
    method RunRound(r: Round, mine: seq<Token>)
      returns (ret: Option<Option<int>>, tokens: seq<Token>, blocked: bool)
      requires Between(WantSub) && InOrder(ring.seen, ring.head) && ring.head <= |ring.posted|
      requires OfUsers(mine, st.rings.intent)
      requires forall v: Invocation, j :: 0 <= j < |r.react(v)| ==> Sensible(r.react(v)[j], st.rings.intent)
      modifies this, ring
      ensures Valid() && Free() && old(run) <= run && InOrder(ring.seen, ring.head) && ring.head <= |ring.posted|
      ensures OfUsers(tokens, st.rings.intent)
      ensures ret.Some? <==> r.failure.Some?
      ensures ret.Some? ==>
                && Between(Stopped) && ret == Some(r.failure)
                && st.ending.returned != [] && st.ending.returned[|st.ending.returned| - 1] == ret.value
      ensures Outcome(All(tokens), ret, blocked) == AfterRound(old(All(mine)), r)
      ensures ret.None? && !blocked ==> Between(Top)
      ensures ret.None? && blocked ==> Between(Waiting) && ring.head == |ring.posted|
    {
      ghost var run0, st0 := run, st;
      SubmitAndWait(r.arrivals, mine);
      StillOfUsers(run0, st0, run, st, mine);
      if r.failure.Some? {
        var e := FailWait(r.failure.value);
        return Some(e), mine, false;
      }
      forall v: Invocation, j | 0 <= j < |r.react(v)|
        ensures Sensible(r.react(v)[j], st.rings.intent)
      {
        StillSensible(run0, st0, run, st, r.react(v)[j]);
      }
      ret := None;
      tokens, blocked := PassIfAny(r, mine);
    }

    /** The check at the top of the loop, and a round if it finds no request. */
    method RunOnce(r: Round, mine: seq<Token>)
      returns (ret: Option<Option<int>>, tokens: seq<Token>, blocked: bool)
      requires Between(Top) && InOrder(ring.seen, ring.head) && ring.head <= |ring.posted|
      requires OfUsers(mine, st.rings.intent)
      requires forall v: Invocation, j :: 0 <= j < |r.react(v)| ==> Sensible(r.react(v)[j], st.rings.intent)
      modifies this, ring
      ensures Valid() && Free() && old(run) <= run && InOrder(ring.seen, ring.head) && ring.head <= |ring.posted|
      ensures OfUsers(tokens, st.rings.intent)
      ensures Outcome(All(tokens), ret, blocked) == AfterCheck(old(All(mine)), r)
      ensures ret.Some? ==>
                && Between(Stopped)
                && st.ending.returned != [] && st.ending.returned[|st.ending.returned| - 1] == ret.value
      ensures ret.None? && !blocked ==> Between(Top)
      ensures ret.None? && blocked ==> Between(Waiting)
      ensures old(exiting) ==> st.batch == old(st.batch)
    {
      ghost var run0, st0 := run, st;
      ret := CheckExit();
      StillOfUsers(run0, st0, run, st, mine);
      if ret.Some? {
        return ret, mine, false;
      }
      AllRoundSensible(run0, st0, run, st, r);
      ret, tokens, blocked := RunRound(r, mine);
    }

    /** `run`, given what the kernel and the callbacks do in each round; `None` is returned when the rounds are
        over while it has not returned. A pending request is found before anything is submitted or dispatched; a
        failing wait ends it with its error. */
    method Run(rounds: seq<Round>, mine: seq<Token>)
      returns (ret: Option<Option<int>>, tokens: seq<Token>, blocked: bool)
      requires Between(Stopped) && InOrder(ring.seen, ring.head) && ring.head <= |ring.posted|
      requires OfUsers(mine, st.rings.intent)
      requires forall i, v: Invocation, j :: 0 <= i < |rounds| && 0 <= j < |rounds[i].react(v)| ==>
                 Sensible(rounds[i].react(v)[j], st.rings.intent)
      modifies this, ring
      ensures Valid() && Free() && old(run) <= run && InOrder(ring.seen, ring.head)
      ensures Outcome(All(tokens), ret, blocked) == AfterRounds(old(All(mine)), rounds)
      ensures ret.Some? <==> st.threads.loop.Stopped?
      ensures ret.Some? ==> st.ending.returned != [] && st.ending.returned[|st.ending.returned| - 1] == ret.value
      ensures old(exiting) && rounds != [] ==>
                && ret == Some(old(exitingError)) && !exiting && exitingError.None?
                && Queued() == old(Queued()) && inflight == old(inflight) && st.batch == old(st.batch)
    {
      ghost var run0, st0, w := run, st, All(mine);
      tokens := mine;
      Enter();
      for i := 0 to |rounds|
        invariant Between(Top) && run0 <= run && InOrder(ring.seen, ring.head) && ring.head <= |ring.posted|
        invariant OfUsers(tokens, st.rings.intent)
        invariant AfterRounds(w, rounds) == AfterRounds(All(tokens), rounds[i..])
        invariant i == 0 ==> Ctl() == old(Ctl()) && inflight == old(inflight) && st.batch == old(st.batch)
        invariant i > 0 ==> !old(exiting)
      {
        assert rounds[i..][1..] == rounds[i + 1..];
        AllRoundSensible(run0, st0, run, st, rounds[i]);
        ret, tokens, blocked := RunOnce(rounds[i], tokens);
        if ret.Some? || blocked {
          return ret, tokens, blocked;
        }
      }
      ret, blocked := None, false;
    }
  }
}
