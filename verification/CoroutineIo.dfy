/** Coroutines that await transfers (`ark/coroutine/awaitable_op.hpp` on top of `ark/io/async.hpp`): the two halves
    together. A chain suspended at an operation has started one transfer, and is resumed by the callback of that
    transfer, with its result. */
module CoroutineIo {
  import opened Buffers
  import opened Syscalls
  import T = Transfer
  import M = Coroutine
  import MI = CoroutineInvariant
  import MT = CoroutineTheorems
  import S = AsyncSystem
  import A = AsyncTheorems
  import R = AsyncRefinement
  import F = AsyncRefusal

  /** What an operation of a coroutine asks for: a transfer on a descriptor. */
  datatype Await = Await(req: T.Request, fd: nat)

  /** A program says what each of its operations asks for, which may depend on its register. */
  type Plan = (int, int) -> Await

  /** History: the transfers each chain has awaited, in order. */
  datatype Joint = Joint(io: S.System, co: M.Machine, waits: map<nat, seq<nat>>)

  datatype Label =
    | Io(io: S.Label)                  // a step of the transfers, of the event loop or of other users
    | Co(co: M.Label)                  // a step of a coroutine that does not begin to await an operation
    | Suspend(c: nat, a: nat)          // await_suspend: the thread starts the transfer
    | Resume(c: nat, k: nat)           // the callback of the transfer stores the result and resumes the chain

  /** The result of a transfer as a coroutine sees it. */
  function AnswerOf(out: T.Outcome): int {
    match out
    case Done(size) => size
    case Failed(error) => -error
  }

  function WaitsIn(waits: map<nat, seq<nat>>, c: nat): seq<nat> {
    if c in waits then waits[c] else []
  }

  function WaitsOf(j: Joint, c: nat): seq<nat> {
    WaitsIn(j.waits, c)
  }

  /** A chain whose running frame is about to await an operation. */
  predicate AtAwait(m: M.Machine, c: nat) {
    && c < |m.chains| && m.chains[c].where.Running? && m.chains[c].where.id in m.frames
    && m.frames[m.chains[c].where.id].code.AwaitIo?
  }

  function AwaitOf(plan: Plan, m: M.Machine, c: nat): Await
    requires AtAwait(m, c)
  {
    var fr := m.frames[m.chains[c].where.id];
    plan(fr.code.req, fr.acc)
  }

  ghost predicate Enabled(plan: Plan, j: Joint, l: Label) {
    match l
    case Io(io) => S.Enabled(j.io, io)
    case Co(co) =>
      && M.Enabled(j.co, co) && !co.Deliver?
      && (co.Advance? ==> !AtAwait(j.co, co.c))
    case Suspend(c, a) =>
      && AtAwait(j.co, c) && M.Enabled(j.co, M.Advance(c))
      && var w := AwaitOf(plan, j.co, c); S.BeginEnabled(j.io, a, w.req, w.fd)
    case Resume(c, k) =>
      && k < |j.io.completions| && WaitsOf(j, c) != []
      && j.io.completions[k].0 == WaitsOf(j, c)[|WaitsOf(j, c)| - 1]
      && M.Enabled(j.co, M.Deliver(c, AnswerOf(j.io.completions[k].1)))
  }

  ghost function Apply(plan: Plan, j: Joint, l: Label): Joint
    requires Enabled(plan, j, l)
  {
    match l
    case Io(io) => j.(io := S.Apply(j.io, io))
    case Co(co) => j.(co := M.Apply(j.co, co))
    case Suspend(c, a) =>
      var w := AwaitOf(plan, j.co, c);
      Joint(S.ApplyBegin(j.io, a, w.req, w.fd), M.Apply(j.co, M.Advance(c)),
            j.waits[c := WaitsOf(j, c) + [|j.io.ops|]])
    case Resume(c, k) =>
      j.(co := M.Apply(j.co, M.Deliver(c, AnswerOf(j.io.completions[k].1))))
  }

  ghost predicate Init(j: Joint) {
    S.Init(j.io) && j.co == M.INITIAL && j.waits == map[]
  }

  ghost predicate IsRun(plan: Plan, j: Joint, labels: seq<Label>)
    decreases |labels|, 0
  {
    labels == [] ||
    var k := |labels| - 1;
    IsRun(plan, j, labels[..k]) && Enabled(plan, Exec(plan, j, labels[..k]), labels[k])
  }

  ghost function Exec(plan: Plan, j: Joint, labels: seq<Label>): Joint
    requires IsRun(plan, j, labels)
    decreases |labels|, 1
  {
    if labels == [] then j
    else
      var k := |labels| - 1;
      Apply(plan, Exec(plan, j, labels[..k]), labels[k])
  }

  // ---------------------------------------------------------------- the invariant

  /** The operations a chain has asked for, in order. */
  function Asks(log: seq<M.Event>): seq<(int, int)> {
    if log == [] then []
    else
      var k := |log| - 1;
      Asks(log[..k]) + if log[k].Asked? then [(log[k].req, log[k].acc)] else []
  }

  lemma AsksNext(log: seq<M.Event>, e: M.Event)
    ensures Asks(log + [e]) == Asks(log) + if e.Asked? then [(e.req, e.acc)] else []
  {
    assert (log + [e])[..|log|] == log;
  }

  /** The transfer `o` is what the operation asks for. */
  predicate AskedFor(plan: Plan, ops: seq<S.Op>, o: nat, ask: (int, int)) {
    o < |ops| && ops[o].req == plan(ask.0, ask.1).req && ops[o].fd == plan(ask.0, ask.1).fd
  }

  /** The transfer `o` has called back, and this is its result. */
  predicate Answered(ops: seq<S.Op>, o: nat, answer: int) {
    o < |ops| && S.Finished(ops[o]) && answer == AnswerOf(ops[o].final.value.outcome.value)
  }

  /** A chain has awaited one transfer for each operation it asked for; all have answered it, except the one
      it is suspended at. */
  ghost predicate ChainLinked(plan: Plan, ops: seq<S.Op>, ch: M.Chain, waits: seq<nat>) {
    && |waits| == |Asks(ch.log)| == |ch.answers| + (if ch.where.Suspended? then 1 else 0)
    && (forall i :: 0 <= i < |waits| ==> AskedFor(plan, ops, waits[i], Asks(ch.log)[i]))
    && (forall i :: 0 <= i < |ch.answers| ==> Answered(ops, waits[i], ch.answers[i]))
  }

  ghost predicate ChainsLinked(plan: Plan, j: Joint) {
    forall c :: 0 <= c < |j.co.chains| ==> ChainLinked(plan, j.io.ops, j.co.chains[c], WaitsOf(j, c))
  }

  /** No transfer is awaited twice, and only those that there are, which are `n`. */
  ghost predicate AwaitedOnce(waits: map<nat, seq<nat>>, n: nat) {
    && (forall c: nat, i: nat :: i < |WaitsIn(waits, c)| ==> WaitsIn(waits, c)[i] < n)
    && (forall c: nat, i: nat, d: nat, k: nat ::
          i < |WaitsIn(waits, c)| && k < |WaitsIn(waits, d)| && WaitsIn(waits, c)[i] == WaitsIn(waits, d)[k] ==>
            c == d && i == k)
  }

  lemma OneMoreAwaited(waits: map<nat, seq<nat>>, n: nat, c: nat)
    requires AwaitedOnce(waits, n)
    ensures AwaitedOnce(waits[c := WaitsIn(waits, c) + [n]], n + 1)
  {
    var waits' := waits[c := WaitsIn(waits, c) + [n]];
    forall d: nat, i: nat | i < |WaitsIn(waits', d)|
      ensures WaitsIn(waits', d)[i] == if d == c && i == |WaitsIn(waits, c)| then n else WaitsIn(waits, d)[i]
      ensures !(d == c && i == |WaitsIn(waits, c)|) ==> i < |WaitsIn(waits, d)|
    {
      assert d == c || WaitsIn(waits', d) == WaitsIn(waits, d);
    }
    forall d: nat, i: nat | i < |WaitsIn(waits', d)|
      ensures WaitsIn(waits', d)[i] < n + 1
    {
    }
  }

  ghost predicate Inv(plan: Plan, j: Joint) {
    && A.SysInv(j.io) && MI.Inv(j.co)
    && ChainsLinked(plan, j) && AwaitedOnce(j.waits, |j.io.ops|)
    && forall c :: c in j.waits ==> c < |j.co.chains|
  }

  // ---------------------------------------------------------------- steps of the transfers

  /** A transfer stays what it is. */
  lemma SameTransfer(s: S.System, l: S.Label, o: nat)
    requires A.SysInv(s) && S.Enabled(s, l) && o < |s.ops|
    ensures var ops := S.Apply(s, l).ops;
            o < |ops| && ops[o].req == s.ops[o].req && ops[o].fd == s.ops[o].fd
            && (S.Finished(s.ops[o]) ==> ops[o] == s.ops[o])
  {
    F.StepEnds(s, l, o);
    match l {
      case Begin(_, _, _) => case Poke(_, _) => case Seek(_, _) =>
      case Step(e) => SameRequest(s, e, o);
    }
  }

  ghost predicate SameAsk(ops: seq<S.Op>, ops': seq<S.Op>, o: nat) {
    o < |ops| && o < |ops'| && ops'[o].req == ops[o].req && ops'[o].fd == ops[o].fd
  }

  lemma SameRequest(s: S.System, e: S.E.Label, o: nat)
    requires A.SysInv(s) && S.StepEnabled(s, e) && o < |s.ops|
    ensures SameAsk(s.ops, S.ApplyStep(s, e).ops, o)
  {
    match e {
      case Call(_, _) =>
      case Inside(a, c) =>
        if c.GetSqe? {
          SameAfterGetSqe(s, a, o);
        }
      case Complete(t, r) => SameAfterComplete(s, t, r, o);
      case Loop(c) =>
        if c.Invoke? {
          SameAfterInvoke(s, o);
        }
    }
  }

  lemma SameAfterGetSqe(s: S.System, a: S.E.Actor, o: nat)
    requires S.StepEnabled(s, S.E.Inside(a, S.E.GetSqe)) && o < |s.ops|
    ensures SameAsk(s.ops, S.ApplyGetSqe(s, a).ops, o)
  {
  }

  lemma SameAfterComplete(s: S.System, t: S.E.Token, r: Reply, o: nat)
    requires S.StepEnabled(s, S.E.Complete(t, r)) && o < |s.ops|
    ensures SameAsk(s.ops, S.ApplyComplete(s, t, r).ops, o)
  {
  }

  lemma SameAfterInvoke(s: S.System, o: nat)
    requires A.SysInv(s) && S.StepEnabled(s, S.E.Loop(S.E.Invoke)) && o < |s.ops|
    ensures SameAsk(s.ops, S.ApplyInvoke(s).ops, o)
  {
    var who := S.CallbackOf(Some(s.loop.batch.pending[0].cb));
    if who.Some? {
      A.InvokeMeets(s, who.value);
      R.DigestedStands(s.world, s.ops[who.value]);
      SameAfterOwnInvoke(s, who.value, o);
    }
  }

  lemma SameAfterOwnInvoke(s: S.System, p: nat, o: nat)
    requires S.StepEnabled(s, S.E.Loop(S.E.Invoke)) && o < |s.ops| && p < |s.ops|
    requires S.CallbackOf(Some(s.loop.batch.pending[0].cb)) == Some(p)
    requires var q := T.Digest(s.ops[p].req, S.Snapshot(s.world, s.ops[p]), s.loop.batch.pending[0].res);
             S.Active(s.ops[p]) && (q.outcome.None? ==> q.calls != [])
    ensures SameAsk(s.ops, S.ApplyInvoke(s).ops, o)
  {
    A.InvokeGives(s, p);
  }

  lemma LinkedStays(plan: Plan, ops: seq<S.Op>, ops': seq<S.Op>, ch: M.Chain, waits: seq<nat>)
    requires ChainLinked(plan, ops, ch, waits) && |ops| <= |ops'|
    requires forall o :: 0 <= o < |ops| ==>
               && ops'[o].req == ops[o].req && ops'[o].fd == ops[o].fd
               && (S.Finished(ops[o]) ==> ops'[o] == ops[o])
    ensures ChainLinked(plan, ops', ch, waits)
  {
    forall i | 0 <= i < |waits|
      ensures AskedFor(plan, ops', waits[i], Asks(ch.log)[i])
    {
      assert AskedFor(plan, ops, waits[i], Asks(ch.log)[i]);
    }
    forall i | 0 <= i < |ch.answers|
      ensures Answered(ops', waits[i], ch.answers[i])
    {
      assert Answered(ops, waits[i], ch.answers[i]);
    }
  }

  lemma TransfersStay(s: S.System, l: S.Label)
    requires A.SysInv(s) && S.Enabled(s, l)
    ensures var ops := S.Apply(s, l).ops;
            && |s.ops| <= |ops|
            && forall o :: 0 <= o < |s.ops| ==>
                 && ops[o].req == s.ops[o].req && ops[o].fd == s.ops[o].fd
                 && (S.Finished(s.ops[o]) ==> ops[o] == s.ops[o])
  {
    var ops := S.Apply(s, l).ops;
    F.OpsGrow(s, l);
    forall o | 0 <= o < |s.ops|
      ensures ops[o].req == s.ops[o].req && ops[o].fd == s.ops[o].fd && (S.Finished(s.ops[o]) ==> ops[o] == s.ops[o])
    {
      SameTransfer(s, l, o);
    }
  }

  lemma IoKeeps(plan: Plan, j: Joint, l: S.Label)
    requires Inv(plan, j) && S.Enabled(j.io, l)
    ensures Inv(plan, j.(io := S.Apply(j.io, l)))
  {
    var j' := j.(io := S.Apply(j.io, l));
    A.AnyStepKeeps(j.io, l);
    TransfersStay(j.io, l);
    forall c | 0 <= c < |j'.co.chains|
      ensures ChainLinked(plan, j'.io.ops, j'.co.chains[c], WaitsOf(j', c))
    {
      LinkedStays(plan, j.io.ops, j'.io.ops, j.co.chains[c], WaitsOf(j, c));
    }
  }

  // ---------------------------------------------------------------- steps of the coroutines

  /** What a step that does not await an operation leaves of a chain. */
  ghost predicate SameIo(ch: M.Chain, ch': M.Chain) {
    ch'.answers == ch.answers && (ch'.where.Suspended? <==> ch.where.Suspended?) && Asks(ch'.log) == Asks(ch.log)
  }

  lemma RunningSameIo(m: M.Machine, c: nat, f: M.Id, d: nat)
    requires c < |m.chains| && d < |m.chains| && m.chains[c].where == M.Running(f) && M.CanRun(m, f)
    requires !m.frames[f].code.AwaitIo?
    ensures var m' := M.StepRunning(m, c, f); |m.chains| <= |m'.chains| && SameIo(m.chains[d], m'.chains[d])
  {
    var fr := m.frames[f];
    match fr.code {
      case Emit(t, _) => AsksNext(m.chains[c].log, M.Emitted(t, fr.acc));
      case Spawn(child, _) => AsksNext(m.chains[c].log, M.Spawned(child, fr.acc));
      case Await(child, _) => AsksNext(m.chains[c].log, M.Created(child, fr.acc));
      case Drop(child, _) => AsksNext(m.chains[c].log, M.Created(child, fr.acc));
      case Ret => case Compute(_, _) => case Branch(_, _) =>
    }
  }

  lemma CoSameIo(m: M.Machine, l: M.Label, d: nat)
    requires M.Enabled(m, l) && !l.Deliver? && (l.Advance? ==> !AtAwait(m, l.c)) && d < |m.chains|
    ensures |m.chains| <= |M.Apply(m, l).chains| && SameIo(m.chains[d], M.Apply(m, l).chains[d])
  {
    if l.Advance? && m.chains[l.c].where.Running? {
      RunningSameIo(m, l.c, m.chains[l.c].where.id, d);
    }
  }

  lemma NewIsBlank(m: M.Machine, l: M.Label, d: nat)
    requires M.Enabled(m, l) && |m.chains| <= d < |M.Apply(m, l).chains|
    ensures var ch := M.Apply(m, l).chains[d]; ch.answers == [] && ch.log == [] && !ch.where.Suspended?
  {
  }

  lemma CoKeeps(plan: Plan, j: Joint, l: M.Label)
    requires Inv(plan, j) && Enabled(plan, j, Co(l))
    ensures Inv(plan, Apply(plan, j, Co(l)))
  {
    var j' := Apply(plan, j, Co(l));
    MI.StepKeeps(j.co, l);
    forall c | 0 <= c < |j'.co.chains|
      ensures ChainLinked(plan, j'.io.ops, j'.co.chains[c], WaitsOf(j', c))
    {
      if c < |j.co.chains| {
        CoSameIo(j.co, l, c);
        assert ChainLinked(plan, j.io.ops, j.co.chains[c], WaitsOf(j, c));
      } else {
        NewIsBlank(j.co, l, c);
      }
    }
    ChainsOnlyGrow(j.co, l);
  }

  lemma ChainsOnlyGrow(m: M.Machine, l: M.Label)
    requires M.Enabled(m, l)
    ensures |m.chains| <= |M.Apply(m, l).chains|
  {
  }

  // ---------------------------------------------------------------- suspending and resuming

  lemma SuspendedChain(m: M.Machine, c: nat, d: nat)
    requires AtAwait(m, c) && M.Enabled(m, M.Advance(c)) && d < |m.chains|
    ensures var m', fr := M.Apply(m, M.Advance(c)), m.frames[m.chains[c].where.id];
            && |m'.chains| == |m.chains|
            && (d != c ==> m'.chains[d] == m.chains[d])
            && m'.chains[c].where.Suspended? && m'.chains[c].answers == m.chains[c].answers
            && m'.chains[c].log == m.chains[c].log + [M.Asked(fr.code.req, fr.acc)]
  {
  }

  lemma BegunOp(s: S.System, a: S.E.Actor, req: T.Request, fd: nat)
    requires S.BeginEnabled(s, a, req, fd)
    ensures var ops := S.ApplyBegin(s, a, req, fd).ops;
            |ops| == |s.ops| + 1 && ops[|s.ops|].req == req && ops[|s.ops|].fd == fd
  {
  }

  lemma SuspendLinks(plan: Plan, j: Joint, c: nat, a: nat)
    requires A.SysInv(j.io) && ChainsLinked(plan, j) && Enabled(plan, j, Suspend(c, a))
    ensures ChainsLinked(plan, Apply(plan, j, Suspend(c, a)))
  {
    var j', w := Apply(plan, j, Suspend(c, a)), AwaitOf(plan, j.co, c);
    TransfersStay(j.io, S.Begin(a, w.req, w.fd));
    forall d | 0 <= d < |j'.co.chains|
      ensures ChainLinked(plan, j'.io.ops, j'.co.chains[d], WaitsOf(j', d))
    {
      SuspendedChain(j.co, c, d);
      LinkedStays(plan, j.io.ops, j'.io.ops, j.co.chains[d], WaitsOf(j, d));
      if d == c {
        BegunOp(j.io, a, w.req, w.fd);
        SuspendedLinked(plan, j'.io.ops, j.co, c, WaitsOf(j, c), |j.io.ops|);
      }
    }
  }

  lemma SuspendedLinked(plan: Plan, ops: seq<S.Op>, m: M.Machine, c: nat, waits: seq<nat>, o: nat)
    requires AtAwait(m, c) && M.Enabled(m, M.Advance(c)) && ChainLinked(plan, ops, m.chains[c], waits)
    requires o < |ops| && ops[o].req == AwaitOf(plan, m, c).req && ops[o].fd == AwaitOf(plan, m, c).fd
    ensures c < |M.Apply(m, M.Advance(c)).chains|
    ensures ChainLinked(plan, ops, M.Apply(m, M.Advance(c)).chains[c], waits + [o])
  {
    SuspendedChain(m, c, c);
    var fr := m.frames[m.chains[c].where.id];
    AsksNext(m.chains[c].log, M.Asked(fr.code.req, fr.acc));
    OneMoreAsked(plan, ops, m.chains[c], M.Apply(m, M.Advance(c)).chains[c], waits, o, (fr.code.req, fr.acc));
  }

  lemma OneMoreAsked(plan: Plan, ops: seq<S.Op>, ch: M.Chain, ch': M.Chain, waits: seq<nat>, o: nat, ask: (int, int))
    requires ChainLinked(plan, ops, ch, waits) && !ch.where.Suspended? && AskedFor(plan, ops, o, ask)
    requires ch'.where.Suspended? && ch'.answers == ch.answers && Asks(ch'.log) == Asks(ch.log) + [ask]
    ensures ChainLinked(plan, ops, ch', waits + [o])
  {
    var waits' := waits + [o];
    forall i | 0 <= i < |waits'|
      ensures AskedFor(plan, ops, waits'[i], Asks(ch'.log)[i])
    {
      if i < |waits| {
        assert AskedFor(plan, ops, waits[i], Asks(ch.log)[i]);
      }
    }
    forall i | 0 <= i < |ch'.answers|
      ensures Answered(ops, waits'[i], ch'.answers[i])
    {
      assert Answered(ops, waits[i], ch.answers[i]);
    }
  }

  lemma SuspendKeeps(plan: Plan, j: Joint, c: nat, a: nat)
    requires Inv(plan, j) && Enabled(plan, j, Suspend(c, a))
    ensures Inv(plan, Apply(plan, j, Suspend(c, a)))
  {
    var w := AwaitOf(plan, j.co, c);
    A.AnyStepKeeps(j.io, S.Begin(a, w.req, w.fd));
    MI.StepKeeps(j.co, M.Advance(c));
    SuspendLinks(plan, j, c, a);
    BegunOp(j.io, a, w.req, w.fd);
    OneMoreAwaited(j.waits, |j.io.ops|, c);
    ChainsOnlyGrow(j.co, M.Advance(c));
  }

  lemma ResumedChain(m: M.Machine, c: nat, v: int, d: nat)
    requires M.Enabled(m, M.Deliver(c, v)) && d < |m.chains|
    ensures var m' := M.Apply(m, M.Deliver(c, v));
            && |m'.chains| == |m.chains|
            && (d != c ==> m'.chains[d] == m.chains[d])
            && m'.chains[c].where.Running? && m'.chains[c].answers == m.chains[c].answers + [v]
            && m'.chains[c].log == m.chains[c].log
  {
  }

  lemma OneMoreAnswered(plan: Plan, ops: seq<S.Op>, ch: M.Chain, ch': M.Chain, waits: seq<nat>, v: int)
    requires ChainLinked(plan, ops, ch, waits) && ch.where.Suspended? && Answered(ops, waits[|waits| - 1], v)
    requires !ch'.where.Suspended? && ch'.answers == ch.answers + [v] && ch'.log == ch.log
    ensures ChainLinked(plan, ops, ch', waits)
  {
    forall i | 0 <= i < |ch'.answers|
      ensures Answered(ops, waits[i], ch'.answers[i])
    {
      if i < |ch.answers| {
        assert Answered(ops, waits[i], ch.answers[i]);
      }
    }
  }

  lemma ResumeLinks(plan: Plan, j: Joint, c: nat, k: nat)
    requires A.SysInv(j.io) && ChainsLinked(plan, j) && Enabled(plan, j, Resume(c, k))
    ensures ChainsLinked(plan, Apply(plan, j, Resume(c, k)))
  {
    var j', v := Apply(plan, j, Resume(c, k)), AnswerOf(j.io.completions[k].1);
    assert A.Entry(j.io.ops, j.io.completions[k]);
    forall d | 0 <= d < |j'.co.chains|
      ensures ChainLinked(plan, j'.io.ops, j'.co.chains[d], WaitsOf(j', d))
    {
      ResumedChain(j.co, c, v, d);
      assert ChainLinked(plan, j.io.ops, j.co.chains[d], WaitsOf(j, d));
      if d == c {
        OneMoreAnswered(plan, j.io.ops, j.co.chains[c], j'.co.chains[c], WaitsOf(j, c), v);
      }
    }
  }

  lemma ResumeKeeps(plan: Plan, j: Joint, c: nat, k: nat)
    requires Inv(plan, j) && Enabled(plan, j, Resume(c, k))
    ensures Inv(plan, Apply(plan, j, Resume(c, k)))
  {
    MI.StepKeeps(j.co, M.Deliver(c, AnswerOf(j.io.completions[k].1)));
    ResumeLinks(plan, j, c, k);
    ChainsOnlyGrow(j.co, M.Deliver(c, AnswerOf(j.io.completions[k].1)));
  }

  lemma StepKeeps(plan: Plan, j: Joint, l: Label)
    requires Inv(plan, j) && Enabled(plan, j, l)
    ensures Inv(plan, Apply(plan, j, l))
  {
    match l {
      case Io(io) => IoKeeps(plan, j, io);
      case Co(co) => CoKeeps(plan, j, co);
      case Suspend(c, a) => SuspendKeeps(plan, j, c, a);
      case Resume(c, k) => ResumeKeeps(plan, j, c, k);
    }
  }

  lemma {:induction false} RunKeeps(plan: Plan, j: Joint, labels: seq<Label>)
    requires Init(j) && IsRun(plan, j, labels)
    ensures Inv(plan, Exec(plan, j, labels))
    decreases |labels|
  {
    if labels == [] {
      A.InitInv(j.io);
      MI.InitialInv();
    } else {
      var k := |labels| - 1;
      RunKeeps(plan, j, labels[..k]);
      StepKeeps(plan, Exec(plan, j, labels[..k]), labels[k]);
    }
  }

  // ---------------------------------------------------------------- the theorems

  /** The `i`-th answer of a chain is what the blocking transfer returns that its `i`-th operation asks for, after the
      replies the kernel gave to it: the number of bytes, or the error with a minus sign. */
  ghost predicate AnsweredAsBlocking(plan: Plan, ops: seq<S.Op>, ch: M.Chain, waits: seq<nat>, i: nat) {
    && i < |ch.answers| && i < |waits| && i < |Asks(ch.log)| && waits[i] < |ops|
    && var op, ask := ops[waits[i]], Asks(ch.log)[i];
       && op.req == plan(ask.0, ask.1).req && op.fd == plan(ask.0, ask.1).fd
       && T.IsRun(op.req, op.start, op.replies)
       && var out := T.After(op.req, op.start, op.replies).outcome;
          match out
          case Some(Done(size)) => ch.answers[i] == size
          case Some(Failed(error)) => ch.answers[i] == -error
          case None => false
  }

  lemma AnswersAreBlocking(plan: Plan, j: Joint, c: nat, i: nat)
    requires Inv(plan, j) && c < |j.co.chains| && i < |j.co.chains[c].answers|
    ensures AnsweredAsBlocking(plan, j.io.ops, j.co.chains[c], WaitsOf(j, c), i)
  {
    var ch, waits := j.co.chains[c], WaitsOf(j, c);
    assert ChainLinked(plan, j.io.ops, ch, waits);
    assert AskedFor(plan, j.io.ops, waits[i], Asks(ch.log)[i]);
    assert Answered(j.io.ops, waits[i], ch.answers[i]);
    assert R.Stands(j.io.world, j.io.ops[waits[i]]);
  }

  /** For the errors the kernel gives, which are positive, a coroutine can tell all results apart. */
  lemma AnswersTellApart(out: T.Outcome, out': T.Outcome)
    requires out.Failed? ==> out.error > 0
    requires out'.Failed? ==> out'.error > 0
    requires AnswerOf(out) == AnswerOf(out')
    ensures out == out'
  {
  }

  /** Whatever the interleaving of chains, transfers, threads, the loop and the kernel: a chain that ran to its end
      gave its future the value, and had the effects, of the direct call in which each operation simply is the
      blocking transfer it asks for. */
  lemma AwaitingIsBlocking(plan: Plan, j0: Joint, labels: seq<Label>, c: nat)
    requires Init(j0) && IsRun(plan, j0, labels) && c < |Exec(plan, j0, labels).co.chains|
    requires Exec(plan, j0, labels).co.chains[c].where.Finished?
    ensures var j := Exec(plan, j0, labels);
            var ch := j.co.chains[c];
            && ch.promise.Some?
            && M.Direct(ch.code, ch.arg, ch.answers) == M.Done(ch.promise.value, ch.log, [])
            && forall i :: 0 <= i < |ch.answers| ==> AnsweredAsBlocking(plan, j.io.ops, ch, WaitsOf(j, c), i)
  {
    RunKeeps(plan, j0, labels);
    var j := Exec(plan, j0, labels);
    MT.EndedLikeDirect(j.co, c);
    forall i | 0 <= i < |j.co.chains[c].answers|
      ensures AnsweredAsBlocking(plan, j.io.ops, j.co.chains[c], WaitsOf(j, c), i)
    {
      AnswersAreBlocking(plan, j, c, i);
    }
  }

  /** A suspended chain can be resumed if and only if its transfer has called back; so one whose transfer was
      refused stays suspended for good. */
  lemma ResumedExactlyWhen(plan: Plan, j0: Joint, labels: seq<Label>, c: nat)
    requires Init(j0) && IsRun(plan, j0, labels) && c < |Exec(plan, j0, labels).co.chains|
    requires Exec(plan, j0, labels).co.chains[c].where.Suspended?
    ensures var j := Exec(plan, j0, labels);
            var waits := WaitsOf(j, c);
            && waits != [] && waits[|waits| - 1] < |j.io.ops|
            && ((exists k :: Enabled(plan, j, Resume(c, k))) <==> S.Finished(j.io.ops[waits[|waits| - 1]]))
  {
    RunKeeps(plan, j0, labels);
    CanResume(plan, Exec(plan, j0, labels), c);
  }

  lemma CanResume(plan: Plan, j: Joint, c: nat)
    requires Inv(plan, j) && c < |j.co.chains| && j.co.chains[c].where.Suspended?
    ensures var waits := WaitsOf(j, c);
            && waits != [] && waits[|waits| - 1] < |j.io.ops|
            && ((exists k :: Enabled(plan, j, Resume(c, k))) <==> S.Finished(j.io.ops[waits[|waits| - 1]]))
  {
    LastIsThere(plan, j, c);
    if S.Finished(j.io.ops[WaitsOf(j, c)[|WaitsOf(j, c)| - 1]]) {
      var k := ResumeExists(plan, j, c);
    }
    forall k: nat | Enabled(plan, j, Resume(c, k))
      ensures S.Finished(j.io.ops[WaitsOf(j, c)[|WaitsOf(j, c)| - 1]])
    {
      ResumeMeans(plan, j, c, k);
    }
  }

  lemma LastIsThere(plan: Plan, j: Joint, c: nat)
    requires ChainsLinked(plan, j) && c < |j.co.chains| && j.co.chains[c].where.Suspended?
    ensures var waits := WaitsOf(j, c); waits != [] && waits[|waits| - 1] < |j.io.ops|
  {
    var waits := WaitsOf(j, c);
    assert ChainLinked(plan, j.io.ops, j.co.chains[c], waits);
    assert AskedFor(plan, j.io.ops, waits[|waits| - 1], Asks(j.co.chains[c].log)[|waits| - 1]);
  }

  lemma ResumeMeans(plan: Plan, j: Joint, c: nat, k: nat)
    requires A.SysInv(j.io) && Enabled(plan, j, Resume(c, k))
    ensures var waits := WaitsOf(j, c);
            waits != [] && waits[|waits| - 1] < |j.io.ops| && S.Finished(j.io.ops[waits[|waits| - 1]])
  {
    assert A.Entry(j.io.ops, j.io.completions[k]);
  }

  lemma ResumeExists(plan: Plan, j: Joint, c: nat) returns (k: nat)
    requires A.SysInv(j.io) && MI.ChainsInv(j.co) && c < |j.co.chains| && j.co.chains[c].where.Suspended?
    requires var waits := WaitsOf(j, c);
             waits != [] && waits[|waits| - 1] < |j.io.ops| && S.Finished(j.io.ops[waits[|waits| - 1]])
    ensures Enabled(plan, j, Resume(c, k))
  {
    var o := WaitsOf(j, c)[|WaitsOf(j, c)| - 1];
    A.CallsBack(j.io, o);
    assert MI.ChainOk(j.co.frames, c, j.co.chains[c]);
    k :| 0 <= k < |j.io.completions| && j.io.completions[k].0 == o;
  }

  /** A callback resumes one chain, once: a completion that has answered a chain resumes none any more, and no
      completion can resume two. */
  lemma ResumesOnce(plan: Plan, j0: Joint, labels: seq<Label>, c: nat, i: nat, d: nat, k: nat)
    requires Init(j0) && IsRun(plan, j0, labels) && c < |Exec(plan, j0, labels).co.chains|
    requires i < |WaitsOf(Exec(plan, j0, labels), c)| && Enabled(plan, Exec(plan, j0, labels), Resume(d, k))
    requires Exec(plan, j0, labels).io.completions[k].0 == WaitsOf(Exec(plan, j0, labels), c)[i]
    ensures d == c && i == |Exec(plan, j0, labels).co.chains[c].answers|
  {
    RunKeeps(plan, j0, labels);
    var j := Exec(plan, j0, labels);
    assert ChainLinked(plan, j.io.ops, j.co.chains[d], WaitsOf(j, d));
  }
}
