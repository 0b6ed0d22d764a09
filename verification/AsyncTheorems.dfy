/** The main results about the composed system: over every run, for every interleaving of any
    number of transfers with each other, with other users of the event loop and with the kernel,
    each transfer does what the blocking loop does with the same replies, and calls back exactly
    once. */
module AsyncTheorems {
  import opened Buffers
  import opened Syscalls
  import T = Transfer
  import E = EventLoop
  import I = EventLoopInvariant
  import P = EventLoopTheorems
  import opened AsyncSystem
  import opened AsyncInvariant
  import opened AsyncRefinement

  // ---------------------------------------------------------------- the invariant

  function Ids(completions: seq<(nat, T.Outcome)>): set<nat> {
    set k | 0 <= k < |completions| :: completions[k].0
  }

  predicate Entry(ops: seq<Op>, c: (nat, T.Outcome)) {
    c.0 < |ops| && Finished(ops[c.0]) && ops[c.0].final.value.outcome == Some(c.1)
  }

  ghost predicate Entries(ops: seq<Op>, completions: seq<(nat, T.Outcome)>) {
    forall k :: 0 <= k < |completions| ==> Entry(ops, completions[k])
  }

  ghost predicate NoneTwice(completions: seq<(nat, T.Outcome)>) {
    forall j, k :: 0 <= j < k < |completions| ==> completions[j].0 != completions[k].0
  }

  /** Exactly the finished transfers have called back, each once and with its outcome. */
  ghost predicate Logged(ops: seq<Op>, completions: seq<(nat, T.Outcome)>) {
    && Entries(ops, completions)
    && NoneTwice(completions)
    && (forall o :: 0 <= o < |ops| && Finished(ops[o]) ==> o in Ids(completions))
  }

  ghost predicate SysInv(s: System) {
    && I.Inv(s.loop)
    && LinksInv(s.loop, s.ops)
    && AllStand(s.world, s.ops)
    && AllApart(s.ops)
    && Logged(s.ops, s.completions)
  }

  lemma InitInv(s: System)
    requires Init(s)
    ensures SysInv(s)
  {
    I.InitialInv();
  }

  /** The calls of the user callbacks once this transfer has moved on. */
  function LogOf(completions: seq<(nat, T.Outcome)>, o: nat, op: Op): seq<(nat, T.Outcome)> {
    if Finished(op) then completions + [(o, op.final.value.outcome.value)] else completions
  }

  /** One transfer begins or goes on, and perhaps calls back. */
  lemma LoggedUpdate(ops: seq<Op>, ops': seq<Op>, completions: seq<(nat, T.Outcome)>, o: nat)
    requires Logged(ops, completions) && |ops| <= |ops'| && o < |ops'| && (o < |ops| ==> Active(ops[o]))
    requires forall p :: 0 <= p < |ops'| && p != o ==> p < |ops| && ops'[p] == ops[p]
    ensures Logged(ops', LogOf(completions, o, ops'[o]))
  {
    forall k | 0 <= k < |completions|
      ensures completions[k].0 != o && Entry(ops', completions[k])
    {
      assert Entry(ops, completions[k]);
    }
    if Finished(ops'[o]) {
      EntriesSnoc(ops', completions, (o, ops'[o].final.value.outcome.value));
    }
  }

  lemma EntriesSnoc(ops: seq<Op>, completions: seq<(nat, T.Outcome)>, c: (nat, T.Outcome))
    requires Entries(ops, completions) && NoneTwice(completions) && Entry(ops, c)
    requires forall k :: 0 <= k < |completions| ==> completions[k].0 != c.0
    ensures Entries(ops, completions + [c]) && NoneTwice(completions + [c])
    ensures Ids(completions + [c]) == Ids(completions) + {c.0}
  {
    IdsSnoc(completions, c);
  }

  lemma LoggedMore(ops: seq<Op>, completions: seq<(nat, T.Outcome)>, o: nat, op: Op)
    requires Logged(ops, completions) && o < |ops| && Active(ops[o])
    ensures Logged(ops[o := op], LogOf(completions, o, op))
  {
    LoggedUpdate(ops, ops[o := op], completions, o);
  }

  lemma LoggedNew(ops: seq<Op>, completions: seq<(nat, T.Outcome)>, op: Op)
    requires Logged(ops, completions)
    ensures Logged(ops + [op], LogOf(completions, |ops|, op))
  {
    LoggedUpdate(ops, ops + [op], completions, |ops|);
  }

  lemma IdsSnoc(completions: seq<(nat, T.Outcome)>, c: (nat, T.Outcome))
    ensures Ids(completions + [c]) == Ids(completions) + {c.0}
  {
    var cs := completions + [c];
    assert cs[|completions|] == c;
    forall o | o in Ids(completions)
      ensures o in Ids(cs)
    {
      var k :| 0 <= k < |completions| && completions[k].0 == o;
      assert cs[k].0 == o;
    }
  }

  // ---------------------------------------------------------------- the other steps of the loop

  lemma InvokedArePosted(s: E.State)
    requires I.Inv(s)
    ensures I.InvokedToks(s.batch.invoked) <= E.Toks(s.rings.posted)
  {
    var posted, found, invoked := s.rings.posted, s.batch.found, s.batch.invoked;
    forall k | 0 <= k < |invoked|
      ensures invoked[k].tok in E.Toks(posted)
    {
      assert I.Selected(posted, found)[k] == invoked[k];
      var i := I.SelectedOrigin(posted, found, k);
      assert posted[i].tok in E.Toks(posted);
    }
  }

  lemma CallLinks(loop: E.State, ops: seq<Op>, a: E.Actor, c: E.ApiCall)
    requires LinksInv(loop, ops) && E.CallEnabled(loop, a, c)
    requires c.ApiAdd? ==> TransferOf(c.add.work).None? && CallbackOf(c.add.cb).None?
    requires c.ApiCancel? ==> c.victim in loop.rings.intent && CallbackOf(loop.rings.intent[c.victim].cb).None?
    ensures LinksInv(E.ApplyCall(loop, a, c), ops)
  {
    var done := I.InvokedToks(loop.batch.invoked);
    match c {
      case ApiAdd(add) => LinksGoto(ops, loop.threads.calls, loop.rings, done, a, E.AddWantSub(add));
      case ApiCancel(t) => LinksGoto(ops, loop.threads.calls, loop.rings, done, a, E.CancelWantCb(t));
      case ApiExit(_) => case ApiWake =>
    }
  }

  lemma InsideLinks(loop: E.State, ops: seq<Op>, a: E.Actor, c: E.CallStep)
    requires I.Inv(loop) && LinksInv(loop, ops) && E.InsideEnabled(loop, a, c)
    requires c.GetSqe? ==> TransferOf(E.PcOf(loop, a).add.work).None?
    ensures LinksInv(E.ApplyInside(loop, a, c), ops)
  {
    var loop' := E.ApplyInside(loop, a, c);
    var done := I.InvokedToks(loop.batch.invoked);
    var pc' := E.PcOf(loop', a);
    I.InsideLocksFrame(loop, a, c);
    assert PcLinked(E.PcAt(loop.threads.calls, a), a, ops, loop.rings.intent);
    SamePending(loop, ops, a, c);
    LinksGoto(ops, loop.threads.calls, loop.rings, done, a, pc');
    if c.GetSqe? && |loop.rings.sq| < E.BATCH {
      LinksRings(ops, loop'.threads.calls, loop.rings, done, loop'.rings);
    }
  }

  lemma SamePending(loop: E.State, ops: seq<Op>, a: E.Actor, c: E.CallStep)
    requires PcLinked(E.PcOf(loop, a), a, ops, loop.rings.intent) && E.InsideEnabled(loop, a, c)
    requires c.GetSqe? ==> TransferOf(E.PcOf(loop, a).add.work).None?
    ensures var pc' := E.PcOf(E.ApplyInside(loop, a, c), a);
            && PendingFor(pc') == PendingFor(E.PcOf(loop, a))
            && PcLinked(pc', a, ops, loop.rings.intent)
  {
    match c {
      case LockSub => case LockCb => case GetSqe => case WakeLoop => case StoreCb =>
      case DropCb => case DropSub => case CancelLock => case Erase =>
    }
  }

  lemma LoopLinks(loop: E.State, ops: seq<Op>, c: E.LoopStep)
    requires I.Inv(loop) && LinksInv(loop, ops) && E.LoopEnabled(loop, c)
    requires c.Invoke? ==> CallbackOf(Some(loop.batch.pending[0].cb)).None?
    ensures LinksInv(E.ApplyLoop(loop, c), ops)
  {
    var loop', done := E.ApplyLoop(loop, c), I.InvokedToks(loop.batch.invoked);
    match c {
      case StartRun => case CheckExit => case RunLockSub => case WaitOk => case WaitFail(_) =>
      case Peek => case RunLockCb => case HarvestOne => case HarvestEnd => case UserReturn =>
      case WakerExit => case LoopAgain =>
      case Submit => LinksRings(ops, loop.threads.calls, loop.rings, done, loop'.rings);
      case WakerRead(fail) => WakerReadLinks(loop, ops, fail);
      case Invoke => InvokeOtherLinks(loop, ops);
    }
  }

  lemma WakerReadLinks(loop: E.State, ops: seq<Op>, fail: Option<int>)
    requires I.Inv(loop) && LinksInv(loop, ops) && E.LoopEnabled(loop, E.WakerRead(fail))
    ensures LinksInv(E.FireWaker(loop, fail), ops)
  {
    var loop', done := E.FireWaker(loop, fail), I.InvokedToks(loop.batch.invoked);
    if loop'.threads.loop.WakerAdd? {
      LinksGoto(ops, loop.threads.calls, loop.rings, done, E.RUN, E.PcOf(loop', E.RUN));
    }
  }

  lemma InvokeOtherLinks(loop: E.State, ops: seq<Op>)
    requires I.Inv(loop) && LinksInv(loop, ops) && loop.batch.pending != []
    requires CallbackOf(Some(loop.batch.pending[0].cb)).None?
    ensures LinksInv(E.InvokeHead(loop), ops)
  {
    var v, done := loop.batch.pending[0], I.InvokedToks(loop.batch.invoked);
    I.InvokedOnce(loop);
    I.InvokedSnoc(loop.batch.invoked, v);
    assert TokLinked(v.tok, loop.rings.intent[v.tok], ops, done);
    LinksInvokeOther(ops, loop.threads.calls, loop.rings, done, v.tok);
  }

  lemma PostLinks(loop: E.State, ops: seq<Op>, t: E.Token, r: Reply)
    requires LinksInv(loop, ops) && E.CompleteEnabled(loop, t, r)
    requires t in loop.rings.intent && TransferOf(loop.rings.intent[t].work).None?
    ensures LinksInv(loop.(rings := E.Post(loop.rings, t, r)), ops)
  {
    var done := I.InvokedToks(loop.batch.invoked);
    LinksRings(ops, loop.threads.calls, loop.rings, done, E.Post(loop.rings, t, r));
  }

  // ---------------------------------------------------------------- every step keeps it

  lemma BeginKeeps(s: System, a: E.Actor, req: T.Request, fd: nat)
    requires SysInv(s) && BeginEnabled(s, a, req, fd)
    ensures SysInv(ApplyBegin(s, a, req, fd))
  {
    var s', o := ApplyBegin(s, a, req, fd), |s.ops|;
    BegunStands(s.world, a, req, fd);
    var op := s'.ops[o];
    LinksBegin(s.ops, s.loop.threads.calls, s.loop.rings, I.InvokedToks(s.loop.batch.invoked), op, a);
    LoggedNew(s.ops, s.completions, op);
    if Active(op) {
      I.CallKeeps(s.loop, a, E.ApiAdd(AddFor(o)));
    }
    BeginApart(s, a, req, fd);
  }

  lemma BeginApart(s: System, a: E.Actor, req: T.Request, fd: nat)
    requires AllApart(s.ops) && BeginEnabled(s, a, req, fd)
    ensures AllApart(ApplyBegin(s, a, req, fd).ops)
  {
  }

  /** A transfer moves on; what it is does not change. */
  lemma ApartUpdate(ops: seq<Op>, o: nat, op: Op)
    requires AllApart(ops) && o < |ops| && Active(ops[o])
    requires op.req == ops[o].req && op.fd == ops[o].fd
    ensures AllApart(ops[o := op])
  {
    var ops' := ops[o := op];
    forall p, q | 0 <= p < |ops'| && 0 <= q < |ops'| && p != q && Active(ops'[p]) && Active(ops'[q])
      ensures Apart(ops'[p].req, ops'[p].fd, ops'[q].req, ops'[q].fd)
    {
      assert Apart(ops[p].req, ops[p].fd, ops[q].req, ops[q].fd);
    }
  }

  lemma GetSqeLinks(loop: E.State, ops: seq<Op>, a: E.Actor, o: nat)
    requires I.Inv(loop) && LinksInv(loop, ops)
    requires E.InsideEnabled(loop, a, E.GetSqe) && |loop.rings.sq| < E.BATCH
    requires TransferOf(E.PcOf(loop, a).add.work) == Some(o)
    ensures o < |ops| && Active(ops[o])
    ensures LinksInv(E.ApplyInside(loop, a, E.GetSqe), ops[o := ops[o].(token := Some(loop.rings.next))])
  {
    var loop' := E.ApplyInside(loop, a, E.GetSqe);
    assert PcLinked(E.PcAt(loop.threads.calls, a), a, ops, loop.rings.intent);
    I.InvokedIssued(loop);
    LinksQueue(ops, loop.threads.calls, loop.rings, I.InvokedToks(loop.batch.invoked), a, E.PcOf(loop', a), o);
  }

  lemma GetSqeKeeps(s: System, a: E.Actor)
    requires SysInv(s) && StepEnabled(s, E.Inside(a, E.GetSqe))
    ensures SysInv(ApplyGetSqe(s, a))
  {
    var who := TransferOf(E.PcOf(s.loop, a).add.work);
    I.InsideKeeps(s.loop, a, E.GetSqe);
    if who.None? {
      InsideLinks(s.loop, s.ops, a, E.GetSqe);
    } else if |s.loop.rings.sq| < E.BATCH {
      QueueKeeps(s, a, who.value);
    } else {
      RefuseKeeps(s, a, who.value);
    }
  }

  /** What is left to show when a transfer has asked for its SQE. */
  ghost predicate Kept(s: System, loop: E.State, ops: seq<Op>) {
    LinksInv(loop, ops) && AllStand(s.world, ops) && AllApart(ops) && Logged(ops, s.completions)
  }

  lemma QueueKeeps(s: System, a: E.Actor, o: nat)
    requires SysInv(s) && E.InsideEnabled(s.loop, a, E.GetSqe) && |s.loop.rings.sq| < E.BATCH
    requires TransferOf(E.PcOf(s.loop, a).add.work) == Some(o) && o < |s.ops| && OpInBounds(s.world, s.ops[o])
    ensures Kept(s, E.ApplyInside(s.loop, a, E.GetSqe), s.ops[o := Submitted(s.world, s.ops[o], s.loop.rings)])
  {
    GetSqeLinks(s.loop, s.ops, a, o);
    MovedOn(s, o, s.ops[o].(token := Some(s.loop.rings.next)));
    StandToken(s.world, s.ops, o, Some(s.loop.rings.next));
  }

  lemma RefuseLinks(loop: E.State, ops: seq<Op>, a: E.Actor, o: nat, op: Op)
    requires I.Inv(loop) && LinksInv(loop, ops) && E.InsideEnabled(loop, a, E.GetSqe) && |loop.rings.sq| >= E.BATCH
    requires TransferOf(E.PcOf(loop, a).add.work) == Some(o) && !Active(op)
    ensures o < |ops| && Active(ops[o]) && ops[o].inbox.None?
    ensures LinksInv(E.ApplyInside(loop, a, E.GetSqe), ops[o := op])
  {
    var loop', done := E.ApplyInside(loop, a, E.GetSqe), I.InvokedToks(loop.batch.invoked);
    assert PcLinked(E.PcAt(loop.threads.calls, a), a, ops, loop.rings.intent);
    assert OpLinked(ops[o], o, loop.threads.calls, loop.rings, done);
    LinksRefuse(ops, loop.threads.calls, loop.rings, done, a, E.PcOf(loop', a), o, op);
  }

  lemma RefuseKeeps(s: System, a: E.Actor, o: nat)
    requires SysInv(s) && E.InsideEnabled(s.loop, a, E.GetSqe) && |s.loop.rings.sq| >= E.BATCH
    requires TransferOf(E.PcOf(s.loop, a).add.work) == Some(o) && o < |s.ops| && OpInBounds(s.world, s.ops[o])
    ensures Kept(s, E.ApplyInside(s.loop, a, E.GetSqe), s.ops[o := Submitted(s.world, s.ops[o], s.loop.rings)])
  {
    var op' := s.ops[o].(final := Some(Snapshot(s.world, s.ops[o])));
    RefuseLinks(s.loop, s.ops, a, o, op');
    assert Stands(s.world, s.ops[o]);
    RefusedStands(s.world, s.ops[o]);
    MovedOn(s, o, op');
    StandUpdate(s.world, s.ops, o, op');
  }

  /** One transfer moves on in the same world. */
  lemma StandUpdate(w: World, ops: seq<Op>, o: nat, op: Op)
    requires AllStand(w, ops) && o < |ops| && Stands(w, op)
    ensures AllStand(w, ops[o := op])
  {
    var ops' := ops[o := op];
    forall p | 0 <= p < |ops'|
      ensures Stands(w, ops'[p])
    {
      assert Stands(w, ops[p]);
    }
  }

  lemma StandToken(w: World, ops: seq<Op>, o: nat, t: Option<E.Token>)
    requires AllStand(w, ops) && o < |ops|
    ensures AllStand(w, ops[o := ops[o].(token := t)])
  {
    assert Stands(w, ops[o]);
    TokenAside(w, ops[o], t);
    StandUpdate(w, ops, o, ops[o].(token := t));
  }

  lemma CompleteLinks(loop: E.State, ops: seq<Op>, t: E.Token, r: Reply, o: nat)
    requires I.Inv(loop) && LinksInv(loop, ops) && E.CompleteEnabled(loop, t, r)
    requires t in loop.rings.intent && TransferOf(loop.rings.intent[t].work) == Some(o)
    ensures o < |ops| && Active(ops[o]) && ops[o].inbox.None?
    ensures LinksInv(loop.(rings := E.Post(loop.rings, t, r)), ops[o := ops[o].(inbox := Some(r))])
  {
    InvokedArePosted(loop);
    LinksPost(ops, loop.threads.calls, loop.rings, I.InvokedToks(loop.batch.invoked), t, r, o);
  }

  lemma CompleteKeeps(s: System, t: E.Token, r: Reply)
    requires SysInv(s) && StepEnabled(s, E.Complete(t, r))
    ensures SysInv(ApplyComplete(s, t, r))
  {
    var who := TransferOf(s.loop.rings.intent[t].work);
    I.PostKeeps(s.loop, t, r);
    if who.None? {
      PostLinks(s.loop, s.ops, t, r);
    } else {
      var o := who.value;
      CompleteLinks(s.loop, s.ops, t, r, o);
      var op' := s.ops[o].(inbox := Some(r));
      LoggedMore(s.ops, s.completions, o, op');
      ApartUpdate(s.ops, o, op');
      CompleteAllStand(s.world, s.ops, o, r);
    }
  }

  /** The callback about to run belongs to a transfer that waits for it, and it is given the reply
      the kernel gave to that transfer. */
  lemma InvokeMeets(s: System, o: nat)
    requires SysInv(s) && E.LoopEnabled(s.loop, E.Invoke)
    requires CallbackOf(Some(s.loop.batch.pending[0].cb)) == Some(o)
    ensures var v := s.loop.batch.pending[0];
            && o < |s.ops| && Active(s.ops[o])
            && s.ops[o].token == Some(v.tok) && s.ops[o].inbox == Some(v.res)
            && Stands(s.world, s.ops[o])
  {
    var loop, v := s.loop, s.loop.batch.pending[0];
    I.InvokedOnce(loop);
    var k := |loop.batch.invoked|;
    assert (loop.batch.invoked + loop.batch.pending)[k] == v;
    var i := I.SelectedOrigin(loop.rings.posted, loop.batch.found, k);
    assert loop.rings.posted[i] == E.Cqe(v.tok, v.res);
    LinksInvoke(s.ops, loop.threads.calls, loop.rings, I.InvokedToks(loop.batch.invoked), v.tok, v.res, o);
  }

  lemma InvokeKeeps(s: System)
    requires SysInv(s) && StepEnabled(s, E.Loop(E.Invoke))
    ensures SysInv(ApplyInvoke(s))
  {
    var v := s.loop.batch.pending[0];
    var who := CallbackOf(Some(v.cb));
    I.StepKeeps(s.loop, E.Loop(E.Invoke));
    if who.None? {
      LoopLinks(s.loop, s.ops, E.Invoke);
    } else {
      InvokeMeets(s, who.value);
      InvokeWorld(s, who.value);
      InvokeLinks(s, who.value);
    }
  }

  lemma InvokeWorld(s: System, o: nat)
    requires SysInv(s) && StepEnabled(s, E.Loop(E.Invoke))
    requires CallbackOf(Some(s.loop.batch.pending[0].cb)) == Some(o)
    requires o < |s.ops| && Active(s.ops[o]) && s.ops[o].inbox == Some(s.loop.batch.pending[0].res)
    ensures var s' := ApplyInvoke(s);
            AllStand(s'.world, s'.ops) && AllApart(s'.ops) && Logged(s'.ops, s'.completions)
  {
    var op, r := s.ops[o], s.loop.batch.pending[0].res;
    assert Stands(s.world, op);
    var q := T.Digest(op.req, Snapshot(s.world, op), r);
    DigestAllStand(s.world, s.ops, o);
    InvokeGives(s, o);
    MovedOn(s, o, GoneOn(op, r, q));
  }

  lemma MovedOn(s: System, o: nat, op: Op)
    requires AllApart(s.ops) && Logged(s.ops, s.completions) && o < |s.ops| && Active(s.ops[o])
    requires op.req == s.ops[o].req && op.fd == s.ops[o].fd
    ensures AllApart(s.ops[o := op]) && Logged(s.ops[o := op], LogOf(s.completions, o, op))
  {
    LoggedMore(s.ops, s.completions, o, op);
    ApartUpdate(s.ops, o, op);
  }

  /** What an invocation does to the transfers, to the world and to the calls of the users. */
  lemma InvokeGives(s: System, o: nat)
    requires StepEnabled(s, E.Loop(E.Invoke)) && CallbackOf(Some(s.loop.batch.pending[0].cb)) == Some(o)
    requires var q := T.Digest(s.ops[o].req, Snapshot(s.world, s.ops[o]), s.loop.batch.pending[0].res);
             Active(s.ops[o]) && (q.outcome.None? ==> q.calls != [])
    ensures var r := s.loop.batch.pending[0].res;
            var q := T.Digest(s.ops[o].req, Snapshot(s.world, s.ops[o]), r);
            var s', op := ApplyInvoke(s), GoneOn(s.ops[o], r, q);
            && s'.ops == s.ops[o := op] && s'.world == Advanced(s.world, s.ops[o], q)
            && s'.completions == LogOf(s.completions, o, op)
  {
  }

  lemma DigestAllStand(w: World, ops: seq<Op>, o: nat)
    requires AllStand(w, ops) && AllApart(ops) && o < |ops| && Active(ops[o]) && ops[o].inbox.Some?
    requires OpInBounds(w, ops[o])
    ensures var q := T.Digest(ops[o].req, Snapshot(w, ops[o]), ops[o].inbox.value);
            && (q.outcome.None? ==> q.calls != [])
            && AllStand(Advanced(w, ops[o], q), ops[o := GoneOn(ops[o], ops[o].inbox.value, q)])
  {
    var op := ops[o];
    assert Stands(w, op);
    DigestedStands(w, op);
    var q := T.Digest(op.req, Snapshot(w, op), op.inbox.value);
    var w', ops' := Advanced(w, op, q), ops[o := GoneOn(op, op.inbox.value, q)];
    forall p | 0 <= p < |ops'|
      ensures Stands(w', ops'[p])
    {
      if p != o {
        assert Stands(w, ops[p]);
        assert Active(ops[p]) ==> ops[p].fd != op.fd;
        Undisturbed(w, w', ops[p]);
      }
    }
  }

  /** After the callback of a transfer ran, the RUN thread is in the user callback, or it is adding
      the next SQE from there. */
  lemma InvokeLoop(loop: E.State, o: nat)
    requires I.Inv(loop) && E.LoopEnabled(loop, E.Invoke)
    requires CallbackOf(Some(loop.batch.pending[0].cb)) == Some(o)
    ensures var mid := E.InvokeHead(loop);
            && I.Inv(mid) && E.PcOf(loop, E.RUN).Idle?
            && I.Inv(E.ApplyCall(mid, E.RUN, E.ApiAdd(AddFor(o))))
  {
    var mid := E.InvokeHead(loop);
    I.LoopKeeps(loop, E.Invoke);
    I.CallKeeps(mid, E.RUN, E.ApiAdd(AddFor(o)));
  }

  /** What an invocation does to the event loop and to the transfer it belongs to. */
  lemma InvokeShape(s: System, o: nat)
    requires StepEnabled(s, E.Loop(E.Invoke)) && CallbackOf(Some(s.loop.batch.pending[0].cb)) == Some(o)
    requires o < |s.ops| && Active(s.ops[o])
    ensures var s', mid := ApplyInvoke(s), E.InvokeHead(s.loop);
            && |s'.ops| == |s.ops| && s'.ops == s.ops[o := s'.ops[o]]
            && var op := s'.ops[o];
               && (Active(op) ==> op.token.None? && op.inbox.None? && op.adder == E.RUN)
               && s'.loop == if Active(op) then E.ApplyCall(mid, E.RUN, E.ApiAdd(AddFor(o))) else mid
  {
  }

  lemma InvokeLinks(s: System, o: nat)
    requires SysInv(s) && StepEnabled(s, E.Loop(E.Invoke))
    requires CallbackOf(Some(s.loop.batch.pending[0].cb)) == Some(o)
    requires o < |s.ops| && Active(s.ops[o]) && s.ops[o].token == Some(s.loop.batch.pending[0].tok)
    ensures var s' := ApplyInvoke(s);
            I.Inv(s'.loop) && LinksInv(s'.loop, s'.ops)
  {
    var op, loop := ApplyInvoke(s).ops[o], s.loop;
    InvokeShape(s, o);
    InvokeLoop(loop, o);
    InvokeRelinks(loop, s.ops, o, op);
  }

  lemma InvokeRelinks(loop: E.State, ops: seq<Op>, o: nat, op: Op)
    requires LinksInv(loop, ops) && loop.batch.pending != [] && E.PcOf(loop, E.RUN).Idle?
    requires !loop.batch.pending[0].cb.Waker?
    requires o < |ops| && Active(ops[o]) && ops[o].token == Some(loop.batch.pending[0].tok)
    requires Active(op) ==> op.token.None? && op.inbox.None? && op.adder == E.RUN
    ensures var mid := E.InvokeHead(loop);
            LinksInv(if Active(op) then E.ApplyCall(mid, E.RUN, E.ApiAdd(AddFor(o))) else mid, ops[o := op])
  {
    var v, done := loop.batch.pending[0], I.InvokedToks(loop.batch.invoked);
    I.InvokedSnoc(loop.batch.invoked, v);
    if Active(op) {
      LinksAgain(ops, loop.threads.calls, loop.rings, done, v.tok, o, op, E.RUN);
    } else {
      LinksFinish(ops, loop.threads.calls, loop.rings, done, v.tok, o, op);
    }
  }

  lemma StepKeeps(s: System, l: E.Label)
    requires SysInv(s) && StepEnabled(s, l)
    ensures SysInv(ApplyStep(s, l))
  {
    match l {
      case Complete(t, r) => CompleteKeeps(s, t, r);
      case Loop(c) =>
        if c.Invoke? {
          InvokeKeeps(s);
        } else {
          I.StepKeeps(s.loop, l);
          LoopLinks(s.loop, s.ops, c);
        }
      case Inside(a, c) =>
        if c.GetSqe? {
          GetSqeKeeps(s, a);
        } else {
          I.StepKeeps(s.loop, l);
          InsideLinks(s.loop, s.ops, a, c);
        }
      case Call(a, c) =>
        I.StepKeeps(s.loop, l);
        CallLinks(s.loop, s.ops, a, c);
    }
  }

  lemma UserKeeps(s: System, w: World)
    requires SysInv(s)
    requires |w.mem| == |s.world.mem| && |w.fds| == |s.world.fds|
    requires forall i :: 0 <= i < |w.fds| ==> w.fds[i].seekable == s.world.fds[i].seekable
    requires forall o :: 0 <= o < |s.ops| && Active(s.ops[o]) && OpInBounds(s.world, s.ops[o]) ==>
               && Gather(w.mem, Addrs(s.ops[o].req.bufs)) == Gather(s.world.mem, Addrs(s.ops[o].req.bufs))
               && w.fds[s.ops[o].fd] == s.world.fds[s.ops[o].fd]
    ensures SysInv(s.(world := w))
  {
    forall o | 0 <= o < |s.ops|
      ensures Stands(w, s.ops[o])
    {
      assert Stands(s.world, s.ops[o]);
      Undisturbed(s.world, w, s.ops[o]);
    }
  }

  lemma PokeKeeps(s: System, addr: nat, b: Byte)
    requires SysInv(s) && Enabled(s, Poke(addr, b))
    ensures SysInv(Apply(s, Poke(addr, b)))
  {
    var w := Apply(s, Poke(addr, b)).world;
    forall o | 0 <= o < |s.ops| && Active(s.ops[o]) && OpInBounds(s.world, s.ops[o])
      ensures Gather(w.mem, Addrs(s.ops[o].req.bufs)) == Gather(s.world.mem, Addrs(s.ops[o].req.bufs))
    {
      var flat := Addrs(s.ops[o].req.bufs);
      forall i | 0 <= i < |flat|
        ensures w.mem[flat[i]] == s.world.mem[flat[i]]
      {
        assert flat[i] in flat;
      }
    }
    UserKeeps(s, w);
  }

  lemma AnyStepKeeps(s: System, l: Label)
    requires SysInv(s) && Enabled(s, l)
    ensures SysInv(Apply(s, l))
  {
    match l {
      case Begin(a, req, fd) => BeginKeeps(s, a, req, fd);
      case Step(e) => StepKeeps(s, e);
      case Poke(addr, b) => PokeKeeps(s, addr, b);
      case Seek(fd, off) => UserKeeps(s, Apply(s, l).world);
    }
  }

  lemma {:induction false} RunKeeps(s: System, labels: seq<Label>)
    requires Init(s) && IsRun(s, labels)
    ensures SysInv(Exec(s, labels))
    decreases |labels|
  {
    if labels == [] {
      InitInv(s);
    } else {
      var k := |labels| - 1;
      RunKeeps(s, labels[..k]);
      AnyStepKeeps(Exec(s, labels[..k]), labels[k]);
    }
  }

  // ---------------------------------------------------------------- the theorems

  /** A transfer is where the blocking transfer is after the same replies: while it is in progress, its
      bytes, device, offset, count and syscalls are those of the blocking loop (with the bytes of a reply
      already moved that its callback has not seen yet); when it has ended, it left the same bytes,
      device and offset after the same syscalls, with the same result if it has called back, and without
      one if its last syscall was refused. */
  ghost predicate LikeSync(w: World, op: Op) {
    && T.IsRun(op.req, op.start, op.replies)
    && var x := T.After(op.req, op.start, op.replies);
       match op.final
       case Some(left) => left == x
       case None =>
         && x.outcome.None? && OpInBounds(w, op)
         && (op.inbox.Some? ==> T.Admissible(op.req, x, op.inbox.value))
         && Snapshot(w, op) == Here(op.req, x, op.inbox)
  }

  lemma StandsLikeSync(w: World, op: Op)
    requires Stands(w, op)
    ensures LikeSync(w, op)
  {
  }

  /** For every interleaving, each transfer is where the blocking transfer is. */
  lemma AsyncRefinesSync(s0: System, labels: seq<Label>, o: nat)
    requires Init(s0) && IsRun(s0, labels) && o < |Exec(s0, labels).ops|
    ensures LikeSync(Exec(s0, labels).world, Exec(s0, labels).ops[o])
  {
    RunKeeps(s0, labels);
    var s := Exec(s0, labels);
    assert Stands(s.world, s.ops[o]);
    StandsLikeSync(s.world, s.ops[o]);
  }

  /** A transfer has called back exactly once if it has finished, with the result of the blocking
      loop; before, and if a submission was refused, it has not called back at all. */
  ghost predicate CalledBack(op: Op, o: nat, completions: seq<(nat, T.Outcome)>) {
    && (Finished(op) <==> o in Ids(completions))
    && T.IsRun(op.req, op.start, op.replies)
    && forall k :: 0 <= k < |completions| && completions[k].0 == o ==>
         && T.After(op.req, op.start, op.replies).outcome == Some(completions[k].1)
         && forall j :: 0 <= j < |completions| && completions[j].0 == o ==> j == k
  }

  lemma CallsBack(s: System, o: nat)
    requires SysInv(s) && o < |s.ops|
    ensures CalledBack(s.ops[o], o, s.completions)
  {
    assert Stands(s.world, s.ops[o]);
    forall k | 0 <= k < |s.completions| && s.completions[k].0 == o
      ensures Finished(s.ops[o]) && s.ops[o].final.value.outcome == Some(s.completions[k].1)
    {
      assert Entry(s.ops, s.completions[k]);
    }
    if o in Ids(s.completions) {
      var k :| 0 <= k < |s.completions| && s.completions[k].0 == o;
    }
  }

  lemma CallsBackOnce(s0: System, labels: seq<Label>, o: nat)
    requires Init(s0) && IsRun(s0, labels) && o < |Exec(s0, labels).ops|
    ensures CalledBack(Exec(s0, labels).ops[o], o, Exec(s0, labels).completions)
  {
    RunKeeps(s0, labels);
    CallsBack(Exec(s0, labels), o);
  }

  lemma FewCalls(w: World, op: Op)
    requires Stands(w, op)
    ensures |op.calls| <= T.Size(op.req) + T.Stalls(op.req, op.replies) + 1
  {
    T.SyscallBound(op.req, op.start, op.replies);
  }

  /** The number of syscalls of a transfer: at most the size of its buffers plus one, plus the zero
      counts a write was answered with. */
  lemma FewSyscalls(s0: System, labels: seq<Label>, o: nat)
    requires Init(s0) && IsRun(s0, labels) && o < |Exec(s0, labels).ops|
    ensures var op := Exec(s0, labels).ops[o];
            |op.calls| <= T.Size(op.req) + T.Stalls(op.req, op.replies) + 1
  {
    RunKeeps(s0, labels);
    var s := Exec(s0, labels);
    assert Stands(s.world, s.ops[o]);
    FewCalls(s.world, s.ops[o]);
  }

  /** The local state of a transfer is the same before and after a step, except that the step may end it by
      refusing its SQE. */
  predicate Rests(op: Op, ops: seq<Op>, o: nat) {
    && o < |ops|
    && op.iov == ops[o].iov && op.calls == ops[o].calls && op.done == ops[o].done
    && (op.final == ops[o].final || Refused(ops[o]))
  }

  lemma InvokeRests(s: System, o: nat)
    requires SysInv(s) && StepEnabled(s, E.Loop(E.Invoke)) && o < |s.ops|
    requires Active(s.ops[o]) && s.ops[o].inbox.None?
    ensures Rests(s.ops[o], ApplyInvoke(s).ops, o)
  {
    var who := CallbackOf(Some(s.loop.batch.pending[0].cb));
    if who.Some? {
      InvokeMeets(s, who.value);
      DigestedStands(s.world, s.ops[who.value]);
      InvokeGives(s, who.value);
    }
  }

  lemma CompleteRests(s: System, t: E.Token, r: Reply, o: nat)
    requires StepEnabled(s, E.Complete(t, r)) && o < |s.ops|
    ensures Rests(s.ops[o], ApplyComplete(s, t, r).ops, o)
  {
  }

  lemma GetSqeRests(s: System, a: E.Actor, o: nat)
    requires StepEnabled(s, E.Inside(a, E.GetSqe)) && o < |s.ops|
    ensures Rests(s.ops[o], ApplyGetSqe(s, a).ops, o)
  {
  }

  /** Only its own callback, with a reply to digest, changes the local state of a transfer. */
  lemma StepRests(s: System, e: E.Label, o: nat)
    requires SysInv(s) && StepEnabled(s, e) && o < |s.ops|
    requires Active(s.ops[o]) && s.ops[o].inbox.None?
    ensures Rests(s.ops[o], ApplyStep(s, e).ops, o)
  {
    match e {
      case Call(_, _) =>
      case Complete(t, r) => CompleteRests(s, t, r, o);
      case Inside(a, c) =>
        if c.GetSqe? {
          GetSqeRests(s, a, o);
        }
      case Loop(c) =>
        if c.Invoke? {
          InvokeRests(s, o);
        }
    }
  }

  lemma AnyRests(s: System, l: Label, o: nat)
    requires SysInv(s) && Enabled(s, l) && o < |s.ops|
    requires Active(s.ops[o]) && s.ops[o].inbox.None?
    ensures Rests(s.ops[o], Apply(s, l).ops, o)
  {
    match l {
      case Step(e) => StepRests(s, e, o);
      case Begin(a, req, fd) => BeginRests(s, a, req, fd, o);
      case Poke(_, _) =>
      case Seek(_, _) =>
    }
  }

  lemma BeginRests(s: System, a: E.Actor, req: T.Request, fd: nat, o: nat)
    requires BeginEnabled(s, a, req, fd) && o < |s.ops|
    ensures Rests(s.ops[o], ApplyBegin(s, a, req, fd).ops, o)
  {
  }

  /** The iovec array of a transfer is the one it submits or has submitted, and no step changes it. */
  ghost predicate Unwritten(s: System, o: nat)
    requires o < |s.ops|
  {
    var op := s.ops[o];
    && op.calls != [] && op.iov == op.calls[|op.calls| - 1].iov
    && forall l {:trigger Apply(s, l)} :: Enabled(s, l) ==> Rests(op, Apply(s, l).ops, o)
  }

  lemma IovecsRest(s: System, o: nat)
    requires SysInv(s) && o < |s.ops| && Active(s.ops[o]) && s.ops[o].inbox.None?
    ensures Unwritten(s, o)
  {
    assert Stands(s.world, s.ops[o]);
    forall l | Enabled(s, l)
      ensures Rests(s.ops[o], Apply(s, l).ops, o)
    {
      AnyRests(s, l, o);
    }
  }

  /** While its SQE is being added, queued or in flight, no step changes the iovec array of a
      transfer, its count or its syscalls; so the kernel finds the iovecs that were submitted. */
  lemma IovecsStayInFlight(s0: System, labels: seq<Label>, o: nat)
    requires Init(s0) && IsRun(s0, labels) && o < |Exec(s0, labels).ops|
    requires Active(Exec(s0, labels).ops[o]) && Exec(s0, labels).ops[o].inbox.None?
    ensures Unwritten(Exec(s0, labels), o)
  {
    RunKeeps(s0, labels);
    IovecsRest(Exec(s0, labels), o);
  }

  /** The places where the only SQE of a transfer in progress can be. */
  ghost predicate Whereabouts(s: System, o: nat)
    requires o < |s.ops|
  {
    var op, loop := s.ops[o], s.loop;
    match op.token
    case None => PendingFor(E.PcOf(loop, op.adder)) == Some(o)
    case Some(t) =>
      // queued or in flight, with its callback stored or about to be
      || ((t in loop.rings.sq || t in loop.rings.inflight)
            && (t in loop.table.callbacks || I.StoringTok(loop.threads) == Some(t)))
      // posted, with its callback still in the map
      || (t in loop.table.callbacks && loop.table.callbacks[t] == E.User(E.OfTransfer(o))
            && exists i :: loop.batch.head <= i < |loop.rings.posted| && loop.rings.posted[i].tok == t)
      // harvested, and waiting to be invoked with its reply
      || (op.inbox.Some? && E.Invocation(t, E.User(E.OfTransfer(o)), op.inbox.value) in loop.batch.pending)
  }

  /** A transfer in progress is never lost. */
  lemma NeverLost(s0: System, labels: seq<Label>, o: nat)
    requires Init(s0) && IsRun(s0, labels)
    requires o < |Exec(s0, labels).ops| && Active(Exec(s0, labels).ops[o])
    ensures Whereabouts(Exec(s0, labels), o)
  {
    RunKeeps(s0, labels);
    IsSomewhere(Exec(s0, labels), o);
  }

  lemma IsSomewhere(s: System, o: nat)
    requires SysInv(s) && o < |s.ops| && Active(s.ops[o])
    ensures Whereabouts(s, o)
  {
    var op, loop := s.ops[o], s.loop;
    assert OpLinked(op, o, loop.threads.calls, loop.rings, I.InvokedToks(loop.batch.invoked));
    if op.token.Some? {
      if op.inbox.None? {
        QueuedHasCallback(s, o);
      } else {
        PostedIsReachable(s, o);
      }
    }
  }

  /** An SQE of a transfer is queued, in flight or not harvested. */
  ghost predicate HasSqe(loop: E.State, o: nat) {
    exists t ::
      && t in loop.rings.intent && TransferOf(loop.rings.intent[t].work) == Some(o)
      && (P.At(loop, t, P.Queued) || P.At(loop, t, P.InFlight) || P.At(loop, t, P.Posted))
  }

  /** Nothing is left to do for a transfer: no thread adds an SQE of it, none is queued, in flight or not
      harvested, and no callback of it waits to be invoked. The poll of the waker and all other users
      of the event loop do not matter. */
  ghost predicate NothingLeft(loop: E.State, o: nat) {
    && (forall a: E.Actor :: PendingFor(E.PcOf(loop, a)) != Some(o))
    && !HasSqe(loop, o)
    && (forall v :: v in loop.batch.pending ==> CallbackOf(Some(v.cb)) != Some(o))
  }

  /** Nothing is left to do for a transfer if and only if it has ended; and then it has called back, once and
      with the result of the blocking loop, unless its submission was refused. */
  lemma AllHaveCalledBack(s0: System, labels: seq<Label>, o: nat)
    requires Init(s0) && IsRun(s0, labels) && o < |Exec(s0, labels).ops|
    ensures NothingLeft(Exec(s0, labels).loop, o) <==> !Active(Exec(s0, labels).ops[o])
    ensures NothingLeft(Exec(s0, labels).loop, o) ==>
              (o in Ids(Exec(s0, labels).completions) <==> !Refused(Exec(s0, labels).ops[o]))
    ensures CalledBack(Exec(s0, labels).ops[o], o, Exec(s0, labels).completions)
  {
    RunKeeps(s0, labels);
    LeftWhileActive(Exec(s0, labels), o);
  }

  lemma LeftWhileActive(s: System, o: nat)
    requires SysInv(s) && o < |s.ops|
    ensures NothingLeft(s.loop, o) <==> !Active(s.ops[o])
    ensures NothingLeft(s.loop, o) ==> (o in Ids(s.completions) <==> !Refused(s.ops[o]))
    ensures CalledBack(s.ops[o], o, s.completions)
  {
    CallsBack(s, o);
    if Active(s.ops[o]) {
      SomethingLeft(s, o);
    } else {
      NoneAdds(s, o);
      NoneQueued(s, o);
      NonePending(s, o);
    }
  }

  lemma SomethingLeft(s: System, o: nat)
    requires SysInv(s) && o < |s.ops| && Active(s.ops[o])
    ensures !NothingLeft(s.loop, o)
  {
    var loop, op := s.loop, s.ops[o];
    IsSomewhere(s, o);
    assert OpLinked(op, o, loop.threads.calls, loop.rings, I.InvokedToks(loop.batch.invoked));
    if op.token.Some? && !HasSqe(loop, o) {
      var t := op.token.value;
      assert !(P.At(loop, t, P.Queued) || P.At(loop, t, P.InFlight) || P.At(loop, t, P.Posted));
    }
  }

  lemma NoneAdds(s: System, o: nat)
    requires SysInv(s) && o < |s.ops| && !Active(s.ops[o])
    ensures forall a: E.Actor :: PendingFor(E.PcOf(s.loop, a)) != Some(o)
  {
    forall a: E.Actor
      ensures PendingFor(E.PcOf(s.loop, a)) != Some(o)
    {
      assert PcLinked(E.PcAt(s.loop.threads.calls, a), a, s.ops, s.loop.rings.intent);
    }
  }

  lemma NoneQueued(s: System, o: nat)
    requires SysInv(s) && o < |s.ops| && !Active(s.ops[o])
    ensures !HasSqe(s.loop, o)
  {
    var loop := s.loop;
    forall t | t in loop.rings.intent && TransferOf(loop.rings.intent[t].work) == Some(o)
      ensures !P.At(loop, t, P.Queued) && !P.At(loop, t, P.InFlight) && !P.At(loop, t, P.Posted)
    {
      assert TokLinked(t, loop.rings.intent[t], s.ops, I.InvokedToks(loop.batch.invoked));
      InvokedIsHarvested(loop, t);
      P.InOnePlace(loop, t);
    }
  }

  lemma InvokedIsHarvested(loop: E.State, t: E.Token)
    requires I.Inv(loop) && t in I.InvokedToks(loop.batch.invoked)
    ensures P.At(loop, t, P.Harvested)
  {
    var k :| 0 <= k < |loop.batch.invoked| && loop.batch.invoked[k].tok == t;
    var i := P.InvokedFrom(loop, k);
    assert loop.rings.posted[i].tok == t;
  }

  lemma NonePending(s: System, o: nat)
    requires SysInv(s) && o < |s.ops| && !Active(s.ops[o])
    ensures forall v :: v in s.loop.batch.pending ==> CallbackOf(Some(v.cb)) != Some(o)
  {
    forall v | v in s.loop.batch.pending
      ensures CallbackOf(Some(v.cb)) != Some(o)
    {
      PendingIsNew(s.loop, v);
      assert TokLinked(v.tok, s.loop.rings.intent[v.tok], s.ops, I.InvokedToks(s.loop.batch.invoked));
    }
  }

  /** A callback on the list was not invoked, and it belongs to its token. */
  lemma PendingIsNew(loop: E.State, v: E.Invocation)
    requires I.Inv(loop) && v in loop.batch.pending
    ensures v.tok in loop.rings.intent && loop.rings.intent[v.tok].cb == Some(v.cb)
    ensures v.tok !in I.InvokedToks(loop.batch.invoked)
  {
    var posted, found, invoked := loop.rings.posted, loop.batch.found, loop.batch.invoked;
    var p :| 0 <= p < |loop.batch.pending| && loop.batch.pending[p] == v;
    var all := I.Selected(posted, found);
    assert all[|invoked| + p] == v;
    var i := I.SelectedOrigin(posted, found, |invoked| + p);
    assert I.FoundRight(loop.rings, found, loop.table.cancelled, i);
    forall k | 0 <= k < |invoked|
      ensures invoked[k].tok != v.tok
    {
      assert all[k] == invoked[k];
      var j := I.SelectedOrigin(posted, found, k);
      assert j != i;
    }
  }

  lemma QueuedHasCallback(s: System, o: nat)
    requires SysInv(s) && o < |s.ops| && Active(s.ops[o]) && s.ops[o].token.Some? && s.ops[o].inbox.None?
    ensures var t := s.ops[o].token.value;
            && (t in s.loop.rings.sq || t in s.loop.rings.inflight)
            && (t in s.loop.table.callbacks || I.StoringTok(s.loop.threads) == Some(t))
  {
    var loop, t := s.loop, s.ops[o].token.value;
    assert OpLinked(s.ops[o], o, loop.threads.calls, loop.rings, I.InvokedToks(loop.batch.invoked));
    I.HarvestedArePosted(loop.rings.posted, loop.batch.head);
    assert t !in loop.table.cancelled;
  }

  /** A completion that was harvested, with a callback that was not invoked yet, is on the list. */
  lemma HarvestedIsPending(loop: E.State, i: nat, v: E.Invocation)
    requires I.Inv(loop) && i < loop.batch.head && loop.batch.found[i] == Some(v.cb)
    requires loop.rings.posted[i] == E.Cqe(v.tok, v.res) && v.tok !in I.InvokedToks(loop.batch.invoked)
    ensures v in loop.batch.pending
  {
    var posted, found := loop.rings.posted, loop.batch.found;
    I.SelectedAt(posted, found, i);
    var k, n := |I.Selected(posted, found[..i])|, |loop.batch.invoked|;
    var all := loop.batch.invoked + loop.batch.pending;
    assert all[k] == v;
    forall j | 0 <= j < n
      ensures all[j].tok != v.tok
    {
      assert loop.batch.invoked[j].tok in I.InvokedToks(loop.batch.invoked);
    }
    assert all[k] == loop.batch.pending[k - n];
  }

  lemma PostedIsReachable(s: System, o: nat)
    requires SysInv(s) && o < |s.ops| && Active(s.ops[o]) && s.ops[o].token.Some? && s.ops[o].inbox.Some?
    ensures Whereabouts(s, o)
  {
    var loop, t, r := s.loop, s.ops[o].token.value, s.ops[o].inbox.value;
    var posted := loop.rings.posted;
    assert OpLinked(s.ops[o], o, loop.threads.calls, loop.rings, I.InvokedToks(loop.batch.invoked));
    assert t !in loop.table.cancelled;
    var i :| 0 <= i < |posted| && posted[i] == E.Cqe(t, r);
    if i < loop.batch.head {
      assert I.FoundRight(loop.rings, loop.batch.found, loop.table.cancelled, i);
      HarvestedIsPending(loop, i, E.Invocation(t, E.User(E.OfTransfer(o)), r));
    } else {
      UnharvestedHasCallback(loop, i);
    }
  }

  lemma UnharvestedHasCallback(loop: E.State, i: nat)
    requires I.Inv(loop) && loop.batch.head <= i < |loop.rings.posted|
    requires var t := loop.rings.posted[i].tok;
             t in loop.rings.intent && loop.rings.intent[t].cb.Some? && t !in loop.table.cancelled
    ensures var t := loop.rings.posted[i].tok;
            t in loop.table.callbacks && Some(loop.table.callbacks[t]) == loop.rings.intent[t].cb
  {
    var r, head := loop.rings, loop.batch.head;
    var t := r.posted[i].tok;
    assert t in E.Toks(r.posted);
    forall j | 0 <= j < head
      ensures r.posted[..head][j].tok != t
    {
    }
    if I.StoringTok(loop.threads).Some? {
      var a := loop.threads.sub.value;
      assert I.PcSane(E.PcAt(loop.threads.calls, a), a == E.RUN
             && loop.threads.loop.WakerAdd?, r, loop.table.callbacks);
    }
  }

  /** The steps that threads, the loop and the kernel decide on themselves. */
  predicate OwnStep(l: E.Label) {
    l.Inside? || l.Loop? || (l.Complete? && l.res.Fail?)
  }

  /** The composed system shuts out no step inside a call or of the loop, and every SQE in flight can at
      least be answered with an error. */
  lemma NothingShutOut(s0: System, labels: seq<Label>, l: E.Label)
    requires Init(s0) && IsRun(s0, labels)
    requires E.Enabled(Exec(s0, labels).loop, l) && OwnStep(l)
    ensures Enabled(Exec(s0, labels), Step(l))
  {
    RunKeeps(s0, labels);
    NotShutOut(Exec(s0, labels), l);
  }

  lemma NotShutOut(s: System, l: E.Label)
    requires SysInv(s) && E.Enabled(s.loop, l) && OwnStep(l)
    ensures StepEnabled(s, l)
  {
    match l {
      case Inside(a, c) =>
        if c.GetSqe? && PendingFor(E.PcOf(s.loop, a)).Some? {
          AdderIsActive(s, a);
        }
      case Loop(c) =>
        if c.Invoke? && CallbackOf(Some(s.loop.batch.pending[0].cb)).Some? {
          InvokeMeets(s, CallbackOf(Some(s.loop.batch.pending[0].cb)).value);
        }
      case Complete(t, r) => ErrorsPossible(s, t, r.error);
    }
  }

  /** Whatever the kernel may answer the blocking loop with, after the same replies, it may answer the SQE in flight
      with: no
      behaviour of the blocking loop is shut out. */
  lemma EveryReplyIsPossible(s0: System, labels: seq<Label>, o: nat, r: Reply)
    requires Init(s0) && IsRun(s0, labels) && o < |Exec(s0, labels).ops|
    requires var s, op := Exec(s0, labels), Exec(s0, labels).ops[o];
             && Active(op) && op.token.Some? && op.token.value in s.loop.rings.inflight
             && T.IsRun(op.req, op.start, op.replies)
             && T.Admissible(op.req, T.After(op.req, op.start, op.replies), r)
    ensures Enabled(Exec(s0, labels), Step(E.Complete(Exec(s0, labels).ops[o].token.value, r)))
  {
    RunKeeps(s0, labels);
    ReplyIsPossible(Exec(s0, labels), o, r);
  }

  lemma ReplyIsPossible(s: System, o: nat, r: Reply)
    requires SysInv(s) && o < |s.ops| && Active(s.ops[o])
    requires s.ops[o].token.Some? && s.ops[o].token.value in s.loop.rings.inflight
    requires var op := s.ops[o];
             T.IsRun(op.req, op.start, op.replies) && T.Admissible(op.req, T.After(op.req, op.start, op.replies), r)
    ensures StepEnabled(s, E.Complete(s.ops[o].token.value, r))
  {
    var op, t := s.ops[o], s.ops[o].token.value;
    assert OpLinked(op, o, s.loop.threads.calls, s.loop.rings, I.InvokedToks(s.loop.batch.invoked));
    assert Stands(s.world, op);
    CompleteLinks(s.loop, s.ops, t, Fail(0), o);
    AnythingIsPossible(s.world, op, T.After(op.req, op.start, op.replies), r);
  }

  lemma AdderIsActive(s: System, a: E.Actor)
    requires SysInv(s) && PendingFor(E.PcOf(s.loop, a)).Some?
    ensures var o := PendingFor(E.PcOf(s.loop, a)).value;
            o < |s.ops| && Active(s.ops[o]) && s.ops[o].inbox.None? && OpInBounds(s.world, s.ops[o])
  {
    var loop := s.loop;
    assert PcLinked(E.PcAt(loop.threads.calls, a), a, s.ops, loop.rings.intent);
    var o := PendingFor(E.PcOf(loop, a)).value;
    assert OpLinked(s.ops[o], o, loop.threads.calls, loop.rings, I.InvokedToks(loop.batch.invoked));
    assert Stands(s.world, s.ops[o]);
  }

  lemma ErrorsPossible(s: System, t: E.Token, e: int)
    requires SysInv(s) && E.CompleteEnabled(s.loop, t, Fail(e))
    ensures StepEnabled(s, E.Complete(t, Fail(e)))
  {
    var who := TransferOf(s.loop.rings.intent[t].work);
    if who.Some? {
      CompleteLinks(s.loop, s.ops, t, Fail(e), who.value);
      assert Stands(s.world, s.ops[who.value]);
    }
  }
}
