/** What every step of the composed system keeps: how the transfers are linked to the tokens of the
    event loop, and that each of them is where the blocking loop would be after the same
    replies. */
module AsyncInvariant {
  import opened Buffers
  import opened Syscalls
  import E = EventLoop
  import I = EventLoopInvariant
  import opened AsyncSystem

  // ---------------------------------------------------------------- links

  predicate Adding(pc: E.Pc) {
    pc.AddWantSub? || pc.AddWantCb? || pc.AddGet?
  }

  /** The transfer whose SQE a thread is about to queue. */
  function PendingFor(pc: E.Pc): Option<nat> {
    if Adding(pc) then TransferOf(pc.add.work) else None
  }

  /** A transfer in progress has exactly one SQE: being added, queued or in flight, or posted
      with the reply in its inbox; and its callback has not run for it. */
  predicate OpLinked(op: Op, o: nat, calls: map<E.Actor, E.Pc>, r: E.Rings, done: set<E.Token>) {
    if op.token.None? then
      op.inbox.None? && PendingFor(E.PcAt(calls, op.adder)) == Some(o)
    else
      var t := op.token.value;
      && t in r.intent && r.intent[t] == AddFor(o) && t !in done
      && (op.inbox.None? ==> t in r.sq || t in r.inflight)
      && (op.inbox.Some? ==> E.Cqe(t, op.inbox.value) in r.posted)
  }

  /** A thread adds SQEs of transfers only on behalf of one that waits for it. */
  predicate PcLinked(pc: E.Pc, a: E.Actor, ops: seq<Op>, intent: map<E.Token, E.Add>) {
    && (Adding(pc) ==>
          match TransferOf(pc.add.work)
          case None => CallbackOf(pc.add.cb).None?
          case Some(o) =>
            && pc.add == AddFor(o)
            && o < |ops| && Active(ops[o]) && ops[o].token.None? && ops[o].adder == a)
    && (pc.CancelWantCb? || pc.CancelErase? ==>
          pc.victim in intent && CallbackOf(intent[pc.victim].cb).None?)
  }

  /** A token with the SQE of a transfer has been invoked, or it is the token that transfer
      waits for. */
  predicate TokLinked(t: E.Token, add: E.Add, ops: seq<Op>, done: set<E.Token>) {
    match TransferOf(add.work)
    case None => CallbackOf(add.cb).None?
    case Some(o) =>
      && add == AddFor(o) && o < |ops|
      && (t in done || (Active(ops[o]) && ops[o].token == Some(t)))
  }

  ghost predicate OpsLinked(ops: seq<Op>, calls: map<E.Actor, E.Pc>, r: E.Rings, done: set<E.Token>) {
    forall o :: 0 <= o < |ops| && Active(ops[o]) ==> OpLinked(ops[o], o, calls, r, done)
  }

  ghost predicate PcsLinked(calls: map<E.Actor, E.Pc>, ops: seq<Op>, intent: map<E.Token, E.Add>) {
    forall a: E.Actor :: PcLinked(E.PcAt(calls, a), a, ops, intent)
  }

  ghost predicate ToksLinked(intent: map<E.Token, E.Add>, ops: seq<Op>, done: set<E.Token>) {
    forall t :: t in intent ==> TokLinked(t, intent[t], ops, done)
  }

  ghost predicate NoneCancelled(cancelled: set<E.Token>, intent: map<E.Token, E.Add>) {
    forall t :: t in cancelled ==> t in intent && CallbackOf(intent[t].cb).None?
  }

  ghost predicate LinksInv(loop: E.State, ops: seq<Op>) {
    var done := I.InvokedToks(loop.batch.invoked);
    && OpsLinked(ops, loop.threads.calls, loop.rings, done)
    && PcsLinked(loop.threads.calls, ops, loop.rings.intent)
    && ToksLinked(loop.rings.intent, ops, done)
    && NoneCancelled(loop.table.cancelled, loop.rings.intent)
  }

  /** A thread moves without starting or finishing to add the SQE of a transfer. */
  lemma LinksGoto(ops: seq<Op>, calls: map<E.Actor, E.Pc>, r: E.Rings, done: set<E.Token>, a: E.Actor, pc: E.Pc)
    requires OpsLinked(ops, calls, r, done) && PcsLinked(calls, ops, r.intent)
    requires PendingFor(pc) == PendingFor(E.PcAt(calls, a))
    requires PcLinked(pc, a, ops, r.intent)
    ensures OpsLinked(ops, calls[a := pc], r, done) && PcsLinked(calls[a := pc], ops, r.intent)
  {
    var calls' := calls[a := pc];
    forall b: E.Actor
      ensures E.PcAt(calls', b) == if a == b then pc else E.PcAt(calls, b)
    {
    }
    forall o | 0 <= o < |ops| && Active(ops[o])
      ensures OpLinked(ops[o], o, calls', r, done)
    {
      assert OpLinked(ops[o], o, calls, r, done);
    }
  }

  /** The rings move on without an SQE of a transfer being queued or posted. */
  ghost predicate RingsOnly(ops: seq<Op>, r: E.Rings, r': E.Rings) {
    && (forall t :: t in r.intent ==> t in r'.intent && r'.intent[t] == r.intent[t])
    && (forall t :: t in r'.intent && t !in r.intent ==>
          TransferOf(r'.intent[t].work).None? && CallbackOf(r'.intent[t].cb).None?)
    && r.posted <= r'.posted
    && (forall t :: (t in r.sq || t in r.inflight) && t in r.intent && TransferOf(r.intent[t].work).Some? ==>
          t in r'.sq || t in r'.inflight)
  }

  lemma LinksRings(ops: seq<Op>, calls: map<E.Actor, E.Pc>, r: E.Rings, done: set<E.Token>, r': E.Rings)
    requires OpsLinked(ops, calls, r, done) && PcsLinked(calls, ops, r.intent) && ToksLinked(r.intent, ops, done)
    requires RingsOnly(ops, r, r')
    ensures OpsLinked(ops, calls, r', done) && PcsLinked(calls, ops, r'.intent) && ToksLinked(r'.intent, ops, done)
  {
    forall o | 0 <= o < |ops| && Active(ops[o])
      ensures OpLinked(ops[o], o, calls, r', done)
    {
      assert OpLinked(ops[o], o, calls, r, done);
      var op := ops[o];
      if op.token.Some? && op.inbox.Some? {
        var c := E.Cqe(op.token.value, op.inbox.value);
        var i :| 0 <= i < |r.posted| && r.posted[i] == c;
        assert r'.posted[i] == c;
      }
    }
    forall a: E.Actor
      ensures PcLinked(E.PcAt(calls, a), a, ops, r'.intent)
    {
      assert PcLinked(E.PcAt(calls, a), a, ops, r.intent);
    }
    forall t | t in r'.intent
      ensures TokLinked(t, r'.intent[t], ops, done)
    {
      assert t in r.intent ==> TokLinked(t, r.intent[t], ops, done);
    }
  }

  /** The callback of other code is invoked. */
  lemma LinksInvokeOther(ops: seq<Op>, calls: map<E.Actor, E.Pc>, r: E.Rings, done: set<E.Token>, t: E.Token)
    requires OpsLinked(ops, calls, r, done) && ToksLinked(r.intent, ops, done)
    requires t in r.intent && TransferOf(r.intent[t].work).None?
    ensures OpsLinked(ops, calls, r, done + {t}) && ToksLinked(r.intent, ops, done + {t})
  {
    forall o | 0 <= o < |ops| && Active(ops[o])
      ensures OpLinked(ops[o], o, calls, r, done + {t})
    {
      assert OpLinked(ops[o], o, calls, r, done);
    }
    forall u | u in r.intent
      ensures TokLinked(u, r.intent[u], ops, done + {t})
    {
      assert TokLinked(u, r.intent[u], ops, done);
    }
  }

  /** The SQE of a transfer is queued. */
  lemma LinksQueue(ops: seq<Op>, calls: map<E.Actor, E.Pc>, r: E.Rings, done: set<E.Token>, a: E.Actor, pc: E.Pc,
                   o: nat)
    requires OpsLinked(ops, calls, r, done) && PcsLinked(calls, ops, r.intent) && ToksLinked(r.intent, ops, done)
    requires I.TokensOk(r) && done <= r.intent.Keys
    requires PendingFor(E.PcAt(calls, a)) == Some(o) && pc.AddWake?
    ensures o < |ops|
    ensures var r', ops' := E.Push(r, AddFor(o)), ops[o := ops[o].(token := Some(r.next))];
            && OpsLinked(ops', calls[a := pc], r', done)
            && PcsLinked(calls[a := pc], ops', r'.intent)
            && ToksLinked(r'.intent, ops', done)
  {
    assert PcLinked(E.PcAt(calls, a), a, ops, r.intent);
    var calls', r' := calls[a := pc], E.Push(r, AddFor(o));
    var ops' := ops[o := ops[o].(token := Some(r.next))];
    forall b: E.Actor
      ensures E.PcAt(calls', b) == if a == b then pc else E.PcAt(calls, b)
      ensures PcLinked(E.PcAt(calls', b), b, ops', r'.intent)
    {
      assert PcLinked(E.PcAt(calls, b), b, ops, r.intent);
    }
    forall p | 0 <= p < |ops'| && Active(ops'[p])
      ensures OpLinked(ops'[p], p, calls', r', done)
    {
      assert OpLinked(ops[p], p, calls, r, done);
      if p == o {
        assert r.next in r'.sq;
      }
    }
    forall t | t in r'.intent
      ensures TokLinked(t, r'.intent[t], ops', done)
    {
      assert t in r.intent ==> TokLinked(t, r.intent[t], ops, done);
      assert OpLinked(ops[o], o, calls, r, done);
    }
  }

  /** The ring has no room for the SQE of a transfer. */
  lemma LinksRefuse(ops: seq<Op>, calls: map<E.Actor, E.Pc>, r: E.Rings, done: set<E.Token>, a: E.Actor, pc: E.Pc,
                    o: nat, op: Op)
    requires OpsLinked(ops, calls, r, done) && PcsLinked(calls, ops, r.intent) && ToksLinked(r.intent, ops, done)
    requires PendingFor(E.PcAt(calls, a)) == Some(o) && pc.AddDropCb? && !Active(op)
    ensures o < |ops| && Active(ops[o]) && ops[o].token.None?
    ensures var ops' := ops[o := op];
            && OpsLinked(ops', calls[a := pc], r, done)
            && PcsLinked(calls[a := pc], ops', r.intent)
            && ToksLinked(r.intent, ops', done)
  {
    assert PcLinked(E.PcAt(calls, a), a, ops, r.intent);
    var calls', ops' := calls[a := pc], ops[o := op];
    forall b: E.Actor
      ensures E.PcAt(calls', b) == if a == b then pc else E.PcAt(calls, b)
      ensures PcLinked(E.PcAt(calls', b), b, ops', r.intent)
    {
      assert PcLinked(E.PcAt(calls, b), b, ops, r.intent);
    }
    forall p | 0 <= p < |ops'| && Active(ops'[p])
      ensures OpLinked(ops'[p], p, calls', r, done)
    {
      assert OpLinked(ops[p], p, calls, r, done);
    }
    forall t | t in r.intent
      ensures TokLinked(t, r.intent[t], ops', done)
    {
      assert TokLinked(t, r.intent[t], ops, done);
    }
  }

  /** The SQE of a transfer is completed. */
  lemma LinksPost(ops: seq<Op>, calls: map<E.Actor, E.Pc>, r: E.Rings, done: set<E.Token>, t: E.Token, res: Reply,
                  o: nat)
    requires OpsLinked(ops, calls, r, done) && PcsLinked(calls, ops, r.intent) && ToksLinked(r.intent, ops, done)
    requires I.TokensOk(r) && done <= E.Toks(r.posted)
    requires t in r.inflight && t in r.intent && TransferOf(r.intent[t].work) == Some(o)
    ensures o < |ops| && Active(ops[o]) && ops[o].inbox.None? && ops[o].token == Some(t)
    ensures var r', ops' := E.Post(r, t, res), ops[o := ops[o].(inbox := Some(res))];
            && OpsLinked(ops', calls, r', done)
            && PcsLinked(calls, ops', r'.intent)
            && ToksLinked(r'.intent, ops', done)
  {
    assert TokLinked(t, r.intent[t], ops, done);
    assert OpLinked(ops[o], o, calls, r, done);
    PostedTok(r.posted, t);
    var r', ops' := E.Post(r, t, res), ops[o := ops[o].(inbox := Some(res))];
    forall p | 0 <= p < |ops'| && Active(ops'[p])
      ensures OpLinked(ops'[p], p, calls, r', done)
    {
      assert OpLinked(ops[p], p, calls, r, done);
      if p == o {
        assert r'.posted[|r.posted|] == E.Cqe(t, res);
      } else if ops[p].token.Some? && ops[p].inbox.Some? {
        var c := E.Cqe(ops[p].token.value, ops[p].inbox.value);
        var i :| 0 <= i < |r.posted| && r.posted[i] == c;
        assert r'.posted[i] == c;
      }
    }
    forall b: E.Actor
      ensures PcLinked(E.PcAt(calls, b), b, ops', r'.intent)
    {
      assert PcLinked(E.PcAt(calls, b), b, ops, r.intent);
    }
    forall u | u in r'.intent
      ensures TokLinked(u, r'.intent[u], ops', done)
    {
      assert TokLinked(u, r.intent[u], ops, done);
    }
  }

  lemma PostedTok(posted: seq<E.Cqe>, t: E.Token)
    ensures t !in E.Toks(posted) ==> forall res :: E.Cqe(t, res) !in posted
  {
    if t !in E.Toks(posted) {
      forall i | 0 <= i < |posted|
        ensures posted[i].tok != t
      {
        assert posted[i].tok in E.Toks(posted);
      }
    }
  }

  /** The callback of a transfer is invoked: it gets the reply in the inbox. The transfer is then
      either finished, or its next SQE is being added by the RUN thread. */
  lemma LinksInvoke(ops: seq<Op>, calls: map<E.Actor, E.Pc>, r: E.Rings, done: set<E.Token>, t: E.Token, res: Reply,
                    o: nat)
    requires OpsLinked(ops, calls, r, done) && ToksLinked(r.intent, ops, done) && I.TokensOk(r)
    requires t in r.intent && t !in done && CallbackOf(r.intent[t].cb) == Some(o)
    requires E.Cqe(t, res) in r.posted
    ensures o < |ops| && Active(ops[o]) && ops[o].token == Some(t) && ops[o].inbox == Some(res)
  {
    assert TokLinked(t, r.intent[t], ops, done);
    assert OpLinked(ops[o], o, calls, r, done);
    var i :| 0 <= i < |r.posted| && r.posted[i] == E.Cqe(t, res);
    assert t in E.Toks(r.posted);
    var c := E.Cqe(t, ops[o].inbox.value);
    var j :| 0 <= j < |r.posted| && r.posted[j] == c;
  }

  lemma LinksFinish(ops: seq<Op>, calls: map<E.Actor, E.Pc>, r: E.Rings, done: set<E.Token>, t: E.Token, o: nat, op: Op)
    requires OpsLinked(ops, calls, r, done) && PcsLinked(calls, ops, r.intent) && ToksLinked(r.intent, ops, done)
    requires o < |ops| && Active(ops[o]) && ops[o].token == Some(t) && !Active(op)
    ensures var ops' := ops[o := op];
            && OpsLinked(ops', calls, r, done + {t})
            && PcsLinked(calls, ops', r.intent)
            && ToksLinked(r.intent, ops', done + {t})
  {
    var ops' := ops[o := op];
    assert OpLinked(ops[o], o, calls, r, done);
    forall p | 0 <= p < |ops'| && Active(ops'[p])
      ensures OpLinked(ops'[p], p, calls, r, done + {t})
    {
      assert OpLinked(ops[p], p, calls, r, done);
    }
    forall b: E.Actor
      ensures PcLinked(E.PcAt(calls, b), b, ops', r.intent)
    {
      assert PcLinked(E.PcAt(calls, b), b, ops, r.intent);
    }
    forall u | u in r.intent
      ensures TokLinked(u, r.intent[u], ops', done + {t})
    {
      assert TokLinked(u, r.intent[u], ops, done);
    }
  }

  lemma LinksAgain(ops: seq<Op>, calls: map<E.Actor, E.Pc>, r: E.Rings, done: set<E.Token>, t: E.Token, o: nat,
                   op: Op, a: E.Actor)
    requires OpsLinked(ops, calls, r, done) && PcsLinked(calls, ops, r.intent) && ToksLinked(r.intent, ops, done)
    requires o < |ops| && Active(ops[o]) && ops[o].token == Some(t)
    requires Active(op) && op.token.None? && op.inbox.None? && op.adder == a
    requires E.PcAt(calls, a).Idle?
    ensures var ops', calls' := ops[o := op], calls[a := E.AddWantSub(AddFor(o))];
            && OpsLinked(ops', calls', r, done + {t})
            && PcsLinked(calls', ops', r.intent)
            && ToksLinked(r.intent, ops', done + {t})
  {
    var ops', calls' := ops[o := op], calls[a := E.AddWantSub(AddFor(o))];
    assert OpLinked(ops[o], o, calls, r, done);
    forall b: E.Actor
      ensures E.PcAt(calls', b) == if a == b then E.AddWantSub(AddFor(o)) else E.PcAt(calls, b)
      ensures PcLinked(E.PcAt(calls', b), b, ops', r.intent)
    {
      assert PcLinked(E.PcAt(calls, b), b, ops, r.intent);
    }
    forall p | 0 <= p < |ops'| && Active(ops'[p])
      ensures OpLinked(ops'[p], p, calls', r, done + {t})
    {
      if p != o {
        assert OpLinked(ops[p], p, calls, r, done);
      }
    }
    forall u | u in r.intent
      ensures TokLinked(u, r.intent[u], ops', done + {t})
    {
      assert TokLinked(u, r.intent[u], ops, done);
    }
  }

  /** A transfer is started; it is finished at once or its first SQE is being added. */
  lemma LinksBegin(ops: seq<Op>, calls: map<E.Actor, E.Pc>, r: E.Rings, done: set<E.Token>, op: Op, a: E.Actor)
    requires OpsLinked(ops, calls, r, done) && PcsLinked(calls, ops, r.intent) && ToksLinked(r.intent, ops, done)
    requires Active(op) ==> op.token.None? && op.inbox.None? && op.adder == a
    requires E.PcAt(calls, a).Idle?
    ensures var ops' := ops + [op];
            var calls' := if Active(op) then calls[a := E.AddWantSub(AddFor(|ops|))] else calls;
            && OpsLinked(ops', calls', r, done)
            && PcsLinked(calls', ops', r.intent)
            && ToksLinked(r.intent, ops', done)
  {
    var ops' := ops + [op];
    var calls' := if Active(op) then calls[a := E.AddWantSub(AddFor(|ops|))] else calls;
    forall b: E.Actor
      ensures Active(op) ==> E.PcAt(calls', b) == if a == b then E.AddWantSub(AddFor(|ops|)) else E.PcAt(calls, b)
      ensures PcLinked(E.PcAt(calls', b), b, ops', r.intent)
    {
      assert PcLinked(E.PcAt(calls, b), b, ops, r.intent);
    }
    forall p | 0 <= p < |ops'| && Active(ops'[p])
      ensures OpLinked(ops'[p], p, calls', r, done)
    {
      if p < |ops| {
        assert OpLinked(ops[p], p, calls, r, done);
      }
    }
    forall u | u in r.intent
      ensures TokLinked(u, r.intent[u], ops', done)
    {
      assert TokLinked(u, r.intent[u], ops, done);
    }
  }
}
