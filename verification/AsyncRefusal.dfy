/** What happens when the ring has no room for the SQE of a transfer: exactly then the transfer ends without
    calling back, and everything else goes on. */
module AsyncRefusal {
  import opened Buffers
  import opened Syscalls
  import T = Transfer
  import E = EventLoop
  import opened AsyncSystem
  import opened AsyncInvariant
  import opened AsyncRefinement
  import opened AsyncTheorems

  // ---------------------------------------------------------------- one step

  /** A thread asks the ring for the SQE of this transfer, and the queue is full. */
  predicate GetsRefused(s: System, l: Label, o: nat) {
    && l.Step? && l.l.Inside? && l.l.step.GetSqe?
    && PendingFor(E.PcOf(s.loop, l.l.a)) == Some(o) && |s.loop.rings.sq| >= E.BATCH
  }

  /** What a step may do to a transfer that has ended, or to the end of one that has not. */
  ghost predicate EndsRight(s: System, l: Label, o: nat)
    requires Enabled(s, l) && o < |s.ops|
  {
    && o < |Apply(s, l).ops|
    && (!Active(s.ops[o]) ==> Apply(s, l).ops[o] == s.ops[o])
    && (Active(s.ops[o]) ==> (Refused(Apply(s, l).ops[o]) <==> GetsRefused(s, l, o)))
  }

  /** One transfer in progress moves on without being refused. */
  lemma EndsOfOne(s: System, l: Label, p: nat, o: nat)
    requires Enabled(s, l) && !GetsRefused(s, l, o) && p < |s.ops| && o < |s.ops| && Active(s.ops[p])
    requires var ops := Apply(s, l).ops;
             |ops| == |s.ops| && ops == s.ops[p := ops[p]] && !Refused(ops[p])
    ensures EndsRight(s, l, o)
  {
  }

  lemma InvokeEnds(s: System, o: nat)
    requires SysInv(s) && Enabled(s, Step(E.Loop(E.Invoke))) && o < |s.ops|
    ensures EndsRight(s, Step(E.Loop(E.Invoke)), o)
  {
    var who := CallbackOf(Some(s.loop.batch.pending[0].cb));
    if who.Some? {
      InvokeMeets(s, who.value);
      DigestedStands(s.world, s.ops[who.value]);
      InvokeUpdates(s, who.value);
      EndsOfOne(s, Step(E.Loop(E.Invoke)), who.value, o);
    }
  }

  /** An invocation goes on with one transfer, or ends it by calling back. */
  lemma InvokeUpdates(s: System, o: nat)
    requires StepEnabled(s, E.Loop(E.Invoke)) && CallbackOf(Some(s.loop.batch.pending[0].cb)) == Some(o)
    requires var q := T.Digest(s.ops[o].req, Snapshot(s.world, s.ops[o]), s.loop.batch.pending[0].res);
             Active(s.ops[o]) && (q.outcome.None? ==> q.calls != [])
    ensures var s' := ApplyInvoke(s);
            |s'.ops| == |s.ops| && s'.ops == s.ops[o := s'.ops[o]] && !Refused(s'.ops[o])
  {
    InvokeGives(s, o);
  }

  lemma CompleteEnds(s: System, t: E.Token, r: Reply, o: nat)
    requires SysInv(s) && Enabled(s, Step(E.Complete(t, r))) && o < |s.ops|
    ensures EndsRight(s, Step(E.Complete(t, r)), o)
  {
    var who := TransferOf(s.loop.rings.intent[t].work);
    if who.Some? {
      CompleteLinks(s.loop, s.ops, t, r, who.value);
    }
  }

  lemma GetSqeEnds(s: System, a: E.Actor, o: nat)
    requires SysInv(s) && Enabled(s, Step(E.Inside(a, E.GetSqe))) && o < |s.ops|
    ensures EndsRight(s, Step(E.Inside(a, E.GetSqe)), o)
  {
    var who := PendingFor(E.PcOf(s.loop, a));
    if who.Some? {
      AdderIsActive(s, a);
      SubmittedEnds(s, a, who.value, o);
    }
  }

  lemma SubmittedEnds(s: System, a: E.Actor, p: nat, o: nat)
    requires StepEnabled(s, E.Inside(a, E.GetSqe)) && PendingFor(E.PcOf(s.loop, a)) == Some(p)
    requires p < |s.ops| && o < |s.ops| && Active(s.ops[p])
    ensures EndsRight(s, Step(E.Inside(a, E.GetSqe)), o)
  {
    assert Submitted(s.world, s.ops[p], s.loop.rings).final.Some? <==> |s.loop.rings.sq| >= E.BATCH;
  }

  lemma StepEnds(s: System, l: Label, o: nat)
    requires SysInv(s) && Enabled(s, l) && o < |s.ops|
    ensures EndsRight(s, l, o)
  {
    match l {
      case Begin(_, _, _) => case Poke(_, _) => case Seek(_, _) =>
      case Step(e) =>
        match e {
          case Call(_, _) =>
          case Complete(t, r) => CompleteEnds(s, t, r, o);
          case Inside(a, c) =>
            if c.GetSqe? {
              GetSqeEnds(s, a, o);
            }
          case Loop(c) =>
            if c.Invoke? {
              InvokeEnds(s, o);
            }
        }
    }
  }

  lemma NewIsNotRefused(s: System, l: Label, o: nat)
    requires SysInv(s) && Enabled(s, l) && |s.ops| <= o < |Apply(s, l).ops|
    ensures !Refused(Apply(s, l).ops[o]) && !GetsRefused(s, l, o)
  {
    match l {
      case Begin(_, _, _) => case Poke(_, _) => case Seek(_, _) =>
      case Step(e) => NoNewOps(s, e);
    }
  }

  lemma NoNewOps(s: System, e: E.Label)
    requires StepEnabled(s, e)
    ensures |ApplyStep(s, e).ops| == |s.ops|
  {
  }

  // ---------------------------------------------------------------- whole runs

  ghost predicate RefusedAt(s0: System, labels: seq<Label>, k: nat, o: nat)
    requires k < |labels|
  {
    IsRun(s0, labels[..k]) && GetsRefused(Exec(s0, labels[..k]), labels[k], o)
  }

  ghost predicate WasRefused(s0: System, labels: seq<Label>, o: nat) {
    exists k :: 0 <= k < |labels| && RefusedAt(s0, labels, k, o)
  }

  lemma WasRefusedNext(s0: System, labels: seq<Label>, o: nat)
    requires labels != [] && IsRun(s0, labels[..|labels| - 1])
    ensures var n := |labels| - 1;
            WasRefused(s0, labels, o) <==>
              WasRefused(s0, labels[..n], o) || GetsRefused(Exec(s0, labels[..n]), labels[n], o)
  {
    LastRefusal(s0, labels, o);
    WasBefore(s0, labels, o);
  }

  lemma WasBefore(s0: System, labels: seq<Label>, o: nat)
    requires labels != []
    ensures var n := |labels| - 1;
            WasRefused(s0, labels, o) <==> WasRefused(s0, labels[..n], o) || RefusedAt(s0, labels, n, o)
  {
    var n := |labels| - 1;
    if k :| 0 <= k < n && RefusedAt(s0, labels[..n], k, o) {
      RefusedInPrefix(s0, labels, k, o);
    }
    if k :| 0 <= k < n && RefusedAt(s0, labels, k, o) {
      RefusedInPrefix(s0, labels, k, o);
    }
  }

  lemma LastRefusal(s0: System, labels: seq<Label>, o: nat)
    requires labels != [] && IsRun(s0, labels[..|labels| - 1])
    ensures var n := |labels| - 1;
            GetsRefused(Exec(s0, labels[..n]), labels[n], o) <==> RefusedAt(s0, labels, n, o)
  {
  }

  lemma RefusedInPrefix(s0: System, labels: seq<Label>, k: nat, o: nat)
    requires k < |labels| - 1
    ensures RefusedAt(s0, labels, k, o) <==> RefusedAt(s0, labels[..|labels| - 1], k, o)
  {
    var shorter := labels[..|labels| - 1];
    assert shorter[..k] == labels[..k] && shorter[k] == labels[k];
  }

  lemma NotRefusedYet(s0: System, labels: seq<Label>, o: nat)
    requires Init(s0) && IsRun(s0, labels) && o >= |Exec(s0, labels).ops|
    ensures !WasRefused(s0, labels, o)
    decreases |labels|
  {
    if labels != [] {
      var n := |labels| - 1;
      var s := Exec(s0, labels[..n]);
      RunKeeps(s0, labels[..n]);
      OpsGrow(s, labels[n]);
      NotRefusedYet(s0, labels[..n], o);
      WasRefusedNext(s0, labels, o);
      NobodyAsksFor(s, labels[n], o);
    }
  }

  lemma OpsGrow(s: System, l: Label)
    requires Enabled(s, l)
    ensures |s.ops| <= |Apply(s, l).ops|
  {
    if l.Step? {
      NoNewOps(s, l.l);
    }
  }

  lemma NobodyAsksFor(s: System, l: Label, o: nat)
    requires SysInv(s) && o >= |s.ops|
    ensures !GetsRefused(s, l, o)
  {
    if GetsRefused(s, l, o) {
      AdderIsActive(s, l.l.a);
    }
  }

  /** Over every run, a transfer is refused if and only if a thread once asked the ring for its SQE when
      `BATCH` were queued. */
  lemma {:induction false} RefusedExactlyWhen(s0: System, labels: seq<Label>, o: nat)
    requires Init(s0) && IsRun(s0, labels) && o < |Exec(s0, labels).ops|
    ensures Refused(Exec(s0, labels).ops[o]) <==> WasRefused(s0, labels, o)
    decreases |labels|
  {
    if labels != [] {
      var n := |labels| - 1;
      var s := Exec(s0, labels[..n]);
      RunKeeps(s0, labels[..n]);
      WasRefusedNext(s0, labels, o);
      RefusedNext(s, labels[n], o);
      if o < |s.ops| {
        RefusedExactlyWhen(s0, labels[..n], o);
      } else {
        NotRefusedYet(s0, labels[..n], o);
      }
    }
  }

  lemma RefusedNext(s: System, l: Label, o: nat)
    requires SysInv(s) && Enabled(s, l) && o < |Apply(s, l).ops|
    ensures Refused(Apply(s, l).ops[o]) <==> (o < |s.ops| && Refused(s.ops[o])) || GetsRefused(s, l, o)
  {
    if o < |s.ops| {
      StepEnds(s, l, o);
      if GetsRefused(s, l, o) {
        AdderIsActive(s, l.l.a);
      }
    } else {
      NewIsNotRefused(s, l, o);
    }
  }

  /** A transfer that has ended stays as it is, whatever happens. */
  lemma {:induction false} EndedForGood(s0: System, labels: seq<Label>, k: nat, o: nat)
    requires Init(s0) && IsRun(s0, labels) && k <= |labels| && IsRun(s0, labels[..k])
    requires o < |Exec(s0, labels[..k]).ops| && !Active(Exec(s0, labels[..k]).ops[o])
    ensures o < |Exec(s0, labels).ops| && Exec(s0, labels).ops[o] == Exec(s0, labels[..k]).ops[o]
    decreases |labels|
  {
    if k == |labels| {
      assert labels[..k] == labels;
    } else {
      var n := |labels| - 1;
      assert labels[..n][..k] == labels[..k];
      EndedForGood(s0, labels[..n], k, o);
      EndedAfterStep(s0, labels, o);
    }
  }

  lemma EndedAfterStep(s0: System, labels: seq<Label>, o: nat)
    requires Init(s0) && IsRun(s0, labels) && labels != []
    requires var s := Exec(s0, labels[..|labels| - 1]); o < |s.ops| && !Active(s.ops[o])
    ensures o < |Exec(s0, labels).ops| && Exec(s0, labels).ops[o] == Exec(s0, labels[..|labels| - 1]).ops[o]
  {
    var n := |labels| - 1;
    RunKeeps(s0, labels[..n]);
    StepEnds(Exec(s0, labels[..n]), labels[n], o);
  }

  /** A transfer that was refused never calls back, however long the run goes on. */
  lemma RefusedNeverCallsBack(s0: System, labels: seq<Label>, k: nat, o: nat)
    requires Init(s0) && IsRun(s0, labels) && k <= |labels| && IsRun(s0, labels[..k])
    requires o < |Exec(s0, labels[..k]).ops| && Refused(Exec(s0, labels[..k]).ops[o])
    ensures o !in Ids(Exec(s0, labels).completions)
  {
    EndedForGood(s0, labels, k, o);
    CallsBackOnce(s0, labels, o);
  }

  // ---------------------------------------------------------------- it happens

  /** The threads of the example: one that fills the queue, one that starts the transfer. */
  const FILLER: E.Actor := 1
  const USER: E.Actor := 2

  const FILLING: E.Add := E.Add(E.Job(E.OfOther(0)), None)

  /** One thread is at this point of a call and holds `m_submission_` if `sub` says so; no other thread is in a
      call, `run` is not, and `n` SQEs are queued. */
  ghost predicate Alone(loop: E.State, a: E.Actor, pc: E.Pc, sub: Option<E.Actor>, n: nat) {
    && E.PcOf(loop, a) == pc && loop.threads.loop.Stopped?
    && loop.threads.sub == sub && loop.threads.cbs.None? && |loop.rings.sq| == n
    && OthersIdle(loop.threads.calls, a)
  }

  ghost predicate OthersIdle(calls: map<E.Actor, E.Pc>, a: E.Actor) {
    forall b: E.Actor :: b != a ==> E.PcAt(calls, b).Idle?
  }

  lemma AloneGoto(th: E.Threads, a: E.Actor, pc: E.Pc)
    requires OthersIdle(th.calls, a)
    ensures E.PcAt(E.Goto(th, a, pc).calls, a) == pc && OthersIdle(E.Goto(th, a, pc).calls, a)
  {
    var calls' := E.Goto(th, a, pc).calls;
    forall b: E.Actor | b != a
      ensures E.PcAt(calls', b).Idle?
    {
      assert E.PcAt(th.calls, b).Idle?;
    }
  }

  /** The steps of the filling thread, one after the other. */
  lemma FillCalls(loop: E.State, n: nat)
    requires Alone(loop, FILLER, E.Idle, None, n)
    ensures E.CallEnabled(loop, FILLER, E.ApiAdd(FILLING))
    ensures Alone(E.ApplyCall(loop, FILLER, E.ApiAdd(FILLING)), FILLER, E.AddWantSub(FILLING), None, n)
  {
    AloneGoto(loop.threads, FILLER, E.AddWantSub(FILLING));
  }

  lemma FillLocks(loop: E.State, n: nat)
    requires Alone(loop, FILLER, E.AddWantSub(FILLING), None, n)
    ensures E.InsideEnabled(loop, FILLER, E.LockSub)
    ensures Alone(E.ApplyInside(loop, FILLER, E.LockSub), FILLER, E.AddGet(FILLING), Some(FILLER), n)
  {
    AloneGoto(loop.threads, FILLER, E.AddGet(FILLING));
  }

  lemma FillQueues(loop: E.State, n: nat)
    requires Alone(loop, FILLER, E.AddGet(FILLING), Some(FILLER), n) && n < E.BATCH
    ensures E.InsideEnabled(loop, FILLER, E.GetSqe)
    ensures Alone(E.ApplyInside(loop, FILLER, E.GetSqe), FILLER, E.AddWake(loop.rings.next, None), Some(FILLER), n + 1)
  {
    AloneGoto(loop.threads, FILLER, E.AddWake(loop.rings.next, None));
  }

  lemma FillWakes(loop: E.State, t: E.Token, n: nat)
    requires Alone(loop, FILLER, E.AddWake(t, None), Some(FILLER), n)
    ensures E.InsideEnabled(loop, FILLER, E.WakeLoop)
    ensures Alone(E.ApplyInside(loop, FILLER, E.WakeLoop), FILLER, E.AddDropSub(true), Some(FILLER), n)
  {
    AloneGoto(loop.threads, FILLER, E.AddDropSub(true));
  }

  lemma FillUnlocks(loop: E.State, n: nat)
    requires Alone(loop, FILLER, E.AddDropSub(true), Some(FILLER), n)
    ensures E.InsideEnabled(loop, FILLER, E.DropSub)
    ensures Alone(E.ApplyInside(loop, FILLER, E.DropSub), FILLER, E.Idle, None, n)
  {
    AloneGoto(loop.threads, FILLER, E.Idle);
  }

  /** A run without transfers, after which one thread is somewhere in a call. */
  ghost predicate Prepared(s0: System, labels: seq<Label>, pc: E.Pc, sub: Option<E.Actor>, n: nat) {
    && IsRun(s0, labels)
    && var s := Exec(s0, labels);
       && s.ops == [] && s.completions == [] && s.world == s0.world
       && Alone(s.loop, FILLER, pc, sub, n)
  }

  lemma Goes(s0: System, labels: seq<Label>, l: E.Label)
    requires IsRun(s0, labels) && Exec(s0, labels).ops == []
    requires E.Enabled(Exec(s0, labels).loop, l)
    requires l.Inside? || (l.Call? && l.call == E.ApiAdd(FILLING))
    requires l.Inside? && l.step.GetSqe? ==> E.PcOf(Exec(s0, labels).loop, l.a) == E.AddGet(FILLING)
    ensures IsRun(s0, labels + [Step(l)])
    ensures Exec(s0, labels + [Step(l)]) == Exec(s0, labels).(loop := E.Apply(Exec(s0, labels).loop, l))
  {
    assert (labels + [Step(l)])[..|labels|] == labels;
  }

  /** One more SQE in the queue. */
  lemma FillOne(s0: System, labels: seq<Label>, n: nat) returns (more: seq<Label>)
    requires Prepared(s0, labels, E.Idle, None, n) && n < E.BATCH
    ensures Prepared(s0, more, E.Idle, None, n + 1)
  {
    FillCalls(Exec(s0, labels).loop, n);
    Goes(s0, labels, E.Call(FILLER, E.ApiAdd(FILLING)));
    more := labels + [Step(E.Call(FILLER, E.ApiAdd(FILLING)))];
    more := FillTwo(s0, more, n);
    more := FillThree(s0, more, n + 1);
  }

  lemma FillTwo(s0: System, labels: seq<Label>, n: nat) returns (more: seq<Label>)
    requires Prepared(s0, labels, E.AddWantSub(FILLING), None, n) && n < E.BATCH
    ensures exists t :: Prepared(s0, more, E.AddWake(t, None), Some(FILLER), n + 1)
  {
    FillLocks(Exec(s0, labels).loop, n);
    Goes(s0, labels, E.Inside(FILLER, E.LockSub));
    more := labels + [Step(E.Inside(FILLER, E.LockSub))];
    var loop := Exec(s0, more).loop;
    FillQueues(loop, n);
    Goes(s0, more, E.Inside(FILLER, E.GetSqe));
    more := more + [Step(E.Inside(FILLER, E.GetSqe))];
    assert Prepared(s0, more, E.AddWake(loop.rings.next, None), Some(FILLER), n + 1);
  }

  lemma FillThree(s0: System, labels: seq<Label>, n: nat) returns (more: seq<Label>)
    requires exists t :: Prepared(s0, labels, E.AddWake(t, None), Some(FILLER), n)
    ensures Prepared(s0, more, E.Idle, None, n)
  {
    var t :| Prepared(s0, labels, E.AddWake(t, None), Some(FILLER), n);
    FillWakes(Exec(s0, labels).loop, t, n);
    Goes(s0, labels, E.Inside(FILLER, E.WakeLoop));
    more := labels + [Step(E.Inside(FILLER, E.WakeLoop))];
    FillUnlocks(Exec(s0, more).loop, n);
    Goes(s0, more, E.Inside(FILLER, E.DropSub));
    more := more + [Step(E.Inside(FILLER, E.DropSub))];
  }

  /** The queue can hold any number of SQEs up to `BATCH`. */
  lemma {:induction false} Fill(s0: System, n: nat) returns (labels: seq<Label>)
    requires Init(s0) && 1 <= n <= E.BATCH
    ensures Prepared(s0, labels, E.Idle, None, n)
    decreases n
  {
    if n == 1 {
      labels := [];
    } else {
      labels := Fill(s0, n - 1);
      labels := FillOne(s0, labels, n - 1);
    }
  }

  /** Whatever the request, if it needs a syscall there is a run in which it is refused: `BATCH` SQEs are queued
      before `run` submits any. */
  lemma RefusalHappens(s0: System, req: T.Request, fd: nat) returns (labels: seq<Label>)
    requires Init(s0) && BeginEnabled(s0, USER, req, fd) && T.Wanted(req, 0) > 0
    ensures IsRun(s0, labels) && |Exec(s0, labels).ops| == 1 && Refused(Exec(s0, labels).ops[0])
    ensures |Exec(s0, labels).loop.rings.sq| == E.BATCH
  {
    labels := Fill(s0, E.BATCH);
    labels := BeginFull(s0, labels, req, fd);
    RefusedInTheEnd(s0, labels);
    labels := labels + [Step(E.Inside(USER, E.LockSub)), Step(E.Inside(USER, E.LockCb)), Step(E.Inside(USER,
       E.GetSqe))];
  }

  ghost predicate Started(s: System, pc: E.Pc, sub: Option<E.Actor>, cbs: Option<E.Actor>) {
    && |s.ops| == 1 && Active(s.ops[0]) && OpInBounds(s.world, s.ops[0])
    && E.PcOf(s.loop, USER) == pc && s.loop.threads.sub == sub && s.loop.threads.cbs == cbs
    && |s.loop.rings.sq| == E.BATCH
  }

  lemma BeginFull(s0: System, labels: seq<Label>, req: T.Request, fd: nat) returns (more: seq<Label>)
    requires Prepared(s0, labels, E.Idle, None, E.BATCH)
    requires Init(s0) && BeginEnabled(s0, USER, req, fd) && T.Wanted(req, 0) > 0
    ensures IsRun(s0, more) && Started(Exec(s0, more), E.AddWantSub(AddFor(0)), None, None)
  {
    var s := Exec(s0, labels);
    assert E.PcAt(s.loop.threads.calls, USER).Idle?;
    OnlyRun(s0, labels, Begin(USER, req, fd));
    more := labels + [Begin(USER, req, fd)];
    BeginStarts(s, req, fd);
  }

  lemma BeginStarts(s: System, req: T.Request, fd: nat)
    requires s.ops == [] && BeginEnabled(s, USER, req, fd) && T.Wanted(req, 0) > 0
    requires s.loop.threads.sub.None? && s.loop.threads.cbs.None? && |s.loop.rings.sq| == E.BATCH
    ensures Started(ApplyBegin(s, USER, req, fd), E.AddWantSub(AddFor(0)), None, None)
  {
  }

  lemma OnlyRun(s0: System, labels: seq<Label>, l: Label)
    requires IsRun(s0, labels) && Enabled(Exec(s0, labels), l)
    ensures IsRun(s0, labels + [l]) && Exec(s0, labels + [l]) == Apply(Exec(s0, labels), l)
  {
    assert (labels + [l])[..|labels|] == labels;
  }

  lemma StartedLocks(s: System, c: E.CallStep)
    requires c.LockSub? ==> Started(s, E.AddWantSub(AddFor(0)), None, None)
    requires c.LockCb? ==> Started(s, E.AddWantCb(AddFor(0)), Some(USER), None)
    requires c.LockSub? || c.LockCb?
    ensures Enabled(s, Step(E.Inside(USER, c)))
    ensures c.LockSub? ==> Started(Apply(s, Step(E.Inside(USER, c))), E.AddWantCb(AddFor(0)), Some(USER), None)
    ensures c.LockCb? ==> Started(Apply(s, Step(E.Inside(USER, c))), E.AddGet(AddFor(0)), Some(USER), Some(USER))
  {
  }

  lemma StartedRefused(s: System)
    requires Started(s, E.AddGet(AddFor(0)), Some(USER), Some(USER))
    ensures var l := Step(E.Inside(USER, E.GetSqe));
            && Enabled(s, l) && |Apply(s, l).ops| == 1 && Refused(Apply(s, l).ops[0])
            && |Apply(s, l).loop.rings.sq| == E.BATCH
  {
  }

  lemma RefusedInTheEnd(s0: System, labels: seq<Label>)
    requires IsRun(s0, labels) && Started(Exec(s0, labels), E.AddWantSub(AddFor(0)), None, None)
    ensures var all := labels + [Step(E.Inside(USER, E.LockSub)), Step(E.Inside(USER, E.LockCb)),
            Step(E.Inside(USER, E.GetSqe))];
            && IsRun(s0, all) && |Exec(s0, all).ops| == 1 && Refused(Exec(s0, all).ops[0])
            && |Exec(s0, all).loop.rings.sq| == E.BATCH
  {
    var l1, l2, l3 := Step(E.Inside(USER, E.LockSub)), Step(E.Inside(USER, E.LockCb)), Step(E.Inside(USER, E.GetSqe));
    LocksNext(s0, labels, E.LockSub);
    LocksNext(s0, labels + [l1], E.LockCb);
    StartedRefused(Exec(s0, labels + [l1] + [l2]));
    OnlyRun(s0, labels + [l1] + [l2], l3);
    assert labels + [l1] + [l2] + [l3] == labels + [l1, l2, l3];
  }

  lemma LocksNext(s0: System, labels: seq<Label>, c: E.CallStep)
    requires IsRun(s0, labels) && (c.LockSub? || c.LockCb?)
    requires c.LockSub? ==> Started(Exec(s0, labels), E.AddWantSub(AddFor(0)), None, None)
    requires c.LockCb? ==> Started(Exec(s0, labels), E.AddWantCb(AddFor(0)), Some(USER), None)
    ensures var more := labels + [Step(E.Inside(USER, c))];
            && IsRun(s0, more)
            && (c.LockSub? ==> Started(Exec(s0, more), E.AddWantCb(AddFor(0)), Some(USER), None))
            && (c.LockCb? ==> Started(Exec(s0, more), E.AddGet(AddFor(0)), Some(USER), Some(USER)))
  {
    StartedLocks(Exec(s0, labels), c);
    OnlyRun(s0, labels, Step(E.Inside(USER, c)));
  }
}
