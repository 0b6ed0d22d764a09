/** What the event loop guarantees over every run, for every interleaving of the threads, of the
    loop and of the kernel. */
module EventLoopTheorems {
  import opened Buffers
  import opened Syscalls
  import opened EventLoop
  import opened EventLoopInvariant

  lemma Reached(labels: seq<Label>)
    requires IsRun(INITIAL, labels)
    ensures Inv(Exec(INITIAL, labels))
  {
    InitialInv();
    RunKeeps(INITIAL, labels);
  }

  // ---------------------------------------------------------------- tokens and callbacks

  /** The four places a token can be in. */
  datatype Place = Queued | InFlight | Posted | Harvested

  ghost predicate At(s: State, t: Token, p: Place) {
    match p
    case Queued => t in s.rings.sq
    case InFlight => t in s.rings.inflight
    case Posted => exists i :: s.batch.head <= i < |s.rings.posted| && s.rings.posted[i].tok == t
    case Harvested => exists i :: 0 <= i < s.batch.head && i < |s.rings.posted| && s.rings.posted[i].tok == t
  }

  /** Every token below `callbacks_idx_`, and no other, is in exactly one place; and the keys of the
      callback map are such tokens, not harvested yet. */
  lemma TokenInOnePlace(labels: seq<Label>, t: Token)
    requires IsRun(INITIAL, labels)
    ensures var s := Exec(INITIAL, labels);
            && (t < s.rings.next <==> exists p :: At(s, t, p))
            && (forall p, q :: At(s, t, p) && At(s, t, q) ==> p == q)
            && (t in s.table.callbacks ==> t < s.rings.next && !At(s, t, Harvested))
  {
    Reached(labels);
    var s := Exec(INITIAL, labels);
    InOnePlace(s, t);
  }

  lemma InOnePlace(s: State, t: Token)
    requires Inv(s)
    ensures t < s.rings.next <==> exists p :: At(s, t, p)
    ensures forall p, q :: At(s, t, p) && At(s, t, q) ==> p == q
    ensures t in s.table.callbacks ==> t < s.rings.next && !At(s, t, Harvested)
  {
    var posted, head := s.rings.posted, s.batch.head;
    assert At(s, t, Posted) || At(s, t, Harvested) <==> t in Toks(posted) by {
      if t in Toks(posted) {
        var i :| 0 <= i < |posted| && posted[i].tok == t;
        assert i < head ==> At(s, t, Harvested);
        assert i >= head ==> At(s, t, Posted);
      }
    }
    assert At(s, t, Harvested) ==> t in HarvestedToks(posted, head) by {
      if At(s, t, Harvested) {
        var i :| 0 <= i < head && i < |posted| && posted[i].tok == t;
        assert posted[..head][i].tok == t;
      }
    }
    if t < s.rings.next {
      assert At(s, t, Queued) || At(s, t, InFlight) || At(s, t, Posted) || At(s, t, Harvested);
    }
  }

  /** The invocation with this number is the only one of its token, and it has the one result that was posted
      for it. */
  ghost predicate InvokedForItself(s: State, k: nat)
    requires k < |s.batch.invoked|
  {
    var v := s.batch.invoked[k];
    && v.tok in s.rings.intent && s.rings.intent[v.tok].cb == Some(v.cb)
    && Cqe(v.tok, v.res) in s.rings.posted
    && (forall j :: 0 <= j < |s.batch.invoked| && j != k ==> s.batch.invoked[j].tok != v.tok)
    && (forall r :: Cqe(v.tok, r) in s.rings.posted ==> r == v.res)
  }

  /** Over a whole run each callback is invoked at most once, with the result the kernel posted
      for its own SQE. */
  lemma InvokedAtMostOnce(labels: seq<Label>, k: nat)
    requires IsRun(INITIAL, labels)
    requires k < |Exec(INITIAL, labels).batch.invoked|
    ensures InvokedForItself(Exec(INITIAL, labels), k)
  {
    Reached(labels);
    InvokedAlone(Exec(INITIAL, labels), k);
  }

  lemma InvokedAlone(s: State, k: nat)
    requires Inv(s) && k < |s.batch.invoked|
    ensures InvokedForItself(s, k)
  {
    var i := InvokedFrom(s, k);
    assert s.rings.posted[i] == Cqe(s.batch.invoked[k].tok, s.batch.invoked[k].res);
    forall j | 0 <= j < |s.batch.invoked| && j != k
      ensures s.batch.invoked[j].tok != s.batch.invoked[k].tok
    {
      var i' := InvokedFrom(s, j);
    }
  }

  /** The completion an invocation stems from. */
  lemma InvokedFrom(s: State, k: nat) returns (i: nat)
    requires Inv(s) && k < |s.batch.invoked|
    ensures i < s.batch.head <= |s.rings.posted| && i < |s.batch.found|
    ensures var v := s.batch.invoked[k];
            && s.rings.posted[i] == Cqe(v.tok, v.res)
            && s.batch.found[i] == Some(v.cb)
            && v.tok in s.rings.intent && s.rings.intent[v.tok].cb == Some(v.cb)
    ensures k == |Selected(s.rings.posted, s.batch.found[..i])|
  {
    assert (s.batch.invoked + s.batch.pending)[k] == s.batch.invoked[k];
    i := SelectedOrigin(s.rings.posted, s.batch.found, k);
    assert FoundRight(s.rings, s.batch.found, s.table.cancelled, i);
  }

  /** Under every interleaving, a completion about to be harvested whose SQE was added with a
      callback finds that callback in the map, unless it was cancelled. */
  lemma CompletionFindsCallback(labels: seq<Label>)
    requires IsRun(INITIAL, labels)
    requires Enabled(Exec(INITIAL, labels), Loop(HarvestOne))
    ensures var s := Exec(INITIAL, labels);
            var t := s.rings.posted[s.batch.head].tok;
            && t in s.rings.intent
            && (s.rings.intent[t].cb.Some? && t !in s.table.cancelled ==>
                  t in s.table.callbacks && Some(s.table.callbacks[t]) == s.rings.intent[t].cb)
            && (t in s.table.callbacks ==> s.rings.intent[t].cb == Some(s.table.callbacks[t]))
  {
    Reached(labels);
    HarvestFinds(Exec(INITIAL, labels));
  }

  // ---------------------------------------------------------------- cancellation

  predicate StoresLater(pc: Pc, t: Token) {
    (pc.AddStore? && pc.tok == t) || (pc.AddWake? && pc.cb.Some? && pc.tok == t)
  }

  /** No callback of the token is stored, about to be stored, or on the list, and none was invoked. */
  ghost predicate Gone(s: State, t: Token) {
    && t in s.rings.intent && t !in s.table.callbacks
    && (forall b: Actor :: !StoresLater(PcOf(s, b), t))
    && (forall v :: v in s.batch.pending ==> v.tok != t)
    && t !in InvokedToks(s.batch.invoked)
  }

  lemma GoneInside(s: State, a: Actor, c: CallStep, t: Token)
    requires TokensInv(s) && InsideEnabled(s, a, c) && Gone(s, t)
    ensures Gone(ApplyInside(s, a, c), t)
  {
    var s' := ApplyInside(s, a, c);
    assert !StoresLater(PcOf(s, a), t);
    forall b: Actor
      ensures !StoresLater(PcOf(s', b), t)
    {
      assert !StoresLater(PcOf(s, b), t);
      match c {
        case LockSub => case LockCb => case GetSqe => case WakeLoop => case StoreCb =>
        case DropCb => case DropSub => case CancelLock => case Erase =>
      }
    }
    match c {
      case LockSub => case LockCb => case GetSqe => case WakeLoop => case StoreCb =>
      case DropCb => case DropSub => case CancelLock => case Erase =>
    }
  }

  lemma GoneLoop(s: State, c: LoopStep, t: Token)
    requires LoopEnabled(s, c) && Gone(s, t)
    ensures Gone(ApplyLoop(s, c), t)
  {
    var s' := ApplyLoop(s, c);
    forall b: Actor
      ensures !StoresLater(PcOf(s', b), t)
    {
      assert !StoresLater(PcOf(s, b), t);
    }
    match c {
      case Invoke => InvokedSnoc(s.batch.invoked, s.batch.pending[0]);
      case StartRun => case CheckExit => case RunLockSub => case Submit => case WaitOk => case WaitFail(_) =>
      case Peek => case RunLockCb => case HarvestOne => case HarvestEnd => case UserReturn =>
      case WakerRead(_) => case WakerExit => case LoopAgain =>
    }
  }

  lemma GoneStep(s: State, l: Label, t: Token)
    requires TokensInv(s) && Enabled(s, l) && Gone(s, t)
    ensures Gone(Apply(s, l), t)
  {
    match l {
      case Call(a, c) =>
        forall b: Actor
          ensures !StoresLater(PcOf(Apply(s, l), b), t)
        {
          assert !StoresLater(PcOf(s, b), t);
        }
      case Inside(a, c) => GoneInside(s, a, c, t);
      case Loop(c) => GoneLoop(s, c, t);
      case Complete(_, _) =>
        forall b: Actor
          ensures !StoresLater(PcOf(Apply(s, l), b), t)
        {
          assert !StoresLater(PcOf(s, b), t);
        }
    }
  }

  lemma {:induction false} GoneForGood(s: State, labels: seq<Label>, t: Token)
    requires Inv(s) && IsRun(s, labels) && Gone(s, t)
    ensures Gone(Exec(s, labels), t)
    decreases |labels|
  {
    if labels != [] {
      var k := |labels| - 1;
      GoneForGood(s, labels[..k], t);
      RunKeeps(s, labels[..k]);
      GoneStep(Exec(s, labels[..k]), labels[k], t);
    }
  }

  /** A callback that is cancelled before its completion was harvested never runs, however long the run goes on; one
      that
      is on the list by then is not touched by the cancellation. */
  lemma CancelledNeverRuns(labels: seq<Label>, a: Actor, more: seq<Label>)
    requires IsRun(INITIAL, labels) && Enabled(Exec(INITIAL, labels), Inside(a, Erase))
    requires IsRun(Apply(Exec(INITIAL, labels), Inside(a, Erase)), more)
    ensures var s, t := Exec(INITIAL, labels), PcOf(Exec(INITIAL, labels), a).victim;
            && Apply(s, Inside(a, Erase)).batch == s.batch
            && (!At(s, t, Harvested) ==>
                  t !in InvokedToks(Exec(Apply(s, Inside(a, Erase)), more).batch.invoked))
  {
    Reached(labels);
    var s := Exec(INITIAL, labels);
    if !At(s, PcOf(s, a).victim, Harvested) {
      ErasedIsGone(s, a);
      StepKeeps(s, Inside(a, Erase));
      GoneForGood(Apply(s, Inside(a, Erase)), more, PcOf(s, a).victim);
    }
  }

  lemma ErasedIsGone(s: State, a: Actor)
    requires Inv(s) && InsideEnabled(s, a, Erase) && !At(s, PcOf(s, a).victim, Harvested)
    ensures Gone(ApplyInside(s, a, Erase), PcOf(s, a).victim)
  {
    var t, s' := PcOf(s, a).victim, ApplyInside(s, a, Erase);
    assert PcHoldsCb(PcAt(s.threads.calls, a)) && PcSane(PcAt(s.threads.calls, a), a == RUN
           && s.threads.loop.WakerAdd?, s.rings, s.table.callbacks);
    forall b: Actor
      ensures !StoresLater(PcOf(s', b), t)
    {
      assert PcHoldsCb(PcAt(s.threads.calls, b)) ==> b == a;
    }
    NotHarvestedIsNew(s, t);
  }

  /** The callbacks on the list and those invoked are of harvested completions. */
  lemma NotHarvestedIsNew(s: State, t: Token)
    requires DispatchInv(s) && !At(s, t, Harvested)
    ensures t !in InvokedToks(s.batch.invoked) && forall v :: v in s.batch.pending ==> v.tok != t
  {
    var all := s.batch.invoked + s.batch.pending;
    forall k | 0 <= k < |all|
      ensures all[k].tok != t
    {
      var i := SelectedOrigin(s.rings.posted, s.batch.found, k);
    }
    forall k | 0 <= k < |s.batch.invoked|
      ensures s.batch.invoked[k].tok != t
    {
      assert all[k] == s.batch.invoked[k];
    }
    forall v | v in s.batch.pending
      ensures v.tok != t
    {
      var k :| 0 <= k < |s.batch.pending| && s.batch.pending[k] == v;
      assert all[|s.batch.invoked| + k] == v;
    }
  }

  // ---------------------------------------------------------------- order

  /** Invocations follow the order in which the kernel posted, across all batches. */
  lemma InvokedInQueueOrder(labels: seq<Label>, j: nat, k: nat)
    requires IsRun(INITIAL, labels)
    requires j < k < |Exec(INITIAL, labels).batch.invoked|
    ensures var s := Exec(INITIAL, labels);
            exists i, i' :: 0 <= i < i' < |s.rings.posted|
              && s.rings.posted[i].tok == s.batch.invoked[j].tok
              && s.rings.posted[i'].tok == s.batch.invoked[k].tok
  {
    Reached(labels);
    var s := Exec(INITIAL, labels);
    var i := InvokedFrom(s, j);
    var i' := InvokedFrom(s, k);
    if i' <= i {
      SelectedMono(s.rings.posted, s.batch.found, i', i);
    }
    assert s.rings.posted[i].tok == s.batch.invoked[j].tok;
    assert s.rings.posted[i'].tok == s.batch.invoked[k].tok;
  }

  lemma {:induction false} SelectedMono(posted: seq<Cqe>, found: seq<Option<Callback>>, i: nat, j: nat)
    requires |found| <= |posted| && i <= j <= |found|
    ensures |Selected(posted, found[..i])| <= |Selected(posted, found[..j])|
    decreases j - i
  {
    if i < j {
      SelectedMono(posted, found, i, j - 1);
      assert found[..j][..j - 1] == found[..j - 1];
    }
  }

  /** Everything posted stays posted, and the head of the ring only advances. */
  lemma {:induction false} Monotone(s: State, labels: seq<Label>)
    requires IsRun(s, labels)
    ensures var s' := Exec(s, labels);
            s.rings.posted <= s'.rings.posted && s.batch.head <= s'.batch.head
    decreases |labels|
  {
    if labels != [] {
      var k := |labels| - 1;
      Monotone(s, labels[..k]);
      MonotoneStep(Exec(s, labels[..k]), labels[k]);
    }
  }

  lemma MonotoneStep(s: State, l: Label)
    requires Enabled(s, l)
    ensures var s' := Apply(s, l);
            s.rings.posted <= s'.rings.posted && s.batch.head <= s'.batch.head
  {
    match l {
      case Call(a, c) => case Inside(a, c) => case Complete(t, r) =>
      case Loop(c) =>
        match c {
          case StartRun => case CheckExit => case RunLockSub => case Submit => case WaitOk => case WaitFail(_) =>
          case Peek => case RunLockCb => case HarvestOne => case HarvestEnd => case Invoke => case UserReturn =>
          case WakerRead(_) => case WakerExit => case LoopAgain =>
        }
    }
  }

  /** An operation added during a pass is not dispatched in that pass: as long as nothing new is
      harvested, what is invoked or waits for it was issued before. */
  lemma NotInSamePass(before: seq<Label>, during: seq<Label>)
    requires IsRun(INITIAL, before)
    requires IsRun(Exec(INITIAL, before), during)
    requires Exec(Exec(INITIAL, before), during).batch.head == Exec(INITIAL, before).batch.head
    ensures var s := Exec(INITIAL, before);
            var s' := Exec(s, during);
            forall v :: v in s'.batch.invoked || v in s'.batch.pending ==> v.tok < s.rings.next
  {
    var s := Exec(INITIAL, before);
    var s' := Exec(s, during);
    Reached(before);
    RunKeeps(s, during);
    Monotone(s, during);
    var all := s'.batch.invoked + s'.batch.pending;
    forall v | v in s'.batch.invoked || v in s'.batch.pending
      ensures v.tok < s.rings.next
    {
      assert v in all;
      var k :| 0 <= k < |all| && all[k] == v;
      var i := SelectedOrigin(s'.rings.posted, s'.batch.found, k);
      assert s.rings.posted[i] == s'.rings.posted[i];
      assert v.tok in Toks(s.rings.posted);
    }
  }

  // ---------------------------------------------------------------- the waker

  /** Whenever `run` is about to wait and the waker has not failed, exactly one poll is
      outstanding, in flight or posted, and the event counter is positive; so the wait can be
      satisfied, at the latest after the kernel completes that poll. */
  lemma WaitCanBeSatisfied(labels: seq<Label>)
    requires IsRun(INITIAL, labels)
    requires Exec(INITIAL, labels).threads.loop.Waiting? && !Exec(INITIAL, labels).pulse.down
    ensures PollOutstanding(Exec(INITIAL, labels)) && WaitEnds(Exec(INITIAL, labels))
  {
    Reached(labels);
    PollIsOutstanding(Exec(INITIAL, labels));
    WaitWillEnd(Exec(INITIAL, labels));
  }

  /** Exactly one poll of the waker is outstanding, in flight or posted, and the event counter is positive. */
  ghost predicate PollOutstanding(s: State) {
    && s.pulse.counter > 0
    && s.pulse.armed.Some?
    && (forall t :: t in s.rings.intent && s.rings.intent[t].cb == Some(Waker) && t !in InvokedToks(s.batch.invoked)
          <==> s.pulse.armed == Some(t))
    && (At(s, s.pulse.armed.value, InFlight) || At(s, s.pulse.armed.value, Posted))
  }

  /** The wait is satisfied, or it is when the kernel completes the poll, which it can. */
  ghost predicate WaitEnds(s: State) {
    || Enabled(s, Loop(WaitOk))
    || (s.pulse.armed.Some? &&
          var done := Complete(s.pulse.armed.value, Count(1));
          Enabled(s, done) && Enabled(Apply(s, done), Loop(WaitOk)))
  }

  lemma PollIsOutstanding(s: State)
    requires Inv(s) && s.threads.loop.Waiting? && !s.pulse.down
    ensures PollOutstanding(s)
  {
    var t := s.pulse.armed.value;
    InOnePlace(s, t);
    NotHarvestedYet(s);
    var p :| At(s, t, p);
    assert p.InFlight? || p.Posted?;
  }

  lemma WaitWillEnd(s: State)
    requires DispatchInv(s) && PollOutstanding(s) && s.threads.loop.Waiting?
    ensures WaitEnds(s)
  {
  }

  /** The outstanding poll is not harvested once its pass is over. */
  lemma NotHarvestedYet(s: State)
    requires Inv(s) && s.pulse.armed.Some? && s.batch.pending == []
    ensures !At(s, s.pulse.armed.value, Harvested)
  {
    var t, posted, found := s.pulse.armed.value, s.rings.posted, s.batch.found;
    forall i | 0 <= i < s.batch.head && i < |posted|
      ensures posted[i].tok != t
    {
      assert FoundRight(s.rings, found, s.table.cancelled, i);
      if found[i].Some? {
        SelectedAt(posted, found, i);
        var k := |Selected(posted, found[..i])|;
        assert (s.batch.invoked + s.batch.pending)[k].tok == posted[i].tok;
        assert s.batch.invoked[k].tok in InvokedToks(s.batch.invoked);
      }
    }
  }

  /** The blocking read in the callback of the waker always finds a positive counter. */
  lemma WakerReadNeverBlocks(labels: seq<Label>)
    requires IsRun(INITIAL, labels)
    requires Exec(INITIAL, labels).threads.loop.WakerFire?
    ensures Exec(INITIAL, labels).pulse.counter > 0
    ensures Enabled(Exec(INITIAL, labels), Loop(WakerRead(None)))
  {
    Reached(labels);
  }

  // ---------------------------------------------------------------- exit

  /** At the top of the loop `run` returns exactly if an exit was requested since it last did so;
      the result is the most recent error among those requests, and the next `run` starts
      fresh. */
  lemma ExitAtTop(labels: seq<Label>)
    requires IsRun(INITIAL, labels)
    requires Exec(INITIAL, labels).threads.loop.Top?
    ensures var s := Exec(INITIAL, labels);
            var s' := Apply(s, Loop(CheckExit));
            && (s'.threads.loop.Stopped? <==> s.ending.requests != [])
            && (s.ending.requests == [] ==> s'.threads.loop.WantSub? && s'.ending == s.ending)
            && (s.ending.requests != [] ==>
                  s'.ending == Ending(false, None, [], s.ending.returned + [LastError(s.ending.requests)]))
  {
    Reached(labels);
  }

  /** What a step makes `run` return: the last error of the requests, or success, when it finds requests at the top
      of the loop; the error of a failing wait. */
  function Returned(s: State, l: Label): seq<Option<int>> {
    match l
    case Loop(CheckExit) => if s.ending.requests == [] then [] else [LastError(s.ending.requests)]
    case Loop(WaitFail(e)) => [Some(e)]
    case _ => []
  }

  /** Over every run, `run` returns exactly at a check that finds a request or at a failing wait, with that result, and
      is entered exactly by a call of it; a failing wait leaves the requests for the next `run`. */
  lemma ReturnsExactlyWhen(labels: seq<Label>, l: Label)
    requires IsRun(INITIAL, labels) && Enabled(Exec(INITIAL, labels), l)
    ensures var s := Exec(INITIAL, labels);
            var s' := Apply(s, l);
            && s'.ending.returned == s.ending.returned + Returned(s, l)
            && (!s.threads.loop.Stopped? && s'.threads.loop.Stopped? <==> Returned(s, l) != [])
            && (s.threads.loop.Stopped? && !s'.threads.loop.Stopped? <==> l == Loop(StartRun))
            && (l.Loop? && l.loop.WaitFail? ==>
                  s'.ending.(returned := s.ending.returned) == s.ending && s'.batch == s.batch && s'.rings == s.rings)
  {
    Reached(labels);
    ReturnsStep(Exec(INITIAL, labels), l);
  }

  lemma ReturnsStep(s: State, l: Label)
    requires ExitInv(s) && Enabled(s, l)
    ensures var s' := Apply(s, l);
            && s'.ending.returned == s.ending.returned + Returned(s, l)
            && (!s.threads.loop.Stopped? && s'.threads.loop.Stopped? <==> Returned(s, l) != [])
            && (s.threads.loop.Stopped? && !s'.threads.loop.Stopped? <==> l == Loop(StartRun))
            && (l.Loop? && l.loop.WaitFail? ==>
                  s'.ending.(returned := s.ending.returned) == s.ending && s'.batch == s.batch && s'.rings == s.rings)
  {
    match l {
      case Call(a, c) => case Complete(t, r) =>
      case Inside(a, c) =>
        match c {
          case LockSub => case LockCb => case GetSqe => case WakeLoop => case StoreCb =>
          case DropCb => case DropSub => case CancelLock => case Erase =>
        }
      case Loop(c) =>
        match c {
          case StartRun => case CheckExit => case RunLockSub => case Submit => case WaitOk => case WaitFail(_) =>
          case Peek => case RunLockCb => case HarvestOne => case HarvestEnd => case Invoke => case UserReturn =>
          case WakerRead(_) => case WakerExit => case LoopAgain =>
        }
    }
  }

  /** A `run` that is entered does nothing before it has checked for requests: after `exit`, it returns at once. */
  lemma {:induction false} ChecksFirst(s: State, labels: seq<Label>)
    requires IsRun(s, labels) && labels != [] && labels[0] == Loop(StartRun) && Loop(CheckExit) !in labels
    ensures Exec(s, labels).threads.loop.Top?
    ensures forall i :: 0 < i < |labels| ==> !labels[i].Loop?
    decreases |labels|
  {
    var k := |labels| - 1;
    assert labels[k] in labels;
    if k > 0 {
      ChecksFirst(s, labels[..k]);
      StaysAtTop(Exec(s, labels[..k]), labels[k]);
    } else {
      assert labels[..0] == [];
    }
  }

  lemma StaysAtTop(s: State, l: Label)
    requires Enabled(s, l) && s.threads.loop.Top? && l != Loop(CheckExit)
    ensures !l.Loop? && Apply(s, l).threads.loop.Top?
  {
    match l {
      case Call(a, c) => case Complete(t, r) => case Loop(c) =>
      case Inside(a, c) =>
        match c {
          case LockSub => case LockCb => case GetSqe => case WakeLoop => case StoreCb =>
          case DropCb => case DropSub => case CancelLock => case Erase =>
        }
    }
  }

  /** No request is lost: whatever happens before the next check at the top of the loop, the
      requests made so far are still there, in order; and `run` returns only on a failing wait. */
  lemma {:induction false} RequestsStay(s: State, labels: seq<Label>)
    requires IsRun(s, labels)
    requires Loop(CheckExit) !in labels
    ensures s.ending.requests <= Exec(s, labels).ending.requests
    ensures s.ending.returned <= Exec(s, labels).ending.returned
    ensures (forall e :: Loop(WaitFail(e)) !in labels) ==> Exec(s, labels).ending.returned == s.ending.returned
    decreases |labels|
  {
    if labels != [] {
      var k := |labels| - 1;
      RequestsStay(s, labels[..k]);
      assert labels[k] in labels;
      RequestsStep(Exec(s, labels[..k]), labels[k]);
    }
  }

  lemma RequestsStep(s: State, l: Label)
    requires Enabled(s, l) && l != Loop(CheckExit)
    ensures var s' := Apply(s, l);
            && s.ending.requests <= s'.ending.requests && s.ending.returned <= s'.ending.returned
            && (!(l.Loop? && l.loop.WaitFail?) ==> s'.ending.returned == s.ending.returned)
  {
    match l {
      case Call(a, c) => case Inside(a, c) => case Complete(t, r) =>
      case Loop(c) =>
        match c {
          case StartRun => case RunLockSub => case Submit => case WaitOk => case WaitFail(_) =>
          case Peek => case RunLockCb => case HarvestOne => case HarvestEnd => case Invoke => case UserReturn =>
          case WakerRead(_) => case WakerExit => case LoopAgain =>
        }
    }
  }

  // ---------------------------------------------------------------- locks

  /** The actor of a step of a thread. */
  predicate StepOf(l: Label, a: Actor) {
    match l
    case Inside(b, _) => a == b
    case Loop(_) => a == RUN
    case _ => false
  }

  /** The locks cannot deadlock: whenever a mutex is held, some thread that holds one can make
      its next step. */
  lemma HolderCanStep(labels: seq<Label>) returns (a: Actor, l: Label)
    requires IsRun(INITIAL, labels)
    requires Exec(INITIAL, labels).threads.sub.Some? || Exec(INITIAL, labels).threads.cbs.Some?
    ensures var s := Exec(INITIAL, labels);
            && (s.threads.sub == Some(a) || s.threads.cbs == Some(a))
            && StepOf(l, a) && Enabled(s, l)
  {
    Reached(labels);
    var s := Exec(INITIAL, labels);
    var th := s.threads;
    if th.cbs.Some? {
      a := th.cbs.value;
      assert PcHoldsCb(PcAt(th.calls, a)) || (a == RUN && th.loop.Harvesting?);
      l := NextOf(s, a);
    } else {
      a := th.sub.value;
      assert PcHoldsSub(PcAt(th.calls, a)) || (a == RUN && th.loop.Submitting?);
      l := NextOf(s, a);
    }
  }

  lemma NextOf(s: State, a: Actor) returns (l: Label)
    requires Inv(s)
    requires PcHoldsCb(PcOf(s, a)) || (PcHoldsSub(PcOf(s, a)) && s.threads.cbs.None?)
          || (a == RUN && (s.threads.loop.Harvesting? || s.threads.loop.Submitting?))
    ensures StepOf(l, a) && Enabled(s, l)
  {
    match PcOf(s, a) {
      case AddWantCb(_) => l := Inside(a, LockCb);
      case AddGet(_) => l := Inside(a, GetSqe);
      case AddWake(_, _) => l := Inside(a, WakeLoop);
      case AddStore(_, _) => l := Inside(a, StoreCb);
      case AddDropCb(_) => l := Inside(a, DropCb);
      case AddDropSub(_) => l := Inside(a, DropSub);
      case CancelErase(_) => l := Inside(a, Erase);
      case _ =>
        if s.threads.loop.Submitting? {
          l := Loop(Submit);
        } else if s.batch.head < s.batch.end {
          l := Loop(HarvestOne);
        } else {
          l := Loop(HarvestEnd);
        }
    }
  }
}
