/** One vectored transfer, as a function of the replies of the kernel.

    The state is what a caller of `sync::read` or `sync::write` can observe: the bytes of the
    flattened buffers, the device behind the descriptor, the offset kept in the descriptor,
    the number of bytes done, the syscalls made so far and the returned value, if any.
    Both the blocking loops (module SyncIo) and the asynchronous state machine (modules
    AsyncOp and AsyncSystem) are proved against this definition. */
module Transfer {
  import opened Buffers
  import opened Conditions
  import opened Iovecs
  import opened Syscalls

  datatype Direction = Reading | Writing

  datatype Request = Request(dir: Direction, seekable: bool, bufs: seq<Buffer>, cond: Condition)

  /** A file, or one end of a stream. `pos` is the position the kernel keeps for a descriptor
      without an offset of its own; the bytes of a stream to be read are those its peer will
      ever send. */
  datatype Device = Device(bytes: seq<Byte>, pos: nat)

  datatype Outcome = Done(size: nat) | Failed(error: int)

  /** A syscall: its position argument (zero when the descriptor has none) and its iovecs. */
  datatype Call = Call(offset: nat, iov: seq<Buffer>)

  datatype Progress = Progress(
    view: seq<Byte>,
    dev: Device,
    offset: nat,
    done: nat,
    calls: seq<Call>,
    outcome: Option<Outcome>)

  function Size(req: Request): nat {
    TotalSize(req.bufs)
  }

  /** How many bytes the current syscall requests: the answer of the condition, in the form
      AskMeaning gives it. */
  function Wanted(req: Request, done: nat): nat {
    if done < Goal(req.cond, Size(req)) then Ceiling(req.cond, Size(req)) - done else 0
  }

  function CallFor(req: Request, offset: nat, done: nat): Call {
    Call(if req.seekable then offset else 0, IovecsOf(req.bufs, done, Wanted(req, done)))
  }

  /** The position of the next byte in the device. */
  function Position(req: Request, p: Progress): nat {
    if req.seekable then p.offset else p.dev.pos
  }

  // ---------------------------------------------------------------- the machine

  /** Either the condition is met and the transfer returns, or the next syscall is made. */
  function Issue(req: Request, p: Progress): Progress {
    if Wanted(req, p.done) == 0 then p.(outcome := Some(Done(p.done)))
    else p.(calls := p.calls + [CallFor(req, p.offset, p.done)])
  }

  function Start(req: Request, view: seq<Byte>, dev: Device, offset: nat): Progress {
    Issue(req, Progress(view, dev, offset, 0, [], None))
  }

  /** Either the transfer has returned, or its last syscall is the one its progress demands. */
  ghost predicate Sane(req: Request, p: Progress) {
    && |p.view| == Size(req)
    && p.done <= Ceiling(req.cond, Size(req))
    && (p.outcome.None? ==>
          && p.done < Goal(req.cond, Size(req))
          && p.calls != []
          && p.calls[|p.calls| - 1] == CallFor(req, p.offset, p.done))
  }

  /** The replies the kernel may give: an error, or a count of at most the bytes requested and,
      for a read, of at most the bytes there are. */
  ghost predicate Admissible(req: Request, p: Progress, r: Reply) {
    r.Count? ==>
      && r.n <= Wanted(req, p.done)
      && (req.dir.Reading? && r.n > 0 ==> Position(req, p) + r.n <= |p.dev.bytes|)
  }

  function Zeros(n: nat): seq<Byte> {
    seq(n, _ => 0)
  }

  /** A file after `data` was written at position `at`; a gap before it reads as zeros. */
  function Splice(file: seq<Byte>, at: nat, data: seq<Byte>): seq<Byte> {
    if data == [] then file
    else
      (if at <= |file| then file[..at] else file + Zeros(at - |file|))
      + data
      + (if at + |data| <= |file| then file[at + |data|..] else [])
  }

  /** The buffers after a read of `n` bytes at position `at`. */
  function Filled(view: seq<Byte>, done: nat, bytes: seq<Byte>, at: nat, n: nat): seq<Byte>
    requires done + n <= |view| && at + n <= |bytes|
  {
    view[..done] + bytes[at..at + n] + view[done + n..]
  }

  /** The device after a write of `n` bytes at position `at`. */
  function Written(view: seq<Byte>, done: nat, bytes: seq<Byte>, at: nat, n: nat): seq<Byte>
    requires done + n <= |view|
  {
    if n == 0 then bytes else Splice(bytes, at, view[done..done + n])
  }

  /** What the kernel does for a reply of `n` bytes: it moves them between the device and the
      buffers, starting where the transfer stands. */
  function Moved(req: Request, p: Progress, n: nat): Progress
    requires p.done + n <= |p.view|
    requires req.dir.Reading? && n > 0 ==> Position(req, p) + n <= |p.dev.bytes|
  {
    if n == 0 then p
    else
      var at := Position(req, p);
      var pos := if req.seekable then p.dev.pos else p.dev.pos + n;
      match req.dir
      case Reading =>
        p.(view := Filled(p.view, p.done, p.dev.bytes, at, n), dev := p.dev.(pos := pos))
      case Writing =>
        p.(dev := Device(Written(p.view, p.done, p.dev.bytes, at, n), pos))
  }

  /** What the library does with a reply: it returns an error, returns on end of file, or
      accounts for the bytes, advances the stored offset and goes around. */
  function Digest(req: Request, p: Progress, r: Reply): Progress {
    match r
    case Fail(e) => p.(outcome := Some(Failed(e)))
    case Count(n) =>
      if req.dir.Reading? && n == 0 then p.(outcome := Some(Done(p.done)))
      else
        Issue(req, p.(done := p.done + n, offset := if req.seekable then p.offset + n else p.offset))
  }

  function React(req: Request, p: Progress, r: Reply): Progress
    requires Sane(req, p) && p.outcome.None? && Admissible(req, p, r)
  {
    Digest(req, if r.Count? then Moved(req, p, r.n) else p, r)
  }

  /** The progress after a sequence of replies. */
  ghost function After(req: Request, p0: Progress, replies: seq<Reply>): (p: Progress)
    requires Sane(req, p0) && Conforms(req, p0, replies)
    ensures Sane(req, p)
    decreases |replies|, 1
  {
    if replies == [] then p0
    else
      var k := |replies| - 1;
      var p := After(req, p0, replies[..k]);
      ReactIsSane(req, p, replies[k]);
      React(req, p, replies[k])
  }

  /** Each reply answers a syscall that was really made, and is one the kernel may give. */
  ghost predicate Conforms(req: Request, p0: Progress, replies: seq<Reply>)
    requires Sane(req, p0)
    decreases |replies|, 0
  {
    replies == [] ||
    var k := |replies| - 1;
    && Conforms(req, p0, replies[..k])
    && var p := After(req, p0, replies[..k]);
       p.outcome.None? && Admissible(req, p, replies[k])
  }

  /** The progress right after the call of the library: nothing done yet. */
  ghost predicate Fresh(req: Request, p: Progress) {
    && |p.view| == Size(req)
    && p == Start(req, p.view, p.dev, p.offset)
  }

  lemma FreshIsSane(req: Request, p: Progress)
    requires Fresh(req, p)
    ensures Sane(req, p) && p.done == 0
  {
  }

  /** A run: a fresh transfer and replies the kernel may give to it. */
  ghost predicate IsRun(req: Request, p0: Progress, replies: seq<Reply>) {
    && Fresh(req, p0)
    && Sane(req, p0)
    && Conforms(req, p0, replies)
  }

  lemma ReactIsSane(req: Request, p: Progress, r: Reply)
    requires Sane(req, p) && p.outcome.None? && Admissible(req, p, r)
    ensures Sane(req, React(req, p, r))
  {
  }

  /** Whether a reply ends the transfer by itself. */
  predicate Ends(req: Request, r: Reply) {
    r.Fail? || (req.dir.Reading? && r.n == 0)
  }

  /** What a reply does to everything but the list of syscalls and the outcome. */
  lemma ReactMoves(req: Request, p: Progress, r: Reply)
    requires Sane(req, p) && p.outcome.None? && Admissible(req, p, r)
    ensures var q := React(req, p, r);
            if Ends(req, r) then
              q.view == p.view && q.dev == p.dev && q.offset == p.offset && q.done == p.done
            else
              && p.done + r.n <= |p.view|
              && q.view == Moved(req, p, r.n).view
              && q.dev == Moved(req, p, r.n).dev
              && q.done == p.done + r.n
              && q.offset == (if req.seekable then p.offset + r.n else p.offset)
  {
  }

  /** What a reply does to the list of syscalls and the outcome. */
  lemma ReactReturns(req: Request, p: Progress, r: Reply)
    requires Sane(req, p) && p.outcome.None? && Admissible(req, p, r)
    ensures var q := React(req, p, r);
            && p.calls <= q.calls
            && (r.Fail? ==> q.outcome == Some(Failed(r.error)))
            && (r.Count? && Ends(req, r) ==> q.outcome == Some(Done(p.done)))
            && (!Ends(req, r) ==>
                  q.outcome == if p.done + r.n < Goal(req.cond, Size(req)) then None
                               else Some(Done(p.done + r.n)))
  {
  }

  // ---------------------------------------------------------------- the syscalls

  /** The bytes acknowledged by a sequence of replies. */
  function Total(replies: seq<Reply>): nat {
    if replies == [] then 0
    else
      var k := |replies| - 1;
      Total(replies[..k]) + (if replies[k].Count? then replies[k].n else 0)
  }

  /** The bytes done are the bytes acknowledged, the stored offset has moved by as many, and
      there is one syscall per reply, and one more while the transfer is waiting. */
  ghost predicate Accounts(req: Request, p0: Progress, replies: seq<Reply>, p: Progress) {
    && p.done == Total(replies)
    && p.offset == (if req.seekable then p0.offset + p.done else p0.offset)
    && |p.calls| == |replies| + (if p.outcome.None? then 1 else 0)
  }

  lemma AccountsStep(req: Request, p0: Progress, replies: seq<Reply>, p: Progress, r: Reply)
    requires Accounts(req, p0, replies, p)
    requires Sane(req, p) && p.outcome.None? && Admissible(req, p, r)
    ensures Accounts(req, p0, replies + [r], React(req, p, r))
  {
    assert (replies + [r])[..|replies|] == replies;
    ReactMoves(req, p, r);
  }

  lemma {:induction false} Accounting(req: Request, p0: Progress, replies: seq<Reply>)
    requires IsRun(req, p0, replies)
    ensures Accounts(req, p0, replies, After(req, p0, replies))
    decreases |replies|
  {
    FreshIsSane(req, p0);
    if replies != [] {
      var k := |replies| - 1;
      Accounting(req, p0, replies[..k]);
      AccountsStep(req, p0, replies[..k], After(req, p0, replies[..k]), replies[k]);
      assert replies[..k] + [replies[k]] == replies;
    }
  }

  /** Before its last reply a run was waiting, and that reply revises no syscall. */
  lemma BeforeLast(req: Request, p0: Progress, replies: seq<Reply>)
    requires IsRun(req, p0, replies) && replies != []
    ensures var k := |replies| - 1;
            && IsRun(req, p0, replies[..k])
            && After(req, p0, replies[..k]).outcome.None?
            && After(req, p0, replies[..k]).calls <= After(req, p0, replies).calls
  {
    var k := |replies| - 1;
    ReactReturns(req, After(req, p0, replies[..k]), replies[k]);
  }

  /** The syscalls made so far are never revised. */
  lemma {:induction false} CallsGrow(req: Request, p0: Progress, replies: seq<Reply>, i: nat)
    requires IsRun(req, p0, replies) && i <= |replies|
    ensures IsRun(req, p0, replies[..i])
    ensures After(req, p0, replies[..i]).calls <= After(req, p0, replies).calls
    ensures i < |replies| ==> After(req, p0, replies[..i]).outcome.None?
    decreases |replies|
  {
    if i == |replies| {
      assert replies[..i] == replies;
    } else {
      var shorter := replies[..|replies| - 1];
      BeforeLast(req, p0, replies);
      assert shorter[..i] == replies[..i];
      CallsGrow(req, p0, shorter, i);
    }
  }

  /** Every syscall asks, at the next position, for the flattened buffers from the bytes already
      done up to the ceiling of the condition: at least one byte, without an empty iovec. So a
      read of zero bytes can only mean end of file. */
  lemma SyscallsCoverTheRest(req: Request, p0: Progress, replies: seq<Reply>, i: nat)
    requires IsRun(req, p0, replies) && i <= |replies|
    requires i < |After(req, p0, replies).calls|
    ensures var done, top := Total(replies[..i]), Ceiling(req.cond, Size(req));
            var c := After(req, p0, replies).calls[i];
            && done < top <= |Addrs(req.bufs)| == Size(req)
            && c.offset == (if req.seekable then p0.offset + done else 0)
            && Addrs(c.iov) == Addrs(req.bufs)[done..top]
            && |c.iov| <= |req.bufs|
            && forall v :: v in c.iov ==> v.len > 0
  {
    CallsGrow(req, p0, replies, i);
    Accounting(req, p0, replies[..i]);
    Accounting(req, p0, replies);
    if i == |replies| {
      assert replies[..i] == replies;
    }
    var q := After(req, p0, replies[..i]);
    assert q.outcome.None? && q.calls[i] == CallFor(req, q.offset, q.done);
    CallMeaning(req, q.offset, q.done);
  }

  /** In numbers, for each condition: a syscall is made only while bytes are missing, to the very end of the buffers,
      or,
      for `transfer_exactly(n)`, to the end of the first `n` bytes. */
  lemma SyscallsInNumbers(req: Request, p0: Progress, replies: seq<Reply>, i: nat)
    requires IsRun(req, p0, replies) && i <= |replies|
    requires i < |After(req, p0, replies).calls|
    ensures var flat, done := Addrs(req.bufs), Total(replies[..i]);
            var asked := Addrs(After(req, p0, replies).calls[i].iov);
            && done < |flat|
            && match req.cond
               case TransferAll => asked == flat[done..]
               case TransferAtLeast(n) => done < n && asked == flat[done..]
               case TransferExactly(n) => done < n && asked == flat[done..if n < |flat| then n else |flat|]
  {
    SyscallsCoverTheRest(req, p0, replies, i);
    CallsGrow(req, p0, replies, i);
    Accounting(req, p0, replies[..i]);
    Accounting(req, p0, replies);
    if i == |replies| {
      assert replies[..i] == replies;
    }
  }

  lemma CallMeaning(req: Request, offset: nat, done: nat)
    requires done < Goal(req.cond, Size(req))
    ensures var top := Ceiling(req.cond, Size(req));
            var c := CallFor(req, offset, done);
            && done < top <= |Addrs(req.bufs)| == Size(req)
            && c.offset == (if req.seekable then offset else 0)
            && Addrs(c.iov) == Addrs(req.bufs)[done..top]
            && |c.iov| <= |req.bufs|
            && forall v :: v in c.iov ==> v.len > 0
  {
    FlatSize(req.bufs);
    IovecsCoverWindow(req.bufs, done, Wanted(req, done));
    IovecsShape(req.bufs, done, Wanted(req, done));
  }

  /** The window the kernel fills or drains is the next part of the flattened buffers. */
  lemma WindowOfCall(req: Request, done: nat, n: nat, bound: nat)
    requires 0 < Wanted(req, done) && n <= Wanted(req, done)
    requires InBounds(Addrs(req.bufs), bound)
    ensures var iov := IovecsOf(req.bufs, done, Wanted(req, done));
            && done + n <= |Addrs(req.bufs)| == Size(req) && |Addrs(iov)| == Wanted(req, done)
            && Addrs(iov)[..n] == Addrs(req.bufs)[done..done + n]
            && InBounds(Addrs(iov), bound)
  {
    var flat, wanted := Addrs(req.bufs), Wanted(req, done);
    FlatSize(req.bufs);
    IovecsCoverWindow(req.bufs, done, wanted);
    PartOfWindow(flat, done, done + wanted, n, bound);
  }

  lemma PartOfWindow(flat: seq<nat>, lo: nat, hi: nat, n: nat, bound: nat)
    requires lo <= lo + n <= hi <= |flat| && InBounds(flat, bound)
    ensures flat[lo..hi][..n] == flat[lo..lo + n] && InBounds(flat[lo..hi], bound)
  {
  }

  /** Storing the next bytes of a device at the next part of a view fills that part. */
  lemma FillInside(flat: seq<nat>, done: nat, n: nat, before: seq<Byte>, bytes: seq<Byte>, at: nat)
    requires at + n <= |bytes| && done + n <= |flat|
    requires InBounds(flat, |before|) && Distinct(flat)
    ensures var after := Scatter(before, flat[done..done + n], bytes[at..at + n]);
            Gather(after, flat) == Filled(Gather(before, flat), done, bytes, at, n)
  {
    ScatterWindow(before, flat, done, done + n, bytes[at..at + n]);
  }

  /** The same, for any name of the window that is filled. */
  lemma FillThrough(mem: seq<Byte>, flat: seq<nat>, window: seq<nat>, done: nat, n: nat, bytes: seq<Byte>, at: nat)
    requires at + n <= |bytes| && done + n <= |flat| && window == flat[done..done + n]
    requires InBounds(flat, |mem|) && Distinct(flat)
    ensures InBounds(window, |mem|)
    ensures Gather(Scatter(mem, window, bytes[at..at + n]), flat) == Filled(Gather(mem, flat), done, bytes, at, n)
  {
    FillInside(flat, done, n, mem, bytes, at);
  }

  /** It changes nothing outside of the view. */
  lemma FillWindow(flat: seq<nat>, done: nat, n: nat, before: seq<Byte>, bytes: seq<Byte>, at: nat)
    requires at + n <= |bytes| && done + n <= |flat|
    requires InBounds(flat, |before|) && Distinct(flat)
    ensures var after := Scatter(before, flat[done..done + n], bytes[at..at + n]);
            && Gather(after, flat) == Filled(Gather(before, flat), done, bytes, at, n)
            && forall a :: 0 <= a < |before| && a !in flat ==> after[a] == before[a]
  {
    FillInside(flat, done, n, before, bytes, at);
    ScatterOutside(before, flat, done, done + n, bytes[at..at + n]);
  }

  /** Storing the next part of a view in the device. */
  lemma DrainThrough(mem: seq<Byte>, flat: seq<nat>, window: seq<nat>, done: nat, n: nat, bytes: seq<Byte>, at: nat)
    requires done + n <= |flat| && window == flat[done..done + n] && InBounds(flat, |mem|)
    ensures InBounds(window, |mem|)
    ensures Splice(bytes, at, Gather(mem, window)) == Written(Gather(mem, flat), done, bytes, at, n)
  {
    GatherPart(mem, flat, done, done + n);
  }

  /** The replies that make a write go around without progress. */
  function Stalls(req: Request, replies: seq<Reply>): nat {
    if replies == [] then 0
    else
      var k := |replies| - 1;
      Stalls(req, replies[..k]) + (if req.dir.Writing? && replies[k] == Count(0) then 1 else 0)
  }

  /** While a transfer waits, every syscall that was answered moved a byte or was a stall. */
  ghost predicate Busy(p: Progress, answered: nat, stalls: nat) {
    p.outcome.None? ==> answered <= p.done + stalls
  }

  lemma BusyStep(req: Request, p: Progress, answered: nat, stalls: nat, r: Reply)
    requires Sane(req, p) && p.outcome.None? && Admissible(req, p, r) && Busy(p, answered, stalls)
    ensures Busy(React(req, p, r), answered + 1, stalls + (if req.dir.Writing? && r == Count(0) then 1 else 0))
    ensures answered <= Size(req) + stalls
  {
    ReactMoves(req, p, r);
    ReactReturns(req, p, r);
  }

  lemma {:induction false} StaysBusy(req: Request, p0: Progress, replies: seq<Reply>)
    requires IsRun(req, p0, replies)
    ensures Busy(After(req, p0, replies), |replies|, Stalls(req, replies))
    ensures |replies| <= Size(req) + Stalls(req, replies) + 1
    decreases |replies|
  {
    FreshIsSane(req, p0);
    if replies != [] {
      var k := |replies| - 1;
      StaysBusy(req, p0, replies[..k]);
      BusyStep(req, After(req, p0, replies[..k]), k, Stalls(req, replies[..k]), replies[k]);
    }
  }

  /** The number of syscalls is at most the size of the buffers plus one, plus the zero counts
      a write was answered with. */
  lemma SyscallBound(req: Request, p0: Progress, replies: seq<Reply>)
    requires IsRun(req, p0, replies)
    ensures var p := After(req, p0, replies);
            && |p.calls| <= Size(req) + Stalls(req, replies) + 1
            && (p.outcome.None? ==> |replies| <= p.done + Stalls(req, replies))
  {
    Accounting(req, p0, replies);
    StaysBusy(req, p0, replies);
  }

  function Ones(n: nat): seq<Reply> {
    seq(n, _ => Count(1))
  }

  /** The bound is tight but for one: a kernel that moves one byte at a time, which it may, makes as many syscalls as
      there are
      bytes, and everything is transferred. */
  lemma {:induction false} ByteByByte(req: Request, p0: Progress, k: nat)
    requires Fresh(req, p0) && Sane(req, p0) && req.cond.TransferAll? && k <= Size(req)
    requires req.dir.Reading? ==> Position(req, p0) + Size(req) <= |p0.dev.bytes|
    ensures IsRun(req, p0, Ones(k))
    ensures var p := After(req, p0, Ones(k));
            && p.done == k && Position(req, p) == Position(req, p0) + k && |p.dev.bytes| >= |p0.dev.bytes|
            && p.outcome == (if k < Size(req) then None else Some(Done(k)))
            && |p.calls| == (if k < Size(req) then k + 1 else k)
    decreases k
  {
    if k > 0 {
      ByteByByte(req, p0, k - 1);
      assert Ones(k)[..k - 1] == Ones(k - 1);
      OneByte(req, After(req, p0, Ones(k - 1)));
    }
  }

  lemma OneByte(req: Request, p: Progress)
    requires Sane(req, p) && p.outcome.None? && req.cond.TransferAll?
    requires req.dir.Reading? ==> Position(req, p) + 1 <= |p.dev.bytes|
    ensures Admissible(req, p, Count(1))
    ensures var q := React(req, p, Count(1));
            && q.done == p.done + 1 && Position(req, q) == Position(req, p) + 1 && |q.dev.bytes| >= |p.dev.bytes|
            && q.outcome == (if q.done < Size(req) then None else Some(Done(q.done)))
            && |q.calls| == |p.calls| + (if q.done < Size(req) then 1 else 0)
  {
    ReactMoves(req, p, Count(1));
    ReactReturns(req, p, Count(1));
  }

  // ---------------------------------------------------------------- the bytes

  /** One more part of a view is filled from the next bytes. */
  lemma FilledFurther(view0: seq<Byte>, view: seq<Byte>, d: nat, bytes: seq<Byte>, at: nat, n: nat)
    requires d + n <= |view| == |view0| && at + d + n <= |bytes|
    requires view[..d] == bytes[at..at + d] && view[d..] == view0[d..]
    ensures Filled(view, d, bytes, at + d, n)[..d + n] == bytes[at..at + d + n]
    ensures Filled(view, d, bytes, at + d, n)[d + n..] == view0[d + n..]
  {
    var q := Filled(view, d, bytes, at + d, n);
    assert q[..d + n] == view[..d] + bytes[at + d..at + d + n];
    assert q[d + n..] == view[d..][n..] == view0[d..][n..];
  }

  /** What is true of the bytes of a view once its first `done` bytes were read from position `at`. */
  predicate FilledSoFar(view0: seq<Byte>, view: seq<Byte>, done: nat, bytes: seq<Byte>, at: nat) {
    && done <= |view| == |view0|
    && (done > 0 ==> at + done <= |bytes| && view[..done] == bytes[at..at + done])
    && view[done..] == view0[done..]
  }

  /** What is true of the bytes at any point of a read. */
  ghost predicate ReadSoFar(req: Request, p0: Progress, p: Progress) {
    && p.dev.bytes == p0.dev.bytes
    && Position(req, p) == Position(req, p0) + p.done
    && FilledSoFar(p0.view, p.view, p.done, p0.dev.bytes, Position(req, p0))
  }

  lemma MoreFilled(view0: seq<Byte>, view: seq<Byte>, d: nat, bytes: seq<Byte>, at: nat, n: nat)
    requires FilledSoFar(view0, view, d, bytes, at)
    requires 0 < n && d + n <= |view| && at + d + n <= |bytes|
    ensures FilledSoFar(view0, Filled(view, d, bytes, at + d, n), d + n, bytes, at)
  {
    FilledFurther(view0, view, d, bytes, at, n);
  }

  lemma MoreRead(req: Request, p0: Progress, p: Progress, n: nat, q: Progress)
    requires req.dir.Reading? && ReadSoFar(req, p0, p)
    requires n > 0 && p.done + n <= |p.view|
    requires Position(req, p) + n <= |p.dev.bytes|
    requires q.view == Moved(req, p, n).view && q.dev == Moved(req, p, n).dev
    requires q.done == p.done + n && q.offset == (if req.seekable then p.offset + n else p.offset)
    ensures ReadSoFar(req, p0, q)
  {
    MoreFilled(p0.view, p.view, p.done, p.dev.bytes, Position(req, p0), n);
  }

  lemma ReadStep(req: Request, p0: Progress, p: Progress, r: Reply)
    requires req.dir.Reading? && ReadSoFar(req, p0, p)
    requires Sane(req, p) && p.outcome.None? && Admissible(req, p, r)
    ensures ReadSoFar(req, p0, React(req, p, r))
  {
    ReactMoves(req, p, r);
    if !Ends(req, r) {
      MoreRead(req, p0, p, r.n, React(req, p, r));
    }
  }

  /** After any number of replies to a read, also when the last one is an error, the first
      `done` bytes of the buffers are the bytes of the device from the starting position on, the
      other bytes are untouched, and the device still holds what it held. */
  lemma {:induction false} ReadPrefix(req: Request, p0: Progress, replies: seq<Reply>)
    requires req.dir.Reading? && IsRun(req, p0, replies)
    ensures ReadSoFar(req, p0, After(req, p0, replies))
    decreases |replies|
  {
    FreshIsSane(req, p0);
    if replies != [] {
      var k := |replies| - 1;
      ReadPrefix(req, p0, replies[..k]);
      ReadStep(req, p0, After(req, p0, replies[..k]), replies[k]);
    }
  }

  /** What is true of the bytes at any point of a write. */
  ghost predicate WrittenSoFar(req: Request, p0: Progress, p: Progress) {
    && p.view == p0.view
    && p.done <= |p.view|
    && p.dev.bytes == Splice(p0.dev.bytes, Position(req, p0), p0.view[..p.done])
    && Position(req, p) == Position(req, p0) + p.done
  }

  /** One more part of a view is written behind the part written before. */
  lemma WrittenFurther(view: seq<Byte>, d: nat, bytes: seq<Byte>, at: nat, n: nat)
    requires 0 < n && d + n <= |view|
    ensures Written(view, d, Splice(bytes, at, view[..d]), at + d, n) == Splice(bytes, at, view[..d + n])
  {
    SpliceTwice(bytes, at, view[..d], view[d..d + n]);
    assert view[..d] + view[d..d + n] == view[..d + n];
  }

  lemma MoreWritten(req: Request, p0: Progress, p: Progress, n: nat, q: Progress)
    requires req.dir.Writing? && WrittenSoFar(req, p0, p)
    requires n > 0 && p.done + n <= |p.view|
    requires q.view == Moved(req, p, n).view && q.dev == Moved(req, p, n).dev
    requires q.done == p.done + n && q.offset == (if req.seekable then p.offset + n else p.offset)
    ensures WrittenSoFar(req, p0, q)
  {
    var at := Position(req, p0);
    WrittenFurther(p0.view, p.done, p0.dev.bytes, at, n);
    assert q.dev.bytes == Written(p.view, p.done, p.dev.bytes, at + p.done, n);
  }

  lemma WriteStep(req: Request, p0: Progress, p: Progress, r: Reply)
    requires req.dir.Writing? && WrittenSoFar(req, p0, p)
    requires Sane(req, p) && p.outcome.None? && Admissible(req, p, r)
    ensures WrittenSoFar(req, p0, React(req, p, r))
  {
    ReactMoves(req, p, r);
    if r.Count? && r.n > 0 {
      MoreWritten(req, p0, p, r.n, React(req, p, r));
    }
  }

  /** After any number of replies to a write, also when the last one is an error, the device is
      the old one with the first `done` bytes of the buffers written at the starting position,
      and the buffers are untouched. */
  lemma {:induction false} WritePrefix(req: Request, p0: Progress, replies: seq<Reply>)
    requires req.dir.Writing? && IsRun(req, p0, replies)
    ensures WrittenSoFar(req, p0, After(req, p0, replies))
    decreases |replies|
  {
    FreshIsSane(req, p0);
    if replies != [] {
      var k := |replies| - 1;
      WritePrefix(req, p0, replies[..k]);
      WriteStep(req, p0, After(req, p0, replies[..k]), replies[k]);
    }
  }

  /** Two adjacent writes are one write of the concatenation. */
  lemma SpliceTwice(file: seq<Byte>, at: nat, a: seq<Byte>, b: seq<Byte>)
    ensures Splice(Splice(file, at, a), at + |a|, b) == Splice(file, at, a + b)
  {
    if a == [] {
      assert a + b == b;
    } else if b == [] {
      assert a + b == a;
    } else {
      var one := Splice(file, at, a);
      assert one[..at + |a|] == (if at <= |file| then file[..at] else file + Zeros(at - |file|)) + a;
      if at + |a| + |b| <= |one| {
        assert one[at + |a| + |b|..] == file[at + |a| + |b|..];
      }
    }
  }

  /** What a splice means byte by byte: the range holds the data, every other byte the file had
      is unchanged, and the file grows only as far as the range reaches. */
  lemma SpliceBytes(file: seq<Byte>, at: nat, data: seq<Byte>)
    requires data != []
    ensures var f := Splice(file, at, data);
            && |f| == (if at + |data| <= |file| then |file| else at + |data|)
            && f[at..at + |data|] == data
            && (forall i :: 0 <= i < |file| && !(at <= i < at + |data|) ==> f[i] == file[i])
            && (forall i :: |file| <= i < at ==> f[i] == 0)
  {
  }

  // ---------------------------------------------------------------- the result

  /** The result of a transfer whose last reply is `last`, if it was answered at all. */
  predicate Returns(req: Request, p: Progress, last: Option<Reply>) {
    p.outcome.Some? ==>
      match p.outcome.value
      case Failed(e) => last == Some(Fail(e))
      case Done(size) =>
        && size == p.done <= Ceiling(req.cond, Size(req))
        && (last.Some? ==> last.value.Count?)
        && (size < Goal(req.cond, Size(req)) <==> req.dir.Reading? && last == Some(Count(0)))
  }

  lemma StartReturns(req: Request, p0: Progress)
    requires Fresh(req, p0)
    ensures Returns(req, p0, None)
  {
  }

  lemma ReactResult(req: Request, p: Progress, r: Reply)
    requires Sane(req, p) && p.outcome.None? && Admissible(req, p, r)
    ensures Returns(req, React(req, p, r), Some(r))
  {
    ReactMoves(req, p, r);
    ReactReturns(req, p, r);
  }

  lemma LastReplyReturns(req: Request, p0: Progress, replies: seq<Reply>)
    requires IsRun(req, p0, replies)
    ensures Returns(req, After(req, p0, replies), if replies == [] then None else Some(replies[|replies| - 1]))
  {
    if replies == [] {
      StartReturns(req, p0);
    } else {
      var k := |replies| - 1;
      ReactResult(req, After(req, p0, replies[..k]), replies[k]);
    }
  }

  /** A transfer that did not fail was answered with counts only. */
  lemma NoFailure(req: Request, p0: Progress, replies: seq<Reply>)
    requires IsRun(req, p0, replies)
    requires After(req, p0, replies).outcome.Some? ==> After(req, p0, replies).outcome.value.Done?
    ensures forall r :: r in replies ==> r.Count?
  {
    LastReplyReturns(req, p0, replies);
    if After(req, p0, replies).outcome.None? {
      OnlyCountsGoOn(req, p0, replies);
    } else if replies != [] {
      OnlyCountsGoOn(req, p0, replies[..|replies| - 1]);
    }
  }

  /** Errors are passed on; otherwise the returned size is the number of bytes done, and it is
      between goal and ceiling of the condition, except for a read that met a zero count. */
  lemma ReturnedSize(req: Request, p0: Progress, replies: seq<Reply>)
    requires IsRun(req, p0, replies)
    ensures var p := After(req, p0, replies);
            p.outcome.Some? ==>
              match p.outcome.value
              case Failed(e) => replies != [] && replies[|replies| - 1] == Fail(e)
              case Done(size) =>
                && size == p.done == Total(replies)
                && (forall r :: r in replies ==> r.Count?)
                && size <= Ceiling(req.cond, Size(req))
                && (size < Goal(req.cond, Size(req)) <==>
                      req.dir.Reading? && replies != [] && replies[|replies| - 1] == Count(0))
  {
    Accounting(req, p0, replies);
    LastReplyReturns(req, p0, replies);
    var o := After(req, p0, replies).outcome;
    if o.Some? && o.value.Done? {
      NoFailure(req, p0, replies);
    }
  }

  /** In numbers, for each condition: a success is never more than the buffers hold, or than the `n` bytes that were
      asked
      for exactly; and it is less than all, or than `n` bytes and all, exactly for a read that met a zero count. */
  lemma ResultInNumbers(req: Request, p0: Progress, replies: seq<Reply>)
    requires IsRun(req, p0, replies)
    requires After(req, p0, replies).outcome.Some? && After(req, p0, replies).outcome.value.Done?
    ensures var whole, size := |Addrs(req.bufs)|, After(req, p0, replies).outcome.value.size;
            var short := req.dir.Reading? && replies != [] && replies[|replies| - 1] == Count(0);
            && size == Total(replies) <= whole
            && match req.cond
               case TransferAll => size < whole <==> short
               case TransferAtLeast(n) => (size < n && size < whole <==> short) && (n == 0 ==> size == 0)
               case TransferExactly(n) => size <= n && (size < n && size < whole <==> short)
  {
    ReturnedSize(req, p0, replies);
    FlatSize(req.bufs);
  }

  lemma {:induction false} OnlyCountsGoOn(req: Request, p0: Progress, replies: seq<Reply>)
    requires Sane(req, p0) && Conforms(req, p0, replies)
    requires After(req, p0, replies).outcome.None?
    ensures forall r :: r in replies ==> r.Count?
    decreases |replies|
  {
    if replies != [] {
      OnlyCountsGoOn(req, p0, replies[..|replies| - 1]);
    }
  }

  /** A kernel that answers a read with zero only when nothing is left at its position. */
  ghost predicate HonestEof(req: Request, p0: Progress, replies: seq<Reply>)
    requires Sane(req, p0) && Conforms(req, p0, replies)
    decreases |replies|
  {
    replies == [] ||
    var k := |replies| - 1;
    && HonestEof(req, p0, replies[..k])
    && (req.dir.Reading? && replies[k] == Count(0) ==>
          var p := After(req, p0, replies[..k]);
          Position(req, p) >= |p.dev.bytes|)
  }

  function Available(dev: Device, at: nat): nat {
    if at <= |dev.bytes| then |dev.bytes| - at else 0
  }

  /** With such a kernel an error-free read returns exactly what the condition and the
      device allow: less than the goal only at end of file. */
  lemma ReadReturnsWhatThereIs(req: Request, p0: Progress, replies: seq<Reply>)
    requires req.dir.Reading? && IsRun(req, p0, replies)
    requires HonestEof(req, p0, replies)
    ensures var p := After(req, p0, replies);
            var there := Available(p0.dev, Position(req, p0));
            p.outcome.Some? && p.outcome.value.Done? ==>
              Min(Goal(req.cond, Size(req)), there) <= p.outcome.value.size
              <= Min(Ceiling(req.cond, Size(req)), there)
  {
    ReturnedSize(req, p0, replies);
    ReadPrefix(req, p0, replies);
    if replies != [] {
      ReadPrefix(req, p0, replies[..|replies| - 1]);
    }
  }

  // ---------------------------------------------------------------- the round trip

  /** Writing a buffer sequence with `transfer_all` and reading the same range back with
      `transfer_all` into any other segmentation of the same size restores the bytes, for
      every error-free sequence of short counts. The reader starts where the writer started: a
      file after a seek back, or the other end of a pipe. */
  lemma RoundTrip(w: Request, w0: Progress, wrote: seq<Reply>, r: Request, r0: Progress, got: seq<Reply>)
    requires w.dir.Writing? && w.cond.TransferAll? && IsRun(w, w0, wrote)
    requires r.dir.Reading? && r.cond.TransferAll? && IsRun(r, r0, got)
    requires HonestEof(r, r0, got)
    requires Size(r) == Size(w)
    requires After(w, w0, wrote).outcome.Some? && After(w, w0, wrote).outcome.value.Done?
    requires r0.dev.bytes == After(w, w0, wrote).dev.bytes
    requires Position(r, r0) == Position(w, w0)
    requires After(r, r0, got).outcome.Some? && After(r, r0, got).outcome.value.Done?
    ensures After(r, r0, got).outcome.value == Done(Size(w))
    ensures After(r, r0, got).view == w0.view
  {
    AllWritten(w, w0, wrote);
    AllReadBack(r, r0, got, w0.view);
  }

  /** A write of everything leaves all bytes at the starting position. */
  lemma AllWritten(w: Request, w0: Progress, wrote: seq<Reply>)
    requires w.dir.Writing? && w.cond.TransferAll? && IsRun(w, w0, wrote)
    requires After(w, w0, wrote).outcome.Some? && After(w, w0, wrote).outcome.value.Done?
    ensures Holds(After(w, w0, wrote).dev.bytes, Position(w, w0), w0.view) && |w0.view| == Size(w)
  {
    ReturnedSize(w, w0, wrote);
    WritePrefix(w, w0, wrote);
    assert w0.view[..|w0.view|] == w0.view;
    if w0.view != [] {
      SpliceBytes(w0.dev.bytes, Position(w, w0), w0.view);
    }
  }

  predicate Holds(bytes: seq<Byte>, at: nat, data: seq<Byte>) {
    data != [] ==> at + |data| <= |bytes| && bytes[at..at + |data|] == data
  }

  /** A read of everything from a device that holds enough returns all of it. */
  lemma AllReadBack(r: Request, r0: Progress, got: seq<Reply>, data: seq<Byte>)
    requires r.dir.Reading? && r.cond.TransferAll? && IsRun(r, r0, got) && HonestEof(r, r0, got)
    requires Size(r) == |data| && Holds(r0.dev.bytes, Position(r, r0), data)
    requires After(r, r0, got).outcome.Some? && After(r, r0, got).outcome.value.Done?
    ensures After(r, r0, got).outcome.value == Done(|data|) && After(r, r0, got).view == data
  {
    ReadReturnsWhatThereIs(r, r0, got);
    ReturnedSize(r, r0, got);
    ReadPrefix(r, r0, got);
    var p := After(r, r0, got);
    assert p.view[..|data|] == p.view;
  }
}
