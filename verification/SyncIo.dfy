/** `ark/io/sync.hpp` and the stored offset of `ark/io/fd.hpp`: the blocking transfer loops,
    working in place on memory, on the descriptor and on the device behind it. */
module SyncIo {
  import opened Buffers
  import opened Conditions
  import opened Iovecs
  import opened Syscalls
  import opened Transfer

  /** `fd` and `seekable_fd`: only the latter uses its offset. */
  class Descriptor {
    const seekable: bool
    var offset: nat

    constructor (seekable: bool)
      ensures this.seekable == seekable && offset == 0
    {
      this.seekable := seekable;
      offset := 0;
    }

    method Seek(off: nat)
      modifies this`offset
      ensures offset == off
    {
      offset := off;
    }

    method Feed(n: nat)
      modifies this`offset
      ensures offset == old(offset) + n
    {
      Seek(offset + n);
    }
  }

  /** The kernel's side of a descriptor. Its two operations are the assumed effect of readv and
      writev when they move `n` bytes. */
  class Kernel {
    var dev: Device

    constructor (dev: Device)
      ensures this.dev == dev
    {
      this.dev := dev;
    }

    method Readv(f: Descriptor, iov: seq<Buffer>, mem: array<Byte>, n: nat)
      requires InBounds(Addrs(iov), mem.Length) && n <= |Addrs(iov)|
      requires var at := if f.seekable then f.offset else dev.pos;
               n > 0 ==> at + n <= |dev.bytes|
      modifies this, mem
      ensures var at := if f.seekable then f.offset else old(dev.pos);
              n > 0 ==> mem[..] == Scatter(old(mem[..]), Addrs(iov)[..n], old(dev.bytes)[at..at + n])
      ensures n == 0 ==> mem[..] == old(mem[..])
      ensures dev == Device(old(dev.bytes), if f.seekable then old(dev.pos) else old(dev.pos) + n)
    {
      var at := if f.seekable then f.offset else dev.pos;
      var addrs := Addrs(iov);
      ghost var before := mem[..];
      for i := 0 to n
        invariant dev == old(dev)
        invariant n > 0 ==> mem[..] == Scatter(before, addrs[..i], dev.bytes[at..at + i])
        invariant n == 0 ==> mem[..] == before
      {
        assert addrs[..i + 1][..i] == addrs[..i];
        assert dev.bytes[at..at + i + 1][..i] == dev.bytes[at..at + i];
        mem[addrs[i]] := dev.bytes[at + i];
      }
      if !f.seekable {
        dev := dev.(pos := dev.pos + n);
      }
    }

    method Writev(f: Descriptor, iov: seq<Buffer>, mem: array<Byte>, n: nat)
      requires InBounds(Addrs(iov), mem.Length) && n <= |Addrs(iov)|
      modifies this
      ensures var at := if f.seekable then f.offset else old(dev.pos);
              dev == Device(Splice(old(dev.bytes), at, Gather(mem[..], Addrs(iov)[..n])),
                            if f.seekable then old(dev.pos) else old(dev.pos) + n)
    {
      var at := if f.seekable then f.offset else dev.pos;
      var addrs := Addrs(iov);
      var data := [];
      for i := 0 to n
        invariant data == Gather(mem[..], addrs[..i])
      {
        data := data + [mem[addrs[i]]];
      }
      dev := Device(Splice(dev.bytes, at, data), if f.seekable then dev.pos else dev.pos + n);
    }
  }

  /** The transfer a call starts, as a value. */
  ghost function Opening(req: Request, f: Descriptor, k: Kernel, mem: array<Byte>): Progress
    reads f, k, mem
    requires InBounds(Addrs(req.bufs), mem.Length)
  {
    Start(req, Gather(mem[..], Addrs(req.bufs)), k.dev, f.offset)
  }

  /** Where the loop stands before it evaluates its condition. */
  ghost function Standing(req: Request, f: Descriptor, k: Kernel, mem: array<Byte>, done: nat,
                          calls: seq<Call>): Progress
    reads f, k, mem
    requires InBounds(Addrs(req.bufs), mem.Length)
  {
    Progress(Gather(mem[..], Addrs(req.bufs)), k.dev, f.offset, done, calls, None)
  }

  /** Where the loop stands one round later, after `n` bytes moved. */
  ghost function NextRound(req: Request, x: Progress, n: nat): Progress
    requires x.done + n <= |x.view|
    requires req.dir.Reading? && n > 0 ==> Position(req, x) + n <= |x.dev.bytes|
  {
    var m := Moved(req, x, n);
    Progress(m.view, m.dev, if req.seekable then x.offset + n else x.offset, x.done + n,
             x.calls + [CallFor(req, x.offset, x.done)], None)
  }

  lemma ReactIsNextRound(req: Request, x: Progress, n: nat)
    requires x.outcome.None? && Wanted(req, x.done) > 0
    requires Sane(req, Issue(req, x)) && Admissible(req, Issue(req, x), Count(n))
    requires !Ends(req, Count(n))
    ensures x.done + n <= |x.view|
    ensures React(req, Issue(req, x), Count(n)) == Issue(req, NextRound(req, x, n))
  {
  }

  lemma ReactEnds(req: Request, x: Progress, r: Reply)
    requires x.outcome.None? && Wanted(req, x.done) > 0
    requires Sane(req, Issue(req, x)) && Admissible(req, Issue(req, x), r)
    requires Ends(req, r)
    ensures React(req, Issue(req, x), r)
         == x.(calls := x.calls + [CallFor(req, x.offset, x.done)],
               outcome := Some(if r.Fail? then Failed(r.error) else Done(x.done)))
  {
  }

  /** The states a run goes through: one step per reply. */
  ghost predicate IsTrace(req: Request, replies: seq<Reply>, trace: seq<Progress>) {
    && |trace| == |replies| + 1
    && (forall i :: 0 <= i < |trace| ==> Sane(req, trace[i]))
    && (forall i :: 0 <= i < |replies| ==>
          && trace[i].outcome.None? && Admissible(req, trace[i], replies[i])
          && trace[i + 1] == React(req, trace[i], replies[i]))
  }

  lemma {:induction false} TraceOf(req: Request, p0: Progress, replies: seq<Reply>) returns (trace: seq<Progress>)
    requires Sane(req, p0) && Conforms(req, p0, replies)
    ensures IsTrace(req, replies, trace)
    ensures trace[0] == p0 && trace[|replies|] == After(req, p0, replies)
    decreases |replies|
  {
    if replies == [] {
      trace := [p0];
    } else {
      var k := |replies| - 1;
      trace := TraceOf(req, p0, replies[..k]);
      OneMore(req, replies[..k], trace, replies[k]);
      assert replies[..k] + [replies[k]] == replies;
      trace := trace + [React(req, trace[k], replies[k])];
    }
  }

  lemma OneMore(req: Request, replies: seq<Reply>, trace: seq<Progress>, r: Reply)
    requires IsTrace(req, replies, trace)
    requires trace[|replies|].outcome.None? && Admissible(req, trace[|replies|], r)
    ensures IsTrace(req, replies + [r], trace + [React(req, trace[|replies|], r)])
  {
    ReactIsSane(req, trace[|replies|], r);
  }

  /** The part of a round of `sync::read` after the syscall: the reply moves bytes, ends the
      transfer or lets it go on. */
  method ReadReply(f: Descriptor, k: Kernel, mem: array<Byte>, ghost req: Request, ghost calls: seq<Call>,
                   iov: seq<Buffer>, done: nat, r: Reply)
    returns (end: Option<Outcome>, done': nat)
    requires req.dir.Reading? && req.seekable == f.seekable
    requires InBounds(Addrs(req.bufs), mem.Length) && Distinct(Addrs(req.bufs))
    requires Wanted(req, done) > 0 && iov == IovecsOf(req.bufs, done, Wanted(req, done))
    requires var x := Standing(req, f, k, mem, done, calls);
             Sane(req, Issue(req, x)) && Admissible(req, Issue(req, x), r)
    modifies f`offset, k, mem
    ensures Landed(req, old(Standing(req, f, k, mem, done, calls)), r, end,
                   Standing(req, f, k, mem, done', calls + [CallFor(req, old(f.offset), done)]))
    ensures forall a :: 0 <= a < mem.Length && a !in Addrs(req.bufs) ==> mem[a] == old(mem[a])
  {
    ghost var x := Standing(req, f, k, mem, done, calls);
    done' := done;
    match r {
      case Fail(e) =>
        ReactEnds(req, x, r);
        return Some(Failed(e)), done;
      case Count(n) =>
        if n == 0 {
          ReactEnds(req, x, r);
          return Some(Done(done)), done;
        }
        ReactIsNextRound(req, x, n);
        ReadBytes(f, k, mem, req, iov, done, n);
        if f.seekable {
          f.Feed(n);
        }
        return None, done + n;
    }
  }

  /** How a reply to the syscall of a round that stood at `x` left the transfer: at its end,
      or before the next round. */
  ghost predicate Landed(req: Request, x: Progress, r: Reply, end: Option<Outcome>, y: Progress)
    requires Sane(req, Issue(req, x)) && Issue(req, x).outcome.None? && Admissible(req, Issue(req, x), r)
  {
    React(req, Issue(req, x), r) == if end.Some? then y.(outcome := end) else Issue(req, y)
  }

  method ReadBytes(f: Descriptor, k: Kernel, mem: array<Byte>, ghost req: Request,
                   iov: seq<Buffer>, done: nat, n: nat)
    requires req.seekable == f.seekable
    requires InBounds(Addrs(req.bufs), mem.Length) && Distinct(Addrs(req.bufs))
    requires iov == IovecsOf(req.bufs, done, Wanted(req, done))
    requires 0 < n <= Wanted(req, done)
    requires (if f.seekable then f.offset else k.dev.pos) + n <= |k.dev.bytes|
    modifies k, mem
    ensures done + n <= |Addrs(req.bufs)|
    ensures k.dev == Device(old(k.dev.bytes), if f.seekable then old(k.dev.pos) else old(k.dev.pos) + n)
    ensures Gather(mem[..], Addrs(req.bufs))
         == Filled(old(Gather(mem[..], Addrs(req.bufs))), done, old(k.dev.bytes),
                   if f.seekable then f.offset else old(k.dev.pos), n)
    ensures forall a :: 0 <= a < mem.Length && a !in Addrs(req.bufs) ==> mem[a] == old(mem[a])
  {
    ghost var before, bytes := mem[..], k.dev.bytes;
    ghost var at := if f.seekable then f.offset else k.dev.pos;
    WindowOfCall(req, done, n, mem.Length);
    k.Readv(f, iov, mem, n);
    ghost var flat := Addrs(req.bufs);
    ghost var after := Scatter(before, flat[done..done + n], bytes[at..at + n]);
    assert mem[..] == after;
    FillWindow(flat, done, n, before, bytes, at);
  }

  /** How a round ends: the call returns, it is blocked in the syscall, or the loop goes around. */
  datatype Turn = Returned(outcome: Outcome) | Blocked | Again

  /** The transfer, seen from where a round left the loop. */
  ghost function Turned(req: Request, turn: Turn, y: Progress): Progress {
    match turn
    case Returned(o) => y.(outcome := Some(o))
    case Blocked => y
    case Again => Issue(req, y)
  }

  /** One round of `sync::read`: the condition, the iovecs, the syscall and its reply, if there is
      one already. */
  method ReadTurn(f: Descriptor, k: Kernel, mem: array<Byte>, bufs: seq<Buffer>, cond: Condition,
                  done: nat, calls: seq<Call>, reply: Option<Reply>)
    returns (turn: Turn, done': nat, calls': seq<Call>)
    requires InBounds(Addrs(bufs), mem.Length) && Distinct(Addrs(bufs))
    requires var req := Request(Reading, f.seekable, bufs, cond);
             var p := Issue(req, Standing(req, f, k, mem, done, calls));
             Sane(req, p) && (reply.Some? ==> p.outcome.None? && Admissible(req, p, reply.value))
    modifies f`offset, k, mem
    ensures var req := Request(Reading, f.seekable, bufs, cond);
            var p := Issue(req, old(Standing(req, f, k, mem, done, calls)));
            Turned(req, turn, Standing(req, f, k, mem, done', calls'))
            == if reply.None? then p else React(req, p, reply.value)
    ensures turn.Blocked? ==> reply.None?
    ensures turn.Again? ==> reply.Some?
    ensures forall a :: 0 <= a < mem.Length && a !in Addrs(bufs) ==> mem[a] == old(mem[a])
  {
    ghost var req := Request(Reading, f.seekable, bufs, cond);
    ghost var x := Standing(req, f, k, mem, done, calls);
    var size := BufferSize(bufs);
    var toTransfer := Ask(cond, size, done);
    AskMeaning(cond, size, done);
    if toTransfer == 0 {
      return Returned(Done(done)), done, calls;
    }
    var iov := TransformToIovecs(bufs, done, toTransfer);
    calls' := calls + [Call(if f.seekable then f.offset else 0, iov)];
    assert calls' == x.calls + [CallFor(req, x.offset, done)];
    if reply.None? {
      return Blocked, done, calls';
    }
    var end;
    end, done' := ReadReply(f, k, mem, req, calls, iov, done, reply.value);
    turn := if end.Some? then Returned(end.value) else Again;
  }

  /** `sync::read`. The replies are those the kernel gives, in order; `None` is returned when they
      run out, that is, while the call is still blocked in its last syscall. The buffers
      must not overlap. */
  method Read(f: Descriptor, k: Kernel, mem: array<Byte>, bufs: seq<Buffer>, cond: Condition, replies: seq<Reply>)
    returns (ret: Option<Outcome>, calls: seq<Call>)
    requires InBounds(Addrs(bufs), mem.Length) && Distinct(Addrs(bufs))
    requires var req := Request(Reading, f.seekable, bufs, cond);
             Sane(req, Opening(req, f, k, mem)) && Conforms(req, Opening(req, f, k, mem), replies)
    modifies f`offset, k, mem
    ensures var req := Request(Reading, f.seekable, bufs, cond);
            var p := After(req, old(Opening(req, f, k, mem)), replies);
            Standing(req, f, k, mem, p.done, calls).(outcome := ret) == p
    ensures forall a :: 0 <= a < mem.Length && a !in Addrs(bufs) ==> mem[a] == old(mem[a])
  {
    ghost var req := Request(Reading, f.seekable, bufs, cond);
    ghost var p0 := Opening(req, f, k, mem);
    ghost var trace := TraceOf(req, p0, replies);
    var done: nat, i := 0, 0;
    calls := [];
    while true
      invariant i <= |replies|
      invariant Issue(req, Standing(req, f, k, mem, done, calls)) == trace[i]
      invariant forall a :: 0 <= a < mem.Length && a !in Addrs(bufs) ==> mem[a] == old(mem[a])
      decreases |replies| - i
    {
      var reply := if i < |replies| then Some(replies[i]) else None;
      assert i < |replies| ==> trace[i].outcome.None?;
      var turn;
      turn, done, calls := ReadTurn(f, k, mem, bufs, cond, done, calls, reply);
      i := if i < |replies| then i + 1 else i;
      assert i < |replies| ==> trace[i].outcome.None?;
      match turn {
        case Returned(o) => return Some(o), calls;
        case Blocked => return None, calls;
        case Again =>
      }
    }
  }

  /** The part of a round of `sync::write` after the syscall. */
  method WriteReply(f: Descriptor, k: Kernel, mem: array<Byte>, ghost req: Request, ghost calls: seq<Call>,
                    iov: seq<Buffer>, done: nat, r: Reply)
    returns (end: Option<Outcome>, done': nat)
    requires req.dir.Writing? && req.seekable == f.seekable
    requires InBounds(Addrs(req.bufs), mem.Length)
    requires Wanted(req, done) > 0 && iov == IovecsOf(req.bufs, done, Wanted(req, done))
    requires var x := Standing(req, f, k, mem, done, calls);
             Sane(req, Issue(req, x)) && Admissible(req, Issue(req, x), r)
    modifies f`offset, k
    ensures Landed(req, old(Standing(req, f, k, mem, done, calls)), r, end,
                   Standing(req, f, k, mem, done', calls + [CallFor(req, old(f.offset), done)]))
  {
    ghost var x := Standing(req, f, k, mem, done, calls);
    done' := done;
    match r {
      case Fail(e) =>
        ReactEnds(req, x, r);
        return Some(Failed(e)), done;
      case Count(n) =>
        ReactIsNextRound(req, x, n);
        WriteBytes(f, k, mem, req, iov, done, n);
        if f.seekable {
          f.Feed(n);
        }
        return None, done + n;
    }
  }

  method WriteBytes(f: Descriptor, k: Kernel, mem: array<Byte>, ghost req: Request,
                    iov: seq<Buffer>, done: nat, n: nat)
    requires InBounds(Addrs(req.bufs), mem.Length)
    requires iov == IovecsOf(req.bufs, done, Wanted(req, done))
    requires 0 < Wanted(req, done) && n <= Wanted(req, done)
    modifies k
    ensures done + n <= |Addrs(req.bufs)|
    ensures var at := if f.seekable then f.offset else old(k.dev.pos);
            k.dev == Device(Written(Gather(mem[..], Addrs(req.bufs)), done, old(k.dev.bytes), at, n),
                            if f.seekable then old(k.dev.pos) else old(k.dev.pos) + n)
  {
    WindowOfCall(req, done, n, mem.Length);
    DrainThrough(mem[..], Addrs(req.bufs), Addrs(iov)[..n], done, n, k.dev.bytes,
                 if f.seekable then f.offset else k.dev.pos);
    k.Writev(f, iov, mem, n);
  }

  /** One round of `sync::write`: the condition, the iovecs, the syscall and its reply, if there is
      one already. */
  method WriteTurn(f: Descriptor, k: Kernel, mem: array<Byte>, bufs: seq<Buffer>, cond: Condition,
                  done: nat, calls: seq<Call>, reply: Option<Reply>)
    returns (turn: Turn, done': nat, calls': seq<Call>)
    requires InBounds(Addrs(bufs), mem.Length)
    requires var req := Request(Writing, f.seekable, bufs, cond);
             var p := Issue(req, Standing(req, f, k, mem, done, calls));
             Sane(req, p) && (reply.Some? ==> p.outcome.None? && Admissible(req, p, reply.value))
    modifies f`offset, k
    ensures var req := Request(Writing, f.seekable, bufs, cond);
            var p := Issue(req, old(Standing(req, f, k, mem, done, calls)));
            Turned(req, turn, Standing(req, f, k, mem, done', calls'))
            == if reply.None? then p else React(req, p, reply.value)
    ensures turn.Blocked? ==> reply.None?
    ensures turn.Again? ==> reply.Some?
  {
    ghost var req := Request(Writing, f.seekable, bufs, cond);
    ghost var x := Standing(req, f, k, mem, done, calls);
    var size := BufferSize(bufs);
    var toTransfer := Ask(cond, size, done);
    AskMeaning(cond, size, done);
    if toTransfer == 0 {
      return Returned(Done(done)), done, calls;
    }
    var iov := TransformToIovecs(bufs, done, toTransfer);
    calls' := calls + [Call(if f.seekable then f.offset else 0, iov)];
    assert calls' == x.calls + [CallFor(req, x.offset, done)];
    if reply.None? {
      return Blocked, done, calls';
    }
    var end;
    end, done' := WriteReply(f, k, mem, req, calls, iov, done, reply.value);
    turn := if end.Some? then Returned(end.value) else Again;
  }

  /** `sync::write`, with the same conventions. */
  method Write(f: Descriptor, k: Kernel, mem: array<Byte>, bufs: seq<Buffer>, cond: Condition, replies: seq<Reply>)
    returns (ret: Option<Outcome>, calls: seq<Call>)
    requires InBounds(Addrs(bufs), mem.Length)
    requires var req := Request(Writing, f.seekable, bufs, cond);
             Sane(req, Opening(req, f, k, mem)) && Conforms(req, Opening(req, f, k, mem), replies)
    modifies f`offset, k
    ensures var req := Request(Writing, f.seekable, bufs, cond);
            var p := After(req, old(Opening(req, f, k, mem)), replies);
            Standing(req, f, k, mem, p.done, calls).(outcome := ret) == p
  {
    ghost var req := Request(Writing, f.seekable, bufs, cond);
    ghost var p0 := Opening(req, f, k, mem);
    ghost var trace := TraceOf(req, p0, replies);
    var done: nat, i := 0, 0;
    calls := [];
    while true
      invariant i <= |replies|
      invariant Issue(req, Standing(req, f, k, mem, done, calls)) == trace[i]
      decreases |replies| - i
    {
      var reply := if i < |replies| then Some(replies[i]) else None;
      assert i < |replies| ==> trace[i].outcome.None?;
      var turn;
      turn, done, calls := WriteTurn(f, k, mem, bufs, cond, done, calls, reply);
      i := if i < |replies| then i + 1 else i;
      assert i < |replies| ==> trace[i].outcome.None?;
      match turn {
        case Returned(o) => return Some(o), calls;
        case Blocked => return None, calls;
        case Again =>
      }
    }
  }

  /** The transfer that reads back what `wrote` left, from the position `start` on. */
  ghost function Reopening(req: Request, p: Progress, start: nat, view: seq<Byte>): Progress {
    Start(req, view, p.dev, start)
  }

  /** The program of `tests/test_general.cpp`, over any memory, buffers and replies: everything is written to a
      seekable descriptor, the offset is set back, and everything is read into buffers of the same total
      size. When both calls succeed, the bytes read are the bytes written, and the offset is behind
      them. */
  method RoundTrip(f: Descriptor, k: Kernel, mem: array<Byte>, from: seq<Buffer>, wrote: seq<Reply>, to: seq<Buffer>,
                   got: seq<Reply>)
    returns (w: Option<Outcome>, r: Option<Outcome>)
    requires f.seekable && InBounds(Addrs(from), mem.Length)
    requires InBounds(Addrs(to), mem.Length) && Distinct(Addrs(to)) && TotalSize(to) == TotalSize(from)
    requires var writing := Request(Writing, true, from, TransferAll);
             IsRun(writing, Opening(writing, f, k, mem), wrote)
    requires var writing, reading := Request(Writing, true, from, TransferAll), Request(Reading, true, to, TransferAll);
             var r0 := Reopening(reading, After(writing, Opening(writing, f, k, mem), wrote), f.offset,
                 Gather(mem[..], Addrs(to)));
             IsRun(reading, r0, got) && HonestEof(reading, r0, got)
    modifies f`offset, k, mem
    ensures w.Some? && w.value.Done? && r.Some? && r.value.Done? ==>
              && w.value.size == r.value.size == TotalSize(from)
              && Gather(mem[..], Addrs(to)) == old(Gather(mem[..], Addrs(from)))
              && f.offset == old(f.offset) + TotalSize(from)
    ensures forall a :: 0 <= a < mem.Length && a !in Addrs(to) ==> mem[a] == old(mem[a])
  {
    ghost var writing, reading := Request(Writing, true, from, TransferAll), Request(Reading, true, to, TransferAll);
    ghost var w0 := Opening(writing, f, k, mem);
    var start := f.offset;
    var calls;
    w, calls := Write(f, k, mem, from, TransferAll, wrote);
    f.Seek(start);
    ghost var r0 := Opening(reading, f, k, mem);
    r, calls := Read(f, k, mem, to, TransferAll, got);
    if w.Some? && w.value.Done? && r.Some? && r.value.Done? {
      BytesRestored(writing, w0, wrote, reading, r0, got);
    }
  }

  lemma BytesRestored(w: Request, w0: Progress, wrote: seq<Reply>, r: Request, r0: Progress, got: seq<Reply>)
    requires w.dir.Writing? && w.cond.TransferAll? && w.seekable && IsRun(w, w0, wrote)
    requires r.dir.Reading? && r.cond.TransferAll? && r.seekable && IsRun(r, r0, got) && HonestEof(r, r0, got)
    requires Size(r) == Size(w) && r0.offset == w0.offset && r0.dev == After(w, w0, wrote).dev
    requires After(w, w0, wrote).outcome.Some? && After(w, w0, wrote).outcome.value.Done?
    requires After(r, r0, got).outcome.Some? && After(r, r0, got).outcome.value.Done?
    ensures After(w, w0, wrote).outcome == After(r, r0, got).outcome == Some(Done(Size(w)))
    ensures After(r, r0, got).view == w0.view && After(r, r0, got).offset == w0.offset + Size(w)
  {
    Transfer.RoundTrip(w, w0, wrote, r, r0, got);
    AllWritten(w, w0, wrote);
    DoneSize(w, w0, wrote);
    DoneSize(r, r0, got);
    Accounting(r, r0, got);
  }

  lemma DoneSize(req: Request, p0: Progress, replies: seq<Reply>)
    requires IsRun(req, p0, replies)
    requires After(req, p0, replies).outcome.Some? && After(req, p0, replies).outcome.value.Done?
    ensures After(req, p0, replies).outcome.value.size == After(req, p0, replies).done
    ensures req.dir.Writing? && req.cond.TransferAll? ==> After(req, p0, replies).done == Size(req)
  {
    ReturnedSize(req, p0, replies);
  }
}
