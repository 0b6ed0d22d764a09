/** Every asynchronous transfer refines the blocking one: at any point of any run of the composed
    system it stands where the blocking loop stands after the same replies. */
module AsyncRefinement {
  import opened Buffers
  import opened Syscalls
  import T = Transfer
  import E = EventLoop
  import opened AsyncSystem

  // ---------------------------------------------------------------- the relation

  /** The blocking transfer, seen after the kernel has replied but before the reply is digested. */
  ghost function Here(req: T.Request, x: T.Progress, inbox: Option<Reply>): T.Progress
    requires T.Sane(req, x) && x.outcome.None?
    requires inbox.Some? ==> T.Admissible(req, x, inbox.value)
  {
    if inbox.Some? && inbox.value.Count? then T.Moved(req, x, inbox.value.n) else x
  }

  /** A transfer in progress stands where the blocking one stands after the replies it has
      digested; one that has ended left what the blocking one leaves, or, if its submission was refused,
      stopped where the blocking one makes its next syscall. */
  ghost predicate Stands(w: World, op: Op) {
    && OpInBounds(w, op)
    && (op.req.dir.Reading? ==> Distinct(Addrs(op.req.bufs)))
    && T.IsRun(op.req, op.start, op.replies)
    && var x := T.After(op.req, op.start, op.replies);
       if Active(op) then
         && x.outcome.None?
         && (op.inbox.Some? ==> T.Admissible(op.req, x, op.inbox.value))
         && op.calls != [] && op.iov == op.calls[|op.calls| - 1].iov
         && Snapshot(w, op) == Here(op.req, x, op.inbox)
       else
         op.inbox.None? && op.final.value == x && op.calls == x.calls
  }

  ghost predicate AllStand(w: World, ops: seq<Op>) {
    forall o :: 0 <= o < |ops| ==> Stands(w, ops[o])
  }

  ghost predicate AllApart(ops: seq<Op>) {
    forall o, p :: 0 <= o < |ops| && 0 <= p < |ops| && o != p && Active(ops[o]) && Active(ops[p]) ==>
      Apart(ops[o].req, ops[o].fd, ops[p].req, ops[p].fd)
  }

  // ---------------------------------------------------------------- steps of the world

  /** A transfer is not disturbed by a change of the world that leaves its memory and its
      descriptor alone; a finished one by none. */
  lemma Undisturbed(w: World, w': World, op: Op)
    requires Stands(w, op)
    requires |w'.mem| == |w.mem| && |w'.fds| == |w.fds| && w'.fds[op.fd].seekable == w.fds[op.fd].seekable
    requires Active(op) ==>
      && Gather(w'.mem, Addrs(op.req.bufs)) == Gather(w.mem, Addrs(op.req.bufs))
      && w'.fds[op.fd] == w.fds[op.fd]
    ensures Stands(w', op)
  {
  }

  /** Tokens are not part of what a transfer stands for. */
  lemma TokenAside(w: World, op: Op, t: Option<E.Token>)
    requires Stands(w, op)
    ensures Stands(w, op.(token := t))
  {
  }

  /** The submission of a transfer is refused: it ends where it stands. */
  lemma RefusedStands(w: World, op: Op)
    requires Stands(w, op) && Active(op) && op.inbox.None?
    ensures Stands(w, op.(final := Some(Snapshot(w, op)))) && Refused(op.(final := Some(Snapshot(w, op))))
  {
  }

  /** A transfer in progress whose SQE has not been answered. */
  ghost predicate WaitsAt(w: World, op: Op, x: T.Progress) {
    && OpInBounds(w, op)
    && (op.req.dir.Reading? ==> Distinct(Addrs(op.req.bufs)))
    && T.Sane(op.req, x) && x.outcome.None?
    && op.calls != [] && op.iov == op.calls[|op.calls| - 1].iov
    && Snapshot(w, op) == x
  }

  /** What the kernel may answer to the SQE of a transfer is what it may answer to the blocking
      call, and it concerns the same bytes. */
  lemma KernelMayTheSame(w: World, op: Op, x: T.Progress, r: Reply)
    requires WaitsAt(w, op, x) && KernelMay(w, op, r)
    ensures T.Admissible(op.req, x, r)
    ensures r.Count? ==>
      && x.done + r.n <= |Addrs(op.req.bufs)|
      && At(w, op) == T.Position(op.req, x)
      && Addrs(op.iov)[..r.n] == Addrs(op.req.bufs)[x.done..x.done + r.n]
  {
    if r.Count? {
      T.WindowOfCall(op.req, x.done, 0, |w.mem|);
      T.WindowOfCall(op.req, x.done, r.n, |w.mem|);
    }
  }

  /** And it may answer the SQE with everything it may answer the blocking call with. */
  lemma AnythingIsPossible(w: World, op: Op, x: T.Progress, r: Reply)
    requires WaitsAt(w, op, x) && T.Admissible(op.req, x, r)
    ensures KernelMay(w, op, r)
  {
    if r.Count? {
      T.WindowOfCall(op.req, x.done, r.n, |w.mem|);
    }
  }

  lemma ReadMoves(w: World, op: Op, x: T.Progress, n: nat)
    requires WaitsAt(w, op, x) && KernelMay(w, op, Count(n)) && T.Admissible(op.req, x, Count(n))
    requires op.req.dir.Reading? && n > 0
    requires x.done + n <= |Addrs(op.req.bufs)| && At(w, op) == T.Position(op.req, x)
    requires Addrs(op.iov)[..n] == Addrs(op.req.bufs)[x.done..x.done + n]
    ensures |MoveBytes(w, op, n).mem| == |w.mem|
    ensures Snapshot(MoveBytes(w, op, n), op) == T.Moved(op.req, x, n)
  {
    ReadFills(w, op, x.done, n);
    ReadLeaves(w, op, n);
  }

  /** The kernel's answer to a read fills the next part of the buffers. */
  lemma ReadFills(w: World, op: Op, done: nat, n: nat)
    requires KernelMay(w, op, Count(n)) && op.req.dir.Reading? && n > 0
    requires InBounds(Addrs(op.req.bufs), |w.mem|) && Distinct(Addrs(op.req.bufs))
    requires done + n <= |Addrs(op.req.bufs)| && Addrs(op.iov)[..n] == Addrs(op.req.bufs)[done..done + n]
    ensures |MoveBytes(w, op, n).mem| == |w.mem|
    ensures Gather(MoveBytes(w, op, n).mem, Addrs(op.req.bufs))
         == T.Filled(Gather(w.mem, Addrs(op.req.bufs)), done, w.fds[op.fd].dev.bytes, At(w, op), n)
  {
    T.FillThrough(w.mem, Addrs(op.req.bufs), Addrs(op.iov)[..n], done, n, w.fds[op.fd].dev.bytes, At(w, op));
  }

  /** It moves the position the kernel keeps, if the descriptor has none of its own. */
  lemma ReadLeaves(w: World, op: Op, n: nat)
    requires KernelMay(w, op, Count(n)) && op.req.dir.Reading? && n > 0
    ensures var f, f' := w.fds[op.fd], MoveBytes(w, op, n).fds[op.fd];
            && |MoveBytes(w, op, n).fds| == |w.fds| && f'.seekable == f.seekable && f'.offset == f.offset
            && f'.dev == f.dev.(pos := if op.req.seekable then f.dev.pos else f.dev.pos + n)
  {
  }

  lemma WriteMoves(w: World, op: Op, x: T.Progress, n: nat)
    requires WaitsAt(w, op, x) && KernelMay(w, op, Count(n)) && T.Admissible(op.req, x, Count(n))
    requires op.req.dir.Writing? && n > 0
    requires x.done + n <= |Addrs(op.req.bufs)| && At(w, op) == T.Position(op.req, x)
    requires Addrs(op.iov)[..n] == Addrs(op.req.bufs)[x.done..x.done + n]
    ensures Snapshot(MoveBytes(w, op, n), op) == T.Moved(op.req, x, n)
  {
    T.DrainThrough(w.mem, Addrs(op.req.bufs), Addrs(op.iov)[..n], x.done, n, w.fds[op.fd].dev.bytes, At(w, op));
  }

  lemma CompletedHere(w: World, op: Op, x: T.Progress, r: Reply)
    requires WaitsAt(w, op, x) && KernelMay(w, op, r)
    ensures var w' := if r.Count? then MoveBytes(w, op, r.n) else w;
            && OpInBounds(w', op)
            && T.Admissible(op.req, x, r)
            && Snapshot(w', op) == Here(op.req, x, Some(r))
  {
    KernelMayTheSame(w, op, x, r);
    if r.Count? && r.n > 0 {
      if op.req.dir.Reading? {
        ReadMoves(w, op, x, r.n);
      } else {
        WriteMoves(w, op, x, r.n);
      }
    }
  }

  /** The kernel completes the SQE of a transfer. */
  lemma CompletedStands(w: World, op: Op, r: Reply)
    requires Stands(w, op) && Active(op) && op.inbox.None? && KernelMay(w, op, r)
    ensures Stands(if r.Count? then MoveBytes(w, op, r.n) else w, op.(inbox := Some(r)))
  {
    CompletedHere(w, op, T.After(op.req, op.start, op.replies), r);
  }

  /** The kernel completes the SQE of another transfer. */
  lemma CompletedElsewhere(w: World, op: Op, x: T.Progress, n: nat, other: Op)
    requires WaitsAt(w, op, x) && KernelMay(w, op, Count(n))
    requires OpInBounds(w, other) && Apart(op.req, op.fd, other.req, other.fd)
    ensures var w' := MoveBytes(w, op, n);
            && |w'.mem| == |w.mem|
            && Gather(w'.mem, Addrs(other.req.bufs)) == Gather(w.mem, Addrs(other.req.bufs))
            && w'.fds[other.fd] == w.fds[other.fd]
  {
    if n > 0 && op.req.dir.Reading? {
      KernelMayTheSame(w, op, x, Count(n));
      var at := At(w, op);
      ScatterElsewhere(w.mem, Addrs(op.req.bufs)[x.done..x.done + n], w.fds[op.fd].dev.bytes[at..at + n],
                       Addrs(other.req.bufs));
    }
  }

  lemma CompleteAllStand(w: World, ops: seq<Op>, o: nat, r: Reply)
    requires AllStand(w, ops) && AllApart(ops) && o < |ops|
    requires Active(ops[o]) && ops[o].inbox.None? && KernelMay(w, ops[o], r)
    ensures AllStand(if r.Count? then MoveBytes(w, ops[o], r.n) else w, ops[o := ops[o].(inbox := Some(r))])
  {
    var op := ops[o];
    var w', ops' := if r.Count? then MoveBytes(w, op, r.n) else w, ops[o := op.(inbox := Some(r))];
    var x := T.After(op.req, op.start, op.replies);
    assert Stands(w, op);
    forall p | 0 <= p < |ops'|
      ensures Stands(w', ops'[p])
    {
      assert Stands(w, ops[p]);
      if p == o {
        CompletedStands(w, op, r);
      } else if r.Count? {
        SizesKept(w, op, x, r.n);
        if Active(ops[p]) {
          CompletedElsewhere(w, op, x, r.n, ops[p]);
        }
        Undisturbed(w, w', ops[p]);
      }
    }
  }

  lemma SizesKept(w: World, op: Op, x: T.Progress, n: nat)
    requires WaitsAt(w, op, x) && KernelMay(w, op, Count(n))
    ensures var w' := MoveBytes(w, op, n);
            && |w'.mem| == |w.mem| && |w'.fds| == |w.fds|
            && forall i :: 0 <= i < |w.fds| ==> w'.fds[i].seekable == w.fds[i].seekable
  {
  }

  /** The callback digests the reply in the inbox: the transfer takes the step of the blocking
      one. */
  lemma DigestIsReact(w: World, op: Op)
    requires Stands(w, op) && Active(op) && op.inbox.Some?
    ensures var x := T.After(op.req, op.start, op.replies);
            && T.Digest(op.req, Snapshot(w, op), op.inbox.value) == T.React(op.req, x, op.inbox.value)
            && T.IsRun(op.req, op.start, op.replies + [op.inbox.value])
            && T.After(op.req, op.start, op.replies + [op.inbox.value]) == T.React(op.req, x, op.inbox.value)
  {
    var rs := op.replies + [op.inbox.value];
    assert rs[..|rs| - 1] == op.replies;
  }

  lemma DigestedStands(w: World, op: Op)
    requires Stands(w, op) && Active(op) && op.inbox.Some?
    ensures var q := T.Digest(op.req, Snapshot(w, op), op.inbox.value);
            && (q.outcome.None? ==> q.calls != [])
            && Stands(Advanced(w, op, q), GoneOn(op, op.inbox.value, q))
  {
    DigestIsReact(w, op);
  }

  /** A transfer starts as the blocking one does. */
  lemma BegunStands(w: World, a: E.Actor, req: T.Request, fd: nat)
    requires fd < |w.fds| && req.seekable == w.fds[fd].seekable && InBounds(Addrs(req.bufs), |w.mem|)
    requires req.dir.Reading? ==> Distinct(Addrs(req.bufs))
    ensures var p := T.Start(req, Gather(w.mem, Addrs(req.bufs)), w.fds[fd].dev, w.fds[fd].offset);
            && (p.outcome.None? ==> p.calls != [])
            && Stands(w, Settle(Op(req, fd, 0, [], [], a, None, p, [], None, None), p))
  {
    var p := T.Start(req, Gather(w.mem, Addrs(req.bufs)), w.fds[fd].dev, w.fds[fd].offset);
    FlatSize(req.bufs);
    T.FreshIsSane(req, p);
  }
}
