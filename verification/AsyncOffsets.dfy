/** Where transfers start (`ark/io/fd.hpp`, `ark/io/async.hpp`): a descriptor without a transfer in progress keeps
    the offset it
    was given by `seek`, and the next transfer on it starts there, from what memory and device then hold. */
module AsyncOffsets {
  import opened Buffers
  import opened Syscalls
  import T = Transfer
  import E = EventLoop
  import opened AsyncSystem
  import opened AsyncRefinement
  import opened AsyncTheorems

  /** No transfer in progress uses the descriptor. */
  ghost predicate Unused(ops: seq<Op>, fd: nat) {
    forall o :: 0 <= o < |ops| && Active(ops[o]) ==> ops[o].fd != fd
  }

  /** The label is no seek of the descriptor and begins no transfer on it. */
  predicate Elsewhere(l: Label, fd: nat) {
    match l
    case Begin(_, _, f) => f != fd
    case Seek(f, _) => f != fd
    case _ => true
  }

  ghost predicate StaysPut(s: System, s': System, fd: nat) {
    && fd < |s.world.fds| == |s'.world.fds| && s'.world.fds[fd].offset == s.world.fds[fd].offset
    && s'.world.fds[fd].seekable == s.world.fds[fd].seekable && Unused(s'.ops, fd)
  }

  lemma InvokeStaysPut(s: System, fd: nat)
    requires SysInv(s) && StepEnabled(s, E.Loop(E.Invoke)) && fd < |s.world.fds| && Unused(s.ops, fd)
    ensures StaysPut(s, ApplyInvoke(s), fd)
  {
    var who := CallbackOf(Some(s.loop.batch.pending[0].cb));
    if who.Some? {
      InvokeMeets(s, who.value);
      DigestedStands(s.world, s.ops[who.value]);
      InvokeGives(s, who.value);
    }
  }

  lemma CompleteStaysPut(s: System, t: E.Token, r: Reply, fd: nat)
    requires SysInv(s) && StepEnabled(s, E.Complete(t, r)) && fd < |s.world.fds| && Unused(s.ops, fd)
    ensures StaysPut(s, ApplyComplete(s, t, r), fd)
  {
    var who := TransferOf(s.loop.rings.intent[t].work);
    if who.Some? {
      CompleteLinks(s.loop, s.ops, t, r, who.value);
    }
  }

  lemma GetSqeStaysPut(s: System, a: E.Actor, fd: nat)
    requires StepEnabled(s, E.Inside(a, E.GetSqe)) && fd < |s.world.fds| && Unused(s.ops, fd)
    ensures StaysPut(s, ApplyGetSqe(s, a), fd)
  {
  }

  lemma BeginStaysPut(s: System, a: E.Actor, req: T.Request, f: nat, fd: nat)
    requires BeginEnabled(s, a, req, f) && f != fd && fd < |s.world.fds| && Unused(s.ops, fd)
    ensures StaysPut(s, ApplyBegin(s, a, req, f), fd)
  {
  }

  lemma StepStaysPut(s: System, l: Label, fd: nat)
    requires SysInv(s) && Enabled(s, l) && Elsewhere(l, fd) && fd < |s.world.fds| && Unused(s.ops, fd)
    ensures StaysPut(s, Apply(s, l), fd)
  {
    match l {
      case Begin(a, req, f) => BeginStaysPut(s, a, req, f, fd);
      case Poke(_, _) => case Seek(_, _) =>
      case Step(e) =>
        match e {
          case Call(_, _) =>
          case Complete(t, r) => CompleteStaysPut(s, t, r, fd);
          case Inside(a, c) =>
            if c.GetSqe? {
              GetSqeStaysPut(s, a, fd);
            }
          case Loop(c) =>
            if c.Invoke? {
              InvokeStaysPut(s, fd);
            }
        }
    }
  }

  lemma {:induction false} RunStaysPut(s: System, labels: seq<Label>, fd: nat)
    requires SysInv(s) && IsRun(s, labels) && fd < |s.world.fds| && Unused(s.ops, fd)
    requires forall i :: 0 <= i < |labels| ==> Elsewhere(labels[i], fd)
    ensures SysInv(Exec(s, labels)) && StaysPut(s, Exec(s, labels), fd)
    decreases |labels|
  {
    if labels != [] {
      var k := |labels| - 1;
      RunStaysPut(s, labels[..k], fd);
      AnyStepKeeps(Exec(s, labels[..k]), labels[k]);
      StepStaysPut(Exec(s, labels[..k]), labels[k], fd);
    }
  }

  /** A transfer starts from the offset of its descriptor, what its buffers hold and the device as it is; if the
      descriptor is seekable, its first syscall is at that offset. */
  lemma StartsHere(s: System, a: E.Actor, req: T.Request, fd: nat)
    requires BeginEnabled(s, a, req, fd)
    ensures var s' := ApplyBegin(s, a, req, fd);
            && |s'.ops| == |s.ops| + 1
            && var op := s'.ops[|s.ops|];
               && op.req == req && op.fd == fd && op.start.offset == s.world.fds[fd].offset
               && op.start.view == Gather(s.world.mem, Addrs(req.bufs)) && op.start.dev == s.world.fds[fd].dev
               && (op.calls != [] ==> op.calls[0].offset == if req.seekable then s.world.fds[fd].offset else 0)
  {
  }

  /** In every reachable state a seek is followed: however long the run goes on without another seek or transfer on that
      descriptor, the next transfer on it starts at the offset that was set, and so does its first syscall. */
  lemma SeekIsFollowed(s0: System, before: seq<Label>, fd: nat, off: nat, between: seq<Label>, a: E.Actor,
                       req: T.Request)
    requires Init(s0) && IsRun(s0, before) && Enabled(Exec(s0, before), Seek(fd, off))
    requires IsRun(Apply(Exec(s0, before), Seek(fd, off)), between)
    requires forall i :: 0 <= i < |between| ==> Elsewhere(between[i], fd)
    requires BeginEnabled(Exec(Apply(Exec(s0, before), Seek(fd, off)), between), a, req, fd)
    ensures var s := Exec(Apply(Exec(s0, before), Seek(fd, off)), between);
            var op := ApplyBegin(s, a, req, fd).ops[|s.ops|];
            op.start.offset == off && (op.calls != [] ==> op.calls[0].offset == if req.seekable then off else 0)
  {
    RunKeeps(s0, before);
    var s1 := Apply(Exec(s0, before), Seek(fd, off));
    AnyStepKeeps(Exec(s0, before), Seek(fd, off));
    RunStaysPut(s1, between, fd);
    StartsHere(Exec(s1, between), a, req, fd);
  }

  /** What user code stores in a buffer before it begins a transfer is what the transfer starts from. */
  lemma StoreIsSeen(s: System, addr: nat, b: Byte, a: E.Actor, req: T.Request, fd: nat, i: nat)
    requires Enabled(s, Poke(addr, b)) && BeginEnabled(Apply(s, Poke(addr, b)), a, req, fd)
    requires i < |Addrs(req.bufs)|
    ensures var s1 := Apply(s, Poke(addr, b));
            var view := ApplyBegin(s1, a, req, fd).ops[|s1.ops|].start.view;
            && |view| == |Addrs(req.bufs)|
            && view[i] == if Addrs(req.bufs)[i] == addr then b else s.world.mem[Addrs(req.bufs)[i]]
  {
    StartsHere(Apply(s, Poke(addr, b)), a, req, fd);
  }
}
