/** Asynchronous transfers (`ark/io/async.hpp`, `ark/async/async_op.hpp`) on top of the event loop.

    Any number of transfers run at the same time, started by any thread or from inside a
    callback; between their steps all the other steps of the event loop may happen, including
    those of SQEs and callbacks that belong to other code. A transfer is parked in the
    callback it passes to `add_sqe`; the kernel reads its iovec array where it lies. */
module AsyncSystem {
  import opened Buffers
  import opened Syscalls
  import T = Transfer
  import E = EventLoop

  /** A descriptor: the stored offset, used if it is seekable, and the device behind it. */
  datatype Fd = Fd(seekable: bool, offset: nat, dev: T.Device)

  /** An operation. `done` and `iov` are its local state; the last of `calls` is the SQE it is
      waiting for, with the position passed by value. `final` is where it stood when it ended: with an
      outcome, if it called back; without one, if the ring had no room for its next SQE. An ended
      operation holds neither its buffers nor its descriptor any more. History: its token or the thread
      that is adding it, what it started from, the replies it has digested, and the reply the kernel gave
      that its callback has not seen yet. */
  datatype Op = Op(
    req: T.Request,
    fd: nat,
    done: nat,
    iov: seq<Buffer>,
    calls: seq<T.Call>,
    adder: E.Actor,
    token: Option<E.Token>,
    start: T.Progress,
    replies: seq<Reply>,
    inbox: Option<Reply>,
    final: Option<T.Progress>)

  /** User memory and the descriptors. */
  datatype World = World(mem: seq<Byte>, fds: seq<Fd>)

  /** `completions` are the calls of the user callbacks, in order. */
  datatype System = System(
    loop: E.State, world: World, ops: seq<Op>, completions: seq<(nat, T.Outcome)>)

  datatype Label =
    | Begin(a: E.Actor, req: T.Request, fd: nat)   // async::read or async::write is called
    | Step(l: E.Label)                             // a step of the event loop
    | Poke(addr: nat, value: Byte)                 // user code stores a byte
    | Seek(fd: nat, off: nat)                      // user code seeks

  // ---------------------------------------------------------------- helpers

  predicate Active(op: Op) {
    op.final.None?
  }

  /** The operation has called back. */
  predicate Finished(op: Op) {
    op.final.Some? && op.final.value.outcome.Some?
  }

  /** The submission of a syscall of the operation was refused. */
  predicate Refused(op: Op) {
    op.final.Some? && op.final.value.outcome.None?
  }

  /** What a transfer passes to `add_sqe`. */
  function AddFor(o: nat): E.Add {
    E.Add(E.Job(E.OfTransfer(o)), Some(E.User(E.OfTransfer(o))))
  }

  /** The transfer an SQE belongs to. */
  function TransferOf(w: E.Work): Option<nat> {
    if w.Job? && w.who.OfTransfer? then Some(w.who.id) else None
  }

  function CallbackOf(cb: Option<E.Callback>): Option<nat> {
    if cb.Some? && cb.value.User? && cb.value.who.OfTransfer? then Some(cb.value.who.id) else None
  }

  ghost predicate OpInBounds(w: World, op: Op) {
    && op.fd < |w.fds|
    && op.req.seekable == w.fds[op.fd].seekable
    && InBounds(Addrs(op.req.bufs), |w.mem|)
  }

  /** The transfer as it can be observed now. */
  ghost function Snapshot(w: World, op: Op): T.Progress
    requires OpInBounds(w, op)
  {
    T.Progress(Gather(w.mem, Addrs(op.req.bufs)), w.fds[op.fd].dev, w.fds[op.fd].offset,
               op.done, op.calls, None)
  }

  /** Two transfers in progress use different descriptors, and memory that is read into belongs
      to one of them only. */
  ghost predicate Apart(r1: T.Request, fd1: nat, r2: T.Request, fd2: nat) {
    && fd1 != fd2
    && (r1.dir.Reading? || r2.dir.Reading? ==> Disjoint(Addrs(r1.bufs), Addrs(r2.bufs)))
  }

  // ---------------------------------------------------------------- when a step is possible

  ghost predicate BeginEnabled(s: System, a: E.Actor, req: T.Request, fd: nat) {
    && E.CanCall(s.loop, a)
    && fd < |s.world.fds|
    && req.seekable == s.world.fds[fd].seekable
    && InBounds(Addrs(req.bufs), |s.world.mem|)
    && (req.dir.Reading? ==> Distinct(Addrs(req.bufs)))
    && forall o :: 0 <= o < |s.ops| && Active(s.ops[o]) ==> Apart(req, fd, s.ops[o].req, s.ops[o].fd)
  }

  /** The position of the SQE a transfer is waiting for. */
  function At(w: World, op: Op): nat
    requires op.fd < |w.fds| && op.calls != []
  {
    if op.req.seekable then op.calls[|op.calls| - 1].offset else w.fds[op.fd].dev.pos
  }

  /** What the kernel may answer to the SQE of a transfer. */
  ghost predicate KernelMay(w: World, op: Op, r: Reply) {
    && op.fd < |w.fds| && op.calls != []
    && (r.Count? ==>
          && r.n <= |Addrs(op.iov)|
          && InBounds(Addrs(op.iov), |w.mem|)
          && (op.req.dir.Reading? && r.n > 0 ==> At(w, op) + r.n <= |w.fds[op.fd].dev.bytes|))
  }

  /** The steps of the event loop: other code does not use the tokens and callbacks of transfers. The other
      conditions make the steps well-defined; they hold in every run (AsyncTheorems.NothingShutOut). */
  ghost predicate StepEnabled(s: System, l: E.Label) {
    && E.Enabled(s.loop, l)
    && match l
       case Call(_, ApiAdd(add)) => TransferOf(add.work).None? && CallbackOf(add.cb).None?
       case Call(_, ApiCancel(t)) => t in s.loop.rings.intent && CallbackOf(s.loop.rings.intent[t].cb).None?
       case Inside(a, GetSqe) =>
         var o := TransferOf(E.PcOf(s.loop, a).add.work);
         o.Some? ==> o.value < |s.ops| && OpInBounds(s.world, s.ops[o.value])
       case Complete(t, r) =>
         t in s.loop.rings.intent &&
         var o := TransferOf(s.loop.rings.intent[t].work);
         o.Some? ==> o.value < |s.ops| && KernelMay(s.world, s.ops[o.value], r)
       case Loop(Invoke) =>
         var o := CallbackOf(Some(s.loop.batch.pending[0].cb));
         o.Some? ==> o.value < |s.ops| && OpInBounds(s.world, s.ops[o.value])
       case _ => true
  }

  ghost predicate Enabled(s: System, l: Label) {
    match l
    case Begin(a, req, fd) => BeginEnabled(s, a, req, fd)
    case Step(l) => StepEnabled(s, l)
    case Poke(addr, _) =>
      && addr < |s.world.mem|
      && forall o :: 0 <= o < |s.ops| && Active(s.ops[o]) ==> addr !in Addrs(s.ops[o].req.bufs)
    case Seek(fd, _) =>
      && fd < |s.world.fds|
      && forall o :: 0 <= o < |s.ops| && Active(s.ops[o]) ==> s.ops[o].fd != fd
  }

  // ---------------------------------------------------------------- what a step does

  /** An operation whose transfer stands at `p`: it has completed, or it is about to add the last
      syscall of `p`. */
  function Settle(op: Op, p: T.Progress): Op
    requires p.outcome.None? ==> p.calls != []
  {
    if p.outcome.Some? then op.(done := p.done, calls := p.calls, final := Some(p))
    else op.(done := p.done, calls := p.calls, iov := p.calls[|p.calls| - 1].iov, token := None)
  }

  /** An operation after its callback digested a reply, and stands at `q`. */
  function GoneOn(op: Op, r: Reply, q: T.Progress): Op
    requires q.outcome.None? ==> q.calls != []
  {
    Settle(op.(adder := E.RUN, inbox := None, replies := op.replies + [r]), q)
  }

  /** The stored offset of its descriptor follows the operation. */
  function Advanced(w: World, op: Op, q: T.Progress): World
    requires op.fd < |w.fds|
  {
    w.(fds := w.fds[op.fd := w.fds[op.fd].(offset := q.offset)])
  }

  /** The callback of the user is called if the transfer has an outcome; otherwise the thread `a` goes
      on to add the next SQE. */
  function Proceed(s: System, o: nat, p: T.Progress, a: E.Actor): System {
    if p.outcome.Some? then s.(completions := s.completions + [(o, p.outcome.value)])
    else s.(loop := E.ApplyCall(s.loop, a, E.ApiAdd(AddFor(o))))
  }

  /** `async::read` or `async::write`: the locals are made, and `run` is called. */
  ghost function ApplyBegin(s: System, a: E.Actor, req: T.Request, fd: nat): System
    requires BeginEnabled(s, a, req, fd)
  {
    var w, o := s.world, |s.ops|;
    var p := T.Start(req, Gather(w.mem, Addrs(req.bufs)), w.fds[fd].dev, w.fds[fd].offset);
    var op := Settle(Op(req, fd, 0, [], [], a, None, p, [], None, None), p);
    Proceed(s.(ops := s.ops + [op]), o, p, a)
  }

  /** The kernel moves the bytes between the memory named by the iovecs and the device. */
  ghost function MoveBytes(w: World, op: Op, n: nat): World
    requires KernelMay(w, op, Count(n))
  {
    if n == 0 then w
    else
      var f, at := w.fds[op.fd], At(w, op);
      var pos := if op.req.seekable then f.dev.pos else f.dev.pos + n;
      match op.req.dir
      case Reading =>
        World(Scatter(w.mem, Addrs(op.iov)[..n], f.dev.bytes[at..at + n]),
              w.fds[op.fd := f.(dev := f.dev.(pos := pos))])
      case Writing =>
        var data := Gather(w.mem, Addrs(op.iov)[..n]);
        World(w.mem, w.fds[op.fd := f.(dev := T.Device(T.Splice(f.dev.bytes, at, data), pos))])
  }

  ghost function ApplyComplete(s: System, t: E.Token, r: Reply): System
    requires StepEnabled(s, E.Complete(t, r))
  {
    var s' := s.(loop := E.Apply(s.loop, E.Complete(t, r)));
    var who := TransferOf(s.loop.rings.intent[t].work);
    if who.None? then s'
    else
      var o := who.value;
      var op := s.ops[o];
      s'.(world := if r.Count? then MoveBytes(s.world, op, r.n) else s.world,
          ops := s.ops[o := op.(inbox := Some(r))])
  }

  /** The callback of a transfer: `go_on` digests the reply, and `run` goes around. */
  ghost function ApplyInvoke(s: System): System
    requires StepEnabled(s, E.Loop(E.Invoke))
  {
    var v := s.loop.batch.pending[0];
    var s' := s.(loop := E.Apply(s.loop, E.Loop(E.Invoke)));
    var who := CallbackOf(Some(v.cb));
    if who.None? then s'
    else
      var o := who.value;
      var op := s.ops[o];
      var q := T.Digest(op.req, Snapshot(s.world, op), v.res);
      Proceed(s'.(ops := s.ops[o := GoneOn(op, v.res, q)], world := Advanced(s.world, op, q)), o, q, E.RUN)
  }

  ghost function Submitted(w: World, op: Op, r: E.Rings): Op
    requires OpInBounds(w, op)
  {
    if |r.sq| < E.BATCH then op.(token := Some(r.next)) else op.(final := Some(Snapshot(w, op)))
  }

  /** When the SQE of a transfer is queued, it has its token. When the ring has no room, `run` completes an
      operation that was moved from: the callback of the user dies with the continuation, and is not called. */
  ghost function ApplyGetSqe(s: System, a: E.Actor): System
    requires StepEnabled(s, E.Inside(a, E.GetSqe))
  {
    var s' := s.(loop := E.Apply(s.loop, E.Inside(a, E.GetSqe)));
    var who := TransferOf(E.PcOf(s.loop, a).add.work);
    if who.None? then s'
    else
      s'.(ops := s.ops[who.value := Submitted(s.world, s.ops[who.value], s.loop.rings)])
  }

  ghost function ApplyStep(s: System, l: E.Label): System
    requires StepEnabled(s, l)
  {
    match l
    case Complete(t, r) => ApplyComplete(s, t, r)
    case Loop(Invoke) => ApplyInvoke(s)
    case Inside(a, GetSqe) => ApplyGetSqe(s, a)
    case _ => s.(loop := E.Apply(s.loop, l))
  }

  ghost function Apply(s: System, l: Label): System
    requires Enabled(s, l)
  {
    match l
    case Begin(a, req, fd) => ApplyBegin(s, a, req, fd)
    case Step(l) => ApplyStep(s, l)
    case Poke(addr, b) => s.(world := s.world.(mem := s.world.mem[addr := b]))
    case Seek(fd, off) =>
      s.(world := s.world.(fds := s.world.fds[fd := s.world.fds[fd].(offset := off)]))
  }

  // ---------------------------------------------------------------- runs

  /** A system before its first transfer, with any memory and any descriptors. */
  ghost predicate Init(s: System) {
    s.loop == E.INITIAL && s.ops == [] && s.completions == []
  }

  ghost predicate IsRun(s: System, labels: seq<Label>)
    decreases |labels|, 0
  {
    labels == [] ||
    var k := |labels| - 1;
    IsRun(s, labels[..k]) && Enabled(Exec(s, labels[..k]), labels[k])
  }

  ghost function Exec(s: System, labels: seq<Label>): System
    requires IsRun(s, labels)
    decreases |labels|, 1
  {
    if labels == [] then s
    else
      var k := |labels| - 1;
      Apply(Exec(s, labels[..k]), labels[k])
  }
}
