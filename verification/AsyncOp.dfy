/** `async_op` and `async_io_impl` (`ark/async/async_op.hpp`, `ark/io/async.hpp`): the transfer as an
    object that is moved into its own continuation, which the event loop keeps until the syscall
    is complete. Its methods are proved against the transfer function and against the operations of module
    AsyncSystem. */
module AsyncOp {
  import opened Buffers
  import opened Conditions
  import opened Iovecs
  import opened Syscalls
  import opened Transfer
  import SyncIo
  import E = EventLoop
  import C = Context
  import S = AsyncSystem

  /** The callback of the user; it records how it was called. */
  class UserCallback {
    ghost var results: seq<Outcome>

    constructor ()
      ensures results == []
    {
      results := [];
    }

    method Invoke(ret: Outcome)
      modifies this
      ensures results == old(results) + [ret]
    {
      results := results + [ret];
    }
  }

  /** `locals_t`, on the heap; `fd` is the descriptor it refers to. */
  class Locals {
    const fd: SyncIo.Descriptor
    const dir: Direction
    const bufs: seq<Buffer>
    const cond: Condition
    var done: nat
    var iov: seq<Buffer>

    constructor (fd: SyncIo.Descriptor, dir: Direction, bufs: seq<Buffer>, cond: Condition)
      ensures this.fd == fd && this.dir == dir && this.bufs == bufs && this.cond == cond && done == 0 && iov == []
    {
      this.fd, this.dir, this.bufs, this.cond := fd, dir, bufs, cond;
      done, iov := 0, [];
    }

    ghost function Req(): Request
    {
      Request(dir, fd.seekable, bufs, cond)
    }

    /** These are the locals of the operation `v` in the world `w`. */
    ghost predicate Of(w: S.World, v: S.Op)
      reads this, fd
    {
      && v.req == Req() && v.done == done
      && S.OpInBounds(w, v) && w.fds[v.fd].offset == fd.offset
    }
  }

  /** The syscall that was submitted, its token, and the continuation that waits for it. */
  datatype Submission = Submission(call: Call, tok: E.Token, cont: Op)

  /** The world after `go_on` advanced the stored offset. */
  ghost function Fed(w: S.World, v: S.Op, n: nat): S.World
    requires v.fd < |w.fds|
  {
    var fd := w.fds[v.fd];
    w.(fds := w.fds[v.fd := fd.(offset := if v.req.seekable then fd.offset + n else fd.offset)])
  }

  /** Digesting a count that does not end the transfer is issuing the next syscall from there. */
  lemma DigestIsIssue(w: S.World, v: S.Op, n: nat)
    requires S.OpInBounds(w, v) && !(v.req.dir.Reading? && n == 0)
    ensures var w', v', q := Fed(w, v, n), v.(done := v.done + n), Digest(v.req, S.Snapshot(w, v), Count(n));
            && S.OpInBounds(w', v')
            && q == Issue(v.req, S.Snapshot(w', v'))
            && q.offset == w'.fds[v.fd].offset && S.Settle(v', q) == S.Settle(v, q)
  {
  }

  /** `async_op`: the context, the callback and the locals, the latter two empty once it was moved from. `id` names the
      transfer. */
  class Op {
    const ctx: C.UringContext
    const id: nat
    var cb: UserCallback?
    var locals: Locals?

    constructor (ctx: C.UringContext, id: nat, cb: UserCallback, locals: Locals)
      ensures this.ctx == ctx && this.id == id && this.cb == cb && this.locals == locals
    {
      this.ctx, this.id, this.cb, this.locals := ctx, id, cb, locals;
    }

    /** The move constructor. */
    constructor Move(other: Op)
      modifies other
      ensures ctx == other.ctx && id == other.id
      ensures cb == old(other.cb) && locals == old(other.locals)
      ensures other.cb == null && other.locals == null
    {
      ctx, id, cb, locals := other.ctx, other.id, other.cb, other.locals;
      new;
      other.cb := null;
      other.locals := null;
    }

    /** `yield`: the op is moved into the continuation. */
    method Yield() returns (cont: Op)
      modifies this
      ensures fresh(cont) && cont.ctx == ctx && cont.id == id && cont.cb == old(cb) && cont.locals == old(locals)
      ensures cb == null && locals == null
    {
      cont := new Op.Move(this);
    }

    /** `complete`. An op that was moved from has no callback to call; what the invocation of an empty function
        does then is not part of this model, only that the user's function is not called by it. */
    method Complete(ret: Outcome) returns (called: bool)
      modifies cb
      ensures called <==> cb != null
      ensures called ==> cb.results == old(cb.results) + [ret]
    {
      called := cb != null;
      if called {
        cb.Invoke(ret);
      }
    }

    predicate Ready()
      reads this
    {
      cb != null && locals != null
    }

    /** The thread `a` may call the context. */
    ghost predicate MayCall(a: E.Actor)
      reads ctx, ctx.ring
    {
      ctx.Valid() && ctx.Free() && E.CanCall(ctx.st, a)
    }

    /** What `run` leaves of the operation `v` when the transfer stands at `q`: either the user was called with
        the outcome and the ring is as before; or the op is empty, and its next syscall is queued under a new
        token with the continuation, if there was room, and lost if there was none. The locals are those
        of the operation after `Settle`. */
    ghost predicate Went(l: Locals, user: UserCallback, v: S.Op, q: Progress, results: seq<Outcome>, queue: C.Queue,
                         sub: Option<Submission>)
      requires q.outcome.None? ==> q.calls != []
      reads this, l, user, ctx, if sub.Some? then {sub.value.cont} else {}
    {
      && l.done == S.Settle(v, q).done
      && if q.outcome.Some? then
           sub.None? && Ready() && user.results == results + [q.outcome.value] && ctx.Queued() == queue
         else
           && cb == null && locals == null && user.results == results
           && l.iov == S.Settle(v, q).iov
           && ctx.Queued() == C.Added(queue, Some(E.User(E.OfTransfer(id))))
           && (sub.Some? <==> |queue.sq| < E.BATCH)
           && (sub.Some? ==>
                 && sub.value.call == q.calls[|q.calls| - 1] && Some(sub.value.tok) == C.Issued(queue)
                 && sub.value.cont.cb == user && sub.value.cont.locals == l && sub.value.cont.id == id)
    }

    /** `async_io_impl::run`: either the condition is met and the callback is called with the bytes done; or
        the next syscall is submitted with the op inside its continuation. When the ring has no room, the code
        completes the op it has just moved from: the continuation is lost, and the callback is never called. */
    method Run(a: E.Actor, ghost w: S.World, ghost v: S.Op) returns (sub: Option<Submission>)
      requires Ready() && MayCall(a) && locals.Of(w, v)
      modifies this, locals, cb, ctx
      ensures ctx.Valid() && ctx.Free() && E.PcOf(ctx.st, a).Idle? && ctx.Stage() == old(ctx.Stage())
      ensures old(ctx.run) <= ctx.run && (sub.Some? ==> fresh(sub.value.cont))
      ensures Went(old(locals), old(cb), v, Issue(v.req, S.Snapshot(w, v)), old(cb.results), old(ctx.Queued()), sub)
    {
      var l := locals;
      sub := None;
      var size := BufferSize(l.bufs);
      AskMeaning(l.cond, size, l.done);
      var wanted := Ask(l.cond, size, l.done);
      if wanted == 0 {
        var _ := Complete(Done(l.done));
        return;
      }
      l.iov := TransformToIovecs(l.bufs, l.done, wanted);
      var call := Call(if l.fd.seekable then l.fd.offset else 0, l.iov);
      var cont := Yield();
      var tok := ctx.AddSqe(a, S.AddFor(id));
      if tok.Some? {
        sub := Some(Submission(call, tok.value, cont));
      } else {
        var called := Complete(Failed(E.ENOBUFS));
        assert !called;
      }
    }

    /** `async_io_impl::go_on`, the continuation: an error and, for a read, an end of file complete the op; other
        counts are added and the transfer runs on. */
    method GoOn(ret: Reply, a: E.Actor, ghost w: S.World, ghost v: S.Op) returns (sub: Option<Submission>)
      requires Ready() && MayCall(a) && locals.Of(w, v)
      modifies this, locals, cb, ctx, locals.fd`offset
      ensures ctx.Valid() && ctx.Free() && E.PcOf(ctx.st, a).Idle? && ctx.Stage() == old(ctx.Stage())
      ensures old(ctx.run) <= ctx.run && (sub.Some? ==> fresh(sub.value.cont))
      ensures var q := Digest(v.req, S.Snapshot(w, v), ret);
              && old(locals).fd.offset == S.Advanced(w, v, q).fds[v.fd].offset
              && Went(old(locals), old(cb), v, q, old(cb.results), old(ctx.Queued()), sub)
    {
      var l := locals;
      match ret {
        case Fail(e) =>
          var _ := Complete(Failed(e));
          return None;
        case Count(n) =>
          if l.dir.Reading? && n == 0 {
            var _ := Complete(Done(l.done));
            return None;
          }
          l.done := l.done + n;
          if l.fd.seekable {
            l.fd.Feed(n);
          }
          ghost var w', v' := Fed(w, v, n), v.(done := v.done + n);
          DigestIsIssue(w, v, n);
          sub := Run(a, w', v');
      }
    }
  }
  /** `async::read` and `async::write`: the locals are made on the heap, the op around them, and `run` is called.
      What it leaves
      is the operation that module AsyncSystem begins. */
  method Begin(ctx: C.UringContext, id: nat, fd: SyncIo.Descriptor, dir: Direction, bufs: seq<Buffer>, cond: Condition,
               cb: UserCallback, a: E.Actor, ghost w: S.World, ghost file: nat)
    returns (op: Op, locals: Locals, sub: Option<Submission>)
    requires ctx.Valid() && ctx.Free() && E.CanCall(ctx.st, a)
    requires file < |w.fds| && w.fds[file].seekable == fd.seekable && w.fds[file].offset == fd.offset
    requires InBounds(Addrs(bufs), |w.mem|)
    modifies cb, ctx
    ensures ctx.Valid() && ctx.Free() && E.PcOf(ctx.st, a).Idle? && ctx.Stage() == old(ctx.Stage())
    ensures old(ctx.run) <= ctx.run && op.id == id
    ensures var req := Request(dir, fd.seekable, bufs, cond);
            var p := Start(req, Gather(w.mem, Addrs(bufs)), w.fds[file].dev, fd.offset);
            && locals.Req() == req && locals.fd == fd
            && op.Went(locals, cb, Begun(req, file, a, p), p, old(cb.results), old(ctx.Queued()), sub)
  {
    locals := new Locals(fd, dir, bufs, cond);
    op := new Op(ctx, id, cb, locals);
    ghost var req := Request(dir, fd.seekable, bufs, cond);
    ghost var p := Start(req, Gather(w.mem, Addrs(bufs)), w.fds[file].dev, fd.offset);
    sub := op.Run(a, w, Begun(req, file, a, p));
  }

  /** The operation before its first step. */
  ghost function Begun(req: Request, file: nat, a: E.Actor, p: Progress): S.Op {
    S.Op(req, file, 0, [], [], a, None, p, [], None, None)
  }
}
