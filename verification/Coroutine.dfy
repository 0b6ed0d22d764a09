/** Coroutine tasks (`ark/coroutine/task.hpp`, `awaitable_op.hpp`, `co_async.hpp`): a trampoline over
    heap-allocated frames that are linked by the continuation stored in each promise.

    A coroutine body is a finite tree over one register: it can emit effects, branch, await a
    task, await an operation of the event loop, start a task with `co_async`, create a task
    without ever awaiting it, and return the register. */
module Coroutine {
  import opened Buffers

  datatype Code =
    | Ret                                // co_return acc
    | Emit(tag: int, next: Code)         // an effect
    | Compute(k: int, next: Code)        // acc := acc + k
    | Branch(zero: Code, other: Code)    // on acc
    | Await(child: Code, next: Code)     // acc := co_await child(acc)
    | AwaitIo(req: int, next: Code)      // acc := co_await an operation of the event loop
    | Drop(child: Code, next: Code)      // child(acc) is created and destroyed
    | Spawn(child: Code, next: Code)     // co_async(child(acc))

  /** What a coroutine does that others can see: its effects, the operations it asks for, the tasks it creates, to await
      them or to drop them, and those it starts. */
  datatype Event =
    | Emitted(tag: int, acc: int)
    | Asked(req: int, acc: int)
    | Created(child: Code, acc: int)
    | Spawned(child: Code, acc: int)

  // ---------------------------------------------------------------- direct style

  /** A finished evaluation: its value, its effects in order, and the answers of the event loop
      it did not use; or an evaluation that waits for an answer. */
  datatype Eval = Done(value: int, log: seq<Event>, rest: seq<int>) | Stuck(log: seq<Event>)

  function Prefix(log: seq<Event>, r: Eval): Eval {
    match r
    case Done(v, l, rest) => Done(v, log + l, rest)
    case Stuck(l) => Stuck(log + l)
  }

  /** A task as a plain call, given the answers of the event loop to its operations. */
  function Direct(code: Code, acc: int, answers: seq<int>): Eval
    decreases code
  {
    match code
    case Ret => Done(acc, [], answers)
    case Emit(t, next) => Prefix([Emitted(t, acc)], Direct(next, acc, answers))
    case Compute(k, next) => Direct(next, acc + k, answers)
    case Branch(zero, other) => if acc == 0 then Direct(zero, acc, answers) else Direct(other, acc, answers)
    case Await(child, next) =>
      Prefix([Created(child, acc)],
             match Direct(child, acc, answers)
             case Done(v, l, rest) => Prefix(l, Direct(next, v, rest))
             case Stuck(l) => Stuck(l))
    case AwaitIo(q, next) =>
      Prefix([Asked(q, acc)],
             if answers == [] then Stuck([]) else Direct(next, answers[0], answers[1..]))
    case Drop(child, next) => Prefix([Created(child, acc)], Direct(next, acc, answers))
    case Spawn(child, next) => Prefix([Spawned(child, acc)], Direct(next, acc, answers))
  }

  // ---------------------------------------------------------------- the machine

  type Id = nat

  /** A coroutine handle: nothing, the coroutine that awaits, or the coroutine of `co_async`. */
  datatype Handle = Null | ToFrame(id: Id) | ToRoot

  /** The manually managed result of a promise. */
  datatype Slot = Empty | Holds(value: int)

  /** A coroutine frame: what is left to run, the register, `continuation_`, the value slot, and the
      task object that lives in it during an expression. History: the chain it belongs to. */
  datatype Frame = Frame(code: Code, acc: int, cont: Handle, slot: Slot, temp: Option<Id>, home: nat)

  /** Where a chain of coroutines started by `co_async` is. */
  datatype Where =
    | RootHas(task: Id)      // the coroutine of co_async is about to await its task
    | Running(id: Id)
    | Suspended(id: Id)      // in await_suspend of an operation of the event loop
    | RootBack(task: Id)     // the coroutine of co_async was resumed
    | Finished

  /** A chain. `promise` is the value given to the future. History: the task it was started with,
      its effects, the answers it was given, and the frames from the first to the running one. */
  datatype Chain = Chain(
    where: Where, promise: Option<int>,
    code: Code, arg: int, log: seq<Event>, answers: seq<int>, stack: seq<Id>)

  /** History: the frames whose value was constructed, destructed, that were resumed from final
      suspend, and that were destroyed. */
  datatype Lives = Lives(built: seq<Id>, razed: seq<Id>, finals: seq<Id>, destroyed: seq<Id>)

  datatype Machine = Machine(frames: map<Id, Frame>, next: Id, chains: seq<Chain>, lives: Lives)

  datatype Label =
    | Launch(code: Code, arg: int)     // code outside of coroutines calls co_async
    | Advance(c: nat)                  // the running coroutine of a chain makes a step
    | Deliver(c: nat, answer: int)     // the callback of an operation stores its result and resumes

  /** A new frame, suspended at its start; the caller gets the task that owns it. */
  function Fresh(code: Code, acc: int, home: nat): Frame {
    Frame(code, acc, Null, Empty, None, home)
  }

  function Create(m: Machine, code: Code, acc: int, home: nat): Machine {
    m.(frames := m.frames[m.next := Fresh(code, acc, home)], next := m.next + 1)
  }

  /** The destructor of a task: the frame dies, and its promise destructs the value if there is one. */
  function Destroy(m: Machine, g: Id): Machine
    requires g in m.frames
  {
    m.(frames := m.frames - {g},
       lives := m.lives.(destroyed := m.lives.destroyed + [g],
                         razed := if m.frames[g].slot.Holds? then m.lives.razed + [g] else m.lives.razed))
  }

  function SetFrame(m: Machine, f: Id, fr: Frame): Machine {
    m.(frames := m.frames[f := fr])
  }

  function SetChain(m: Machine, c: nat, ch: Chain): Machine
    requires c < |m.chains|
  {
    m.(chains := m.chains[c := ch])
  }

  function NewChain(code: Code, arg: int, task: Id): Chain {
    Chain(RootHas(task), None, code, arg, [], [], [])
  }

  /** `co_async`: a task and the coroutine that awaits it. */
  function Start(m: Machine, code: Code, arg: int): Machine {
    Create(m, code, arg, |m.chains|).(chains := m.chains + [NewChain(code, arg, m.next)])
  }

  /** Whether the running coroutine can make its next step: it must not resume a null handle, nor
      read a value that is not there. */
  predicate CanRun(m: Machine, f: Id) {
    && f in m.frames
    && var fr := m.frames[f];
       match fr.code
       case Ret => fr.slot.Empty? || !fr.cont.Null?
       case Await(_, _) =>
         fr.temp.Some? ==>
           (fr.temp.value in m.frames && (m.frames[fr.temp.value].cont.Null? || m.frames[fr.temp.value].slot.Holds?))
       case Drop(_, _) => fr.temp.Some? ==> fr.temp.value in m.frames
       case _ => true
  }

  predicate Enabled(m: Machine, l: Label) {
    match l
    case Launch(_, _) => true
    case Advance(c) =>
      c < |m.chains| &&
      (match m.chains[c].where
       case RootHas(g) => g in m.frames
       case Running(f) => CanRun(m, f)
       case Suspended(_) => false
       case RootBack(g) => g in m.frames && m.frames[g].slot.Holds?
       case Finished => false)
    case Deliver(c, _) =>
      && c < |m.chains| && m.chains[c].where.Suspended?
      && m.chains[c].where.id in m.frames && m.frames[m.chains[c].where.id].code.AwaitIo?
  }

  /** `co_return`: first the value is constructed in the slot; then, at final suspend, the
      continuation is resumed. */
  function StepRet(m: Machine, c: nat, f: Id): Machine
    requires c < |m.chains| && f in m.frames
  {
    var fr, ch := m.frames[f], m.chains[c];
    if fr.slot.Empty? then
      SetFrame(m, f, fr.(slot := Holds(fr.acc))).(lives := m.lives.(built := m.lives.built + [f]))
    else
      var m' := m.(lives := m.lives.(finals := m.lives.finals + [f]));
      match fr.cont
      case ToFrame(p) =>
        SetChain(m', c, ch.(where := Running(p), stack := if ch.stack == [] then [] else ch.stack[..|ch.stack| - 1]))
      case ToRoot => SetChain(m', c, ch.(where := RootBack(f), stack := []))
      case Null => m
  }

  function Log(m: Machine, c: nat, e: Event): Machine
    requires c < |m.chains|
  {
    SetChain(m, c, m.chains[c].(log := m.chains[c].log + [e]))
  }

  /** `co_await` of a task: it is created, suspended at its start; then its continuation is set
      and it is resumed; and when control is back, its value is taken and the task is destroyed. */
  function StepAwait(m: Machine, c: nat, f: Id, child: Code, next: Code): Machine
    requires c < |m.chains| && CanRun(m, f) && m.frames[f].code == Await(child, next)
  {
    var fr, ch := m.frames[f], m.chains[c];
    match fr.temp
    case None => Log(SetFrame(Create(m, child, fr.acc, c), f, fr.(temp := Some(m.next))), c, Created(child, fr.acc))
    case Some(g) =>
      var task := m.frames[g];
      if task.cont.Null? then
        SetChain(SetFrame(m, g, task.(cont := ToFrame(f))), c, ch.(where := Running(g), stack := ch.stack + [g]))
      else
        Destroy(SetFrame(m, f, fr.(acc := task.slot.value, temp := None, code := next)), g)
  }

  function StepDrop(m: Machine, c: nat, f: Id, child: Code, next: Code): Machine
    requires c < |m.chains| && CanRun(m, f) && m.frames[f].code == Drop(child, next)
  {
    var fr := m.frames[f];
    match fr.temp
    case None => Log(SetFrame(Create(m, child, fr.acc, c), f, fr.(temp := Some(m.next))), c, Created(child, fr.acc))
    case Some(g) => Destroy(SetFrame(m, f, fr.(temp := None, code := next)), g)
  }

  function StepRunning(m: Machine, c: nat, f: Id): Machine
    requires c < |m.chains| && CanRun(m, f)
  {
    var fr, ch := m.frames[f], m.chains[c];
    match fr.code
    case Ret => StepRet(m, c, f)
    case Emit(t, next) => Log(SetFrame(m, f, fr.(code := next)), c, Emitted(t, fr.acc))
    case Compute(k, next) => SetFrame(m, f, fr.(acc := fr.acc + k, code := next))
    case Branch(zero, other) => SetFrame(m, f, fr.(code := if fr.acc == 0 then zero else other))
    case Await(child, next) => StepAwait(m, c, f, child, next)
    case AwaitIo(q, _) => SetChain(m, c, ch.(where := Suspended(f), log := ch.log + [Asked(q, fr.acc)]))
    case Drop(child, next) => StepDrop(m, c, f, child, next)
    case Spawn(child, next) =>
      Start(Log(SetFrame(m, f, fr.(code := next)), c, Spawned(child, fr.acc)), child, fr.acc)
  }

  function Apply(m: Machine, l: Label): Machine
    requires Enabled(m, l)
  {
    match l
    case Launch(code, arg) => Start(m, code, arg)
    case Advance(c) =>
      var ch := m.chains[c];
      (match ch.where
       case RootHas(g) =>
         SetChain(SetFrame(m, g, m.frames[g].(cont := ToRoot)), c, ch.(where := Running(g), stack := [g]))
       case Running(f) => StepRunning(m, c, f)
       case RootBack(g) =>
         SetChain(Destroy(m, g), c, ch.(where := Finished, promise := Some(m.frames[g].slot.value))))
    case Deliver(c, v) =>
      var f := m.chains[c].where.id;
      var fr := m.frames[f];
      SetChain(SetFrame(m, f, fr.(acc := v, code := fr.code.next)), c,
               m.chains[c].(where := Running(f), answers := m.chains[c].answers + [v]))
  }

  const INITIAL: Machine := Machine(map[], 0, [], Lives([], [], [], []))

  ghost predicate IsRun(labels: seq<Label>)
    decreases |labels|, 0
  {
    labels == [] ||
    var k := |labels| - 1;
    IsRun(labels[..k]) && Enabled(Exec(labels[..k]), labels[k])
  }

  /** The machine after a run. */
  ghost function Exec(labels: seq<Label>): Machine
    requires IsRun(labels)
    decreases |labels|, 1
  {
    if labels == [] then INITIAL
    else
      var k := |labels| - 1;
      Apply(Exec(labels[..k]), labels[k])
  }
}
