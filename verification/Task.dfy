/** The objects behind module Coroutine: the value slot of `ark/misc/manual_lifetime.hpp`, the promise that
    manages it and the task that owns a coroutine frame (`ark/coroutine/task.hpp`). */
module Task {
  import opened Buffers
  import opened Coroutine

  /** `manual_lifetime`: storage for a value that is constructed and destructed by hand. History: how often. */
  class ManualLifetime {
    var value: int
    ghost var alive: bool
    ghost var built: nat
    ghost var razed: nat

    constructor ()
      ensures !alive && built == 0 && razed == 0
    {
      alive, built, razed := false, 0, 0;
    }

    method Construct(v: int)
      requires !alive
      modifies this
      ensures alive && value == v && built == old(built) + 1 && razed == old(razed)
    {
      value, alive, built := v, true, built + 1;
    }

    method Destruct()
      requires alive
      modifies this
      ensures !alive && built == old(built) && razed == old(razed) + 1
    {
      alive, razed := false, razed + 1;
    }

    method Get() returns (v: int)
      requires alive
      ensures v == value
    {
      v := value;
    }
  }

  datatype PromiseState = IsEmpty | HasValue

  /** `task_promise`, with the frame it lives in. */
  class TaskPromise {
    const storage: ManualLifetime
    var state: PromiseState
    var continuation: Handle
    ghost var dead: nat

    ghost predicate Valid()
      reads this, storage
    {
      && (state.HasValue? <==> storage.alive)
      && storage.built == storage.razed + (if storage.alive then 1 else 0)
    }

    /** The slot, as module Coroutine has it. */
    ghost function SlotOf(): Slot
      reads this, storage
    {
      if state.HasValue? then Holds(storage.value) else Empty
    }

    /** This is the promise of the frame `f`. */
    ghost predicate In(m: Machine, f: Id)
      reads this, storage
    {
      f in m.frames && m.frames[f].slot == SlotOf() && m.frames[f].cont == continuation
    }

    constructor ()
      ensures Valid() && SlotOf() == Empty && continuation == Null && dead == 0
      ensures fresh(storage) && storage.built == 0
    {
      storage := new ManualLifetime();
      state, continuation, dead := IsEmpty, Null, 0;
    }

    /** `clear`: the state is exchanged first; a value is destructed if there was one. */
    method Clear()
      requires Valid()
      modifies this`state, storage
      ensures Valid() && SlotOf() == Empty && storage.built == old(storage.built)
      ensures storage.razed == old(storage.built)
    {
      var was := state;
      state := IsEmpty;
      if was.HasValue? {
        storage.Destruct();
      }
    }

    /** `return_value`: whatever was there, the slot holds this value, and no value is lost. */
    method ReturnValue(v: int)
      requires Valid()
      modifies this`state, storage
      ensures Valid() && SlotOf() == Holds(v) && storage.built == old(storage.built) + 1
    {
      Clear();
      storage.Construct(v);
      state := HasValue;
    }

    /** `get`, which needs a value. */
    method Get() returns (v: int)
      requires Valid() && SlotOf().Holds?
      ensures SlotOf() == Holds(v)
    {
      v := storage.Get();
    }

    /** `await_suspend` of a task: the awaiting coroutine becomes the continuation. */
    method SetContinuation(h: Handle)
      modifies this`continuation
      ensures continuation == h
    {
      continuation := h;
    }

    /** The frame is destroyed, and the promise in it. */
    method DestroyFrame()
      requires Valid()
      modifies this`state, this`dead, storage
      ensures Valid() && dead == old(dead) + 1
      ensures storage.built == storage.razed == old(storage.built)
    {
      Clear();
      dead := dead + 1;
    }
  }

  /** `task`: a handle to the frame it owns, or to nothing. */
  class OwningTask {
    var coro: TaskPromise?

    constructor (h: TaskPromise)
      ensures coro == h
    {
      coro := h;
    }

    /** The move constructor: `exchange(t.coro_, {})`. */
    constructor Move(other: OwningTask)
      modifies other
      ensures coro == old(other.coro) && other.coro == null
    {
      coro := other.coro;
      new;
      other.coro := null;
    }

    /** The destructor: the frame dies, if the task has one. */
    method Destroy()
      requires coro != null ==> coro.Valid()
      modifies if coro != null then {coro, coro.storage} else {}
      ensures coro != null ==>
                && coro.Valid() && coro.dead == old(coro.dead) + 1
                && coro.storage.built == coro.storage.razed == old(coro.storage.built)
    {
      if coro != null {
        coro.DestroyFrame();
      }
    }
  }

  // ---------------------------------------------------------------- the objects behind the steps of the trampoline

  /** `co_return`: the promise is the one of the frame after the step. */
  method CoReturn(p: TaskPromise, v: int, ghost m: Machine, ghost c: nat, ghost f: Id)
    requires p.Valid() && p.In(m, f) && c < |m.chains| && CanRun(m, f)
    requires m.frames[f].code.Ret? && m.frames[f].slot.Empty? && v == m.frames[f].acc
    modifies p`state, p.storage
    ensures p.Valid() && p.In(StepRunning(m, c, f), f)
  {
    p.ReturnValue(v);
  }

  /** Final suspend: the handle that is resumed is where the chain goes on. */
  method FinalSuspend(p: TaskPromise, ghost m: Machine, ghost c: nat, ghost f: Id) returns (h: Handle)
    requires p.In(m, f) && c < |m.chains| && CanRun(m, f) && m.frames[f].code.Ret? && m.frames[f].slot.Holds?
    ensures h != Null && p.In(StepRunning(m, c, f), f)
    ensures StepRunning(m, c, f).chains[c].where == if h.ToFrame? then Running(h.id) else RootBack(f)
  {
    h := p.continuation;
  }

  /** `co_await` of the task `g` that the frame `f` just created: its continuation is set, and it is the one that
      runs. */
  method AwaitTask(t: OwningTask, h: Handle, ghost m: Machine, ghost c: nat, ghost f: Id, ghost g: Id)
    requires t.coro != null && t.coro.In(m, g) && c < |m.chains| && CanRun(m, f) && h == ToFrame(f)
    requires m.frames[f].code.Await? && m.frames[f].temp == Some(g) && m.frames[g].cont.Null? && f != g
    modifies t.coro`continuation
    ensures t.coro.In(StepRunning(m, c, f), g) && StepRunning(m, c, f).chains[c].where == Running(g)
  {
    t.coro.SetContinuation(h);
  }

  /** Control is back in the frame `f`: it takes the value of its task, and the destructor of the task ends the life
      of the frame `g` and of its value. */
  method ResumeAwait(t: OwningTask, ghost m: Machine, ghost c: nat, ghost f: Id, ghost g: Id) returns (v: int)
    requires t.coro != null && t.coro.Valid() && t.coro.In(m, g) && c < |m.chains| && CanRun(m, f) && f != g
    requires m.frames[f].code.Await? && m.frames[f].temp == Some(g) && !m.frames[g].cont.Null?
    modifies t.coro, t.coro.storage
    ensures var m' := StepRunning(m, c, f);
            && f in m'.frames && m'.frames[f].acc == v && g !in m'.frames
            && m'.lives.destroyed == m.lives.destroyed + [g] && m'.lives.razed == m.lives.razed + [g]
    ensures t.coro.dead == old(t.coro.dead) + 1 && t.coro.storage.razed == t.coro.storage.built
            == old(t.coro.storage.built)
  {
    v := t.coro.Get();
    t.Destroy();
  }

  ghost predicate NoneShared(tasks: seq<OwningTask>)
    reads tasks
  {
    && (forall i, j :: 0 <= i < j < |tasks| ==> tasks[i] != tasks[j])
    && (forall i, j :: 0 <= i < j < |tasks| && tasks[i].coro != null ==> tasks[i].coro != tasks[j].coro)
  }

  ghost predicate Owns(tasks: seq<OwningTask>, p: TaskPromise)
    reads tasks
  {
    exists i :: 0 <= i < |tasks| && tasks[i].coro == p
  }

  /** A move makes one more task, and still every frame has the one owner it had, or gets the new one for
      the old one: no frame is lost or shared. */
  method MoveOut(tasks: seq<OwningTask>, i: nat) returns (more: seq<OwningTask>)
    requires i < |tasks| && NoneShared(tasks)
    modifies tasks[i]
    ensures |more| == |tasks| + 1 && more[..|tasks|] == tasks && fresh(more[|tasks|])
    ensures NoneShared(more)
    ensures forall p: TaskPromise | old(allocated(p)) :: Owns(more, p) <==> old(Owns(tasks, p))
  {
    ghost var p0 := tasks[i].coro;
    var t := new OwningTask.Move(tasks[i]);
    more := tasks + [t];
    forall p: TaskPromise | old(allocated(p))
      ensures Owns(more, p) <==> old(Owns(tasks, p))
    {
      if p == p0 {
        assert more[|tasks|].coro == p;
      } else if old(Owns(tasks, p)) {
        ghost var j :| 0 <= j < |tasks| && old(tasks[j].coro) == p;
        assert more[j].coro == p;
      }
    }
  }

  /** The promises of a list of tasks can be destroyed. */
  ghost predicate Destroyable(tasks: seq<OwningTask>, lo: nat)
    reads tasks, set t | t in tasks && t.coro != null :: t.coro, set t | t in tasks && t.coro != null :: t.coro.storage
  {
    forall i :: lo <= i < |tasks| && tasks[i].coro != null ==> tasks[i].coro.Valid()
  }

  /** Frames do not share their storage. */
  ghost predicate StorageApart(tasks: seq<OwningTask>)
    reads tasks
  {
    forall i, j :: 0 <= i < j < |tasks| && tasks[i].coro != null && tasks[j].coro != null ==>
      tasks[i].coro.storage != tasks[j].coro.storage
  }

  /** The destructors of a list of tasks: every frame that has an owner is destroyed exactly once, and every
      value that was constructed in it is destructed. */
  method DestroyAll(tasks: seq<OwningTask>)
    requires NoneShared(tasks) && StorageApart(tasks) && Destroyable(tasks, 0)
    modifies set t | t in tasks && t.coro != null :: t.coro, set t | t in tasks && t.coro != null :: t.coro.storage
    ensures forall i :: 0 <= i < |tasks| && tasks[i].coro != null ==>
              tasks[i].coro.dead == old(tasks[i].coro.dead) + 1
              && tasks[i].coro.storage.razed == tasks[i].coro.storage.built == old(tasks[i].coro.storage.built)
  {
    for k := 0 to |tasks|
      invariant Destroyable(tasks, k)
      invariant forall i :: 0 <= i < |tasks| ==> tasks[i].coro == old(tasks[i].coro)
      invariant forall i :: 0 <= i < k && tasks[i].coro != null ==>
                  tasks[i].coro.dead == old(tasks[i].coro.dead) + 1
                  && tasks[i].coro.storage.razed == tasks[i].coro.storage.built == old(tasks[i].coro.storage.built)
      invariant forall i :: k <= i < |tasks| && tasks[i].coro != null ==>
                  tasks[i].coro.dead == old(tasks[i].coro.dead)
                  && tasks[i].coro.storage.built == old(tasks[i].coro.storage.built)
    {
      if tasks[k].coro != null {
        tasks[k].Destroy();
      }
    }
  }
}
