/** The guarantees of coroutine tasks, for every program and every run of the trampoline. */
module CoroutineTheorems {
  import opened Buffers
  import opened Coroutine
  import opened CoroutineInvariant

  // ---------------------------------------------------------------- meaning

  /** A chain that ran to its end gave its future the value of the direct call and had the effects
      of the direct call, in that order, using exactly the answers it was given. */
  lemma FinishedLikeDirect(labels: seq<Label>, c: nat)
    requires IsRun(labels) && c < |Exec(labels).chains| && Exec(labels).chains[c].where.Finished?
    ensures var ch := Exec(labels).chains[c];
            ch.promise.Some? && Direct(ch.code, ch.arg, ch.answers) == Done(ch.promise.value, ch.log, [])
  {
    RunKeeps(labels);
    EndedLikeDirect(Exec(labels), c);
  }

  lemma EndedLikeDirect(m: Machine, c: nat)
    requires ChainsInv(m) && c < |m.chains| && m.chains[c].where.Finished?
    ensures var ch := m.chains[c];
            ch.promise.Some? && Direct(ch.code, ch.arg, ch.answers) == Done(ch.promise.value, ch.log, [])
  {
    var ch := m.chains[c];
    assert ChainOk(m.frames, c, ch);
    assert ch.answers + [] == ch.answers && ch.log + [] == ch.log;
  }

  /** A chain waits for an answer exactly where the direct call does. */
  lemma SuspendedLikeDirect(labels: seq<Label>, c: nat)
    requires IsRun(labels) && c < |Exec(labels).chains| && Exec(labels).chains[c].where.Suspended?
    ensures var ch := Exec(labels).chains[c];
            Direct(ch.code, ch.arg, ch.answers) == Stuck(ch.log)
  {
    RunKeeps(labels);
    WaitsLikeDirect(Exec(labels), c);
  }

  lemma WaitsLikeDirect(m: Machine, c: nat)
    requires ChainsInv(m) && c < |m.chains| && m.chains[c].where.Suspended?
    ensures var ch := m.chains[c]; Direct(ch.code, ch.arg, ch.answers) == Stuck(ch.log)
  {
    var ch := m.chains[c];
    assert ChainOk(m.frames, c, ch);
    assert ch.answers + [] == ch.answers && ch.log + [] == ch.log;
    assert WaitEval(m.frames[ch.where.id].code.next, []) == Stuck([]);
    assert Meaning(m.frames, ch, []) == Stuck([]);
  }

  /** At every point of a run the effects of a chain are the first effects of the direct call,
      whatever answers are still to come. */
  lemma EffectsInOrder(labels: seq<Label>, c: nat, more: seq<int>)
    requires IsRun(labels) && c < |Exec(labels).chains|
    ensures var ch := Exec(labels).chains[c];
            ch.log <= Direct(ch.code, ch.arg, ch.answers + more).log
  {
    RunKeeps(labels);
    var m := Exec(labels);
    var ch := m.chains[c];
    assert Prefix(ch.log, Meaning(m.frames, ch, more)) == Direct(ch.code, ch.arg, ch.answers + more);
  }

  // ---------------------------------------------------------------- never stuck

  ghost predicate Ready(m: Machine, c: nat)
    requires c < |m.chains|
  {
    match m.chains[c].where
    case Finished => true
    case Suspended(_) => forall v: int :: Enabled(m, Deliver(c, v))
    case _ => Enabled(m, Advance(c))
  }

  lemma CanGoOn(m: Machine, c: nat)
    requires c < |m.chains| && ChainOk(m.frames, c, m.chains[c])
    ensures Ready(m, c)
  {
    var ch := m.chains[c];
    if ch.where.Running? {
      assert LinkOk(m.frames, c, ch.stack, |ch.stack| - 1);
      assert CanRun(m, ch.where.id);
    }
  }

  /** A chain that is not at its end can always go on: it never resumes a null handle, never reads a
      value that was not stored, never touches a destroyed frame; a suspended one waits only for
      its answer. */
  lemma NeverStuck(labels: seq<Label>, c: nat)
    requires IsRun(labels) && c < |Exec(labels).chains|
    ensures Ready(Exec(labels), c)
    ensures forall code, arg :: Enabled(Exec(labels), Launch(code, arg))
  {
    RunKeeps(labels);
    CanGoOn(Exec(labels), c);
  }

  /** A frame has a continuation, and who is resumed is the frame that owns its task, or the coroutine of
      `co_async` that does. */
  predicate ReturnsToOwner(h: Heap, stack: seq<Id>, f: Id) {
    && f in h
    && match h[f].cont
       case Null => false
       case ToRoot => stack == [f]
       case ToFrame(p) => p in h && h[p].code.Await? && h[p].temp == Some(f)
  }

  lemma TopReturnsToOwner(h: Heap, c: nat, ch: Chain)
    requires ChainOk(h, c, ch) && ch.where.Running?
    ensures ReturnsToOwner(h, ch.stack, ch.where.id)
  {
    var n := |ch.stack| - 1;
    assert LinkOk(h, c, ch.stack, n);
    if n > 0 {
      assert LinkOk(h, c, ch.stack, n - 1);
    }
  }

  lemma TopNotFinal(m: Machine, c: nat, f: Id)
    requires ChainsInv(m) && LivesInv(m) && c < |m.chains| && m.chains[c].where == Running(f)
    ensures f !in m.lives.finals
    ensures f in m.frames && m.frames[f].slot.Holds? ==> f in m.lives.built
  {
    var ch := m.chains[c];
    assert ChainOk(m.frames, c, ch);
    assert f in ch.stack by {
      assert ch.stack[|ch.stack| - 1] == f;
    }
    assert EndOk(m.frames, ch, m.lives.finals, f);
    assert LifeOk(m.frames, m.next, m.lives, f);
  }

  /** A frame at final suspend has its value stored, has not resumed its continuation before, and returns to
      its owner. */
  lemma FinalSuspend(labels: seq<Label>, c: nat, f: Id)
    requires IsRun(labels) && c < |Exec(labels).chains| && Exec(labels).chains[c].where == Running(f)
    requires f in Exec(labels).frames && Exec(labels).frames[f].code.Ret? && Exec(labels).frames[f].slot.Holds?
    ensures var m := Exec(labels); f in m.lives.built && f !in m.lives.finals
    ensures var m := Exec(labels); ReturnsToOwner(m.frames, m.chains[c].stack, f)
  {
    RunKeeps(labels);
    var m := Exec(labels);
    assert ChainOk(m.frames, c, m.chains[c]);
    TopReturnsToOwner(m.frames, c, m.chains[c]);
    TopNotFinal(m, c, f);
  }

  // ---------------------------------------------------------------- lives

  /** Over a whole run, a frame is destroyed at most once; a value is constructed in it at most
      once, and destructed exactly when the frame dies; it resumes its continuation at most
      once, only after its value was stored, and always before it dies if it had one. */
  lemma LifeOfAFrame(labels: seq<Label>, id: Id)
    requires IsRun(labels)
    ensures var l := Exec(labels).lives; Once(l.built) && Once(l.razed) && Once(l.finals) && Once(l.destroyed)
    ensures var m := Exec(labels);
            && (id < m.next ==> (id in m.frames <==> id !in m.lives.destroyed))
            && (id in m.lives.razed <==> id in m.lives.built && id in m.lives.destroyed)
            && (id in m.lives.finals ==> id in m.lives.built)
            && (id in m.lives.built && id in m.lives.destroyed ==> id in m.lives.finals)
  {
    RunKeeps(labels);
    var m := Exec(labels);
    assert LifeOk(m.frames, m.next, m.lives, id);
  }

  /** Nothing leaks: when every chain is at its end, every frame ever created was destroyed, and
      every value ever constructed was destructed. */
  lemma NothingLeaks(labels: seq<Label>, id: Id)
    requires IsRun(labels)
    requires forall c :: 0 <= c < |Exec(labels).chains| ==> Exec(labels).chains[c].where.Finished?
    ensures var m := Exec(labels);
            m.frames == map[] && (id < m.next ==> id in m.lives.destroyed)
               && (id in m.lives.built <==> id in m.lives.razed)
  {
    RunKeeps(labels);
    var m := Exec(labels);
    forall g: Id
      ensures g !in m.frames
    {
      assert AliveOk(m.frames, m.next, m.chains, g);
    }
    assert m.frames.Keys == {};
    assert LifeOk(m.frames, m.next, m.lives, id);
  }

  // ---------------------------------------------------------------- the future

  lemma StepLeavesFinished(m: Machine, l: Label, c: nat)
    requires Enabled(m, l) && c < |m.chains|
    ensures |m.chains| <= |Apply(m, l).chains|
    ensures m.chains[c].where.Finished? ==> Apply(m, l).chains[c] == m.chains[c]
    ensures Apply(m, l).chains[c].code == m.chains[c].code
  {
  }

  /** A future is set exactly once: when its chain ends, and never again. */
  lemma {:induction false} FutureIsSetOnce(labels: seq<Label>, k: nat, c: nat)
    requires IsRun(labels) && k <= |labels| && IsRun(labels[..k]) && c < |Exec(labels[..k]).chains|
    ensures c < |Exec(labels).chains|
    ensures Exec(labels[..k]).chains[c].promise.Some? <==> Exec(labels[..k]).chains[c].where.Finished?
    ensures Exec(labels[..k]).chains[c].promise.Some? ==> Exec(labels).chains[c] == Exec(labels[..k]).chains[c]
    decreases |labels|
  {
    RunKeeps(labels[..k]);
    assert ChainOk(Exec(labels[..k]).frames, c, Exec(labels[..k]).chains[c]);
    if k == |labels| {
      assert labels[..k] == labels;
    } else {
      var n := |labels| - 1;
      assert labels[..n][..k] == labels[..k];
      FutureIsSetOnce(labels[..n], k, c);
      StepLeavesFinished(Exec(labels[..n]), labels[n], c);
    }
  }
}
