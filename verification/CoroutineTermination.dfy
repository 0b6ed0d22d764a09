/** The trampoline comes to an end: every chain makes at most a number of steps that is known from its
    program. */
module CoroutineTermination {
  import opened Buffers
  import opened Coroutine
  import opened CoroutineInvariant

  /** The steps of a task that is called with this body, at most. */
  function Cost(code: Code): nat {
    match code
    case Ret => 2
    case Emit(_, next) => 1 + Cost(next)
    case Compute(_, next) => 1 + Cost(next)
    case Branch(zero, other) => 1 + if Cost(zero) < Cost(other) then Cost(other) else Cost(zero)
    case Await(child, next) => 3 + Cost(child) + Cost(next)
    case AwaitIo(_, next) => 2 + Cost(next)
    case Drop(_, next) => 2 + Cost(next)
    case Spawn(_, next) => 1 + Cost(next)
  }

  /** The steps of a frame that awaits the task above it, after that task. */
  function BelowLeft(h: Heap, p: Id): nat {
    if p in h && h[p].code.Await? then 1 + Cost(h[p].code.next) else 0
  }

  function StackLeft(h: Heap, below: seq<Id>): nat {
    if below == [] then 0 else StackLeft(h, below[..|below| - 1]) + BelowLeft(h, below[|below| - 1])
  }

  /** The steps left for the running frame. */
  function TopLeft(h: Heap, f: Id): int
    requires f in h
  {
    var fr := h[f];
    if fr.slot.Holds? then 1
    else match fr.temp
      case None => Cost(fr.code)
      case Some(g) =>
        if fr.code.Await? && g in h && h[g].slot.Holds? then BelowLeft(h, f) else Cost(fr.code) - 1
  }

  /** The steps left for a chain. */
  function Left(h: Heap, ch: Chain): int {
    match ch.where
    case RootHas(_) => 2 + Cost(ch.code)
    case Running(f) =>
      if f in h && ch.stack != [] then 1 + StackLeft(h, ch.stack[..|ch.stack| - 1]) + TopLeft(h, f) else 0
    case Suspended(f) =>
      if f in h && h[f].code.AwaitIo? && ch.stack != [] then
        2 + StackLeft(h, ch.stack[..|ch.stack| - 1]) + Cost(h[f].code.next)
      else 0
    case RootBack(_) => 1
    case Finished => 0
  }

  lemma {:induction false} StackLeftFrame(h: Heap, h': Heap, below: seq<Id>)
    requires forall i :: 0 <= i < |below| ==> below[i] in h && below[i] in h' && h'[below[i]].code == h[below[i]].code
    ensures StackLeft(h', below) == StackLeft(h, below)
    decreases |below|
  {
    if below != [] {
      StackLeftFrame(h, h', below[..|below| - 1]);
    }
  }

  lemma LeftOfOther(h: Heap, h': Heap, c: nat, ch: Chain)
    requires ChainOk(h, c, ch) && SameHome(h, h', c)
    ensures Left(h', ch) == Left(h, ch)
  {
    if ch.where.Running? || ch.where.Suspended? {
      var n := |ch.stack| - 1;
      forall i | 0 <= i < |ch.stack|
        ensures ch.stack[i] in h && ch.stack[i] in h' && h'[ch.stack[i]] == h[ch.stack[i]]
      {
        assert LinkOk(h, c, ch.stack, i);
      }
      StackLeftFrame(h, h', ch.stack[..n]);
      assert ch.stack[n] == ch.where.id;
    }
  }

  // ---------------------------------------------------------------- each step

  /** A step of the running frame that stays the running frame. */
  lemma TopStepCosts(h: Heap, h': Heap, c: nat, ch: Chain, ch': Chain)
    requires ChainOk(h, c, ch) && ch.where.Running? && TopOnly(h, h', ch.where.id)
    requires ch'.where == ch.where && ch'.stack == ch.stack
    requires TopLeft(h', ch.where.id) < TopLeft(h, ch.where.id)
    ensures Left(h', ch') < Left(h, ch)
  {
    TopShape(h, h', c, ch);
    StackLeftFrame(h, h', ch.stack[..|ch.stack| - 1]);
  }

  lemma SuspendCosts(h: Heap, c: nat, ch: Chain, ch': Chain)
    requires ChainOk(h, c, ch) && ch.where.Running? && h[ch.where.id].code.AwaitIo?
    requires ch'.where == Suspended(ch.where.id) && ch'.stack == ch.stack
    ensures Left(h, ch') < Left(h, ch)
  {
  }

  lemma AnswerCosts(h: Heap, h': Heap, c: nat, ch: Chain, ch': Chain, fr: Frame)
    requires ChainOk(h, c, ch) && ch.where.Suspended?
    requires ch'.where == Running(ch.where.id) && ch'.stack == ch.stack
    requires fr.temp.None? && fr.slot.Empty? && fr.code == h[ch.where.id].code.next && h' == h[ch.where.id := fr]
    ensures Left(h', ch') < Left(h, ch)
  {
    var n := |ch.stack| - 1;
    forall i | 0 <= i < n
      ensures ch.stack[i] in h && ch.stack[i] in h' && h'[ch.stack[i]] == h[ch.stack[i]]
    {
      assert LinkOk(h, c, ch.stack, i);
      assert ch.stack[i] != ch.stack[n];
    }
    StackLeftFrame(h, h', ch.stack[..n]);
  }

  lemma AwaitCosts(h: Heap, h': Heap, c: nat, ch: Chain, ch': Chain, g: Id)
    requires ChainOk(h, c, ch) && ch.where.Running?
    requires h[ch.where.id].code.Await? && h[ch.where.id].temp == Some(g) && h[g].cont.Null?
    requires h' == h[g := h[g].(cont := ToFrame(ch.where.id))]
    requires ch'.where == Running(g) && ch'.stack == ch.stack + [g]
    ensures Left(h', ch') < Left(h, ch)
  {
    var f, n := ch.where.id, |ch.stack| - 1;
    forall i | 0 <= i < |ch.stack|
      ensures ch.stack[i] in h && ch.stack[i] in h' && h'[ch.stack[i]].code == h[ch.stack[i]].code
    {
      assert LinkOk(h, c, ch.stack, i);
    }
    assert (ch.stack + [g])[..n + 1] == ch.stack;
    StackLeftFrame(h, h', ch.stack);
    assert StackLeft(h, ch.stack) == StackLeft(h, ch.stack[..n]) + BelowLeft(h, f);
    assert h[g] == Fresh(h[f].code.child, h[f].acc, c);
    assert TopLeft(h, f) == Cost(h[f].code) - 1;
    assert TopLeft(h', g) == Cost(h[f].code.child);
  }

  lemma ReturnCosts(h: Heap, c: nat, ch: Chain, ch': Chain)
    requires ChainOk(h, c, ch) && ch.where.Running?
    requires h[ch.where.id].slot.Holds? && h[ch.where.id].cont.ToFrame?
    requires ch'.where == Running(h[ch.where.id].cont.id) && ch'.stack == ch.stack[..|ch.stack| - 1]
    ensures Left(h, ch') < Left(h, ch)
  {
    var f, n := ch.where.id, |ch.stack| - 1;
    var p := h[f].cont.id;
    assert LinkOk(h, c, ch.stack, n);
    assert LinkOk(h, c, ch.stack, n - 1);
    assert ch.stack[..n][..n - 1] == ch.stack[..n - 1];
    assert TopLeft(h, p) == BelowLeft(h, p);
  }

  predicate Concerns(l: Label, c: nat) {
    (l.Advance? && l.c == c) || (l.Deliver? && l.c == c)
  }

  lemma RunningCosts(m: Machine, c: nat, f: Id)
    requires Inv(m) && c < |m.chains| && m.chains[c].where == Running(f) && CanRun(m, f)
    ensures var m' := StepRunning(m, c, f); Left(m'.frames, m'.chains[c]) < Left(m.frames, m.chains[c])
  {
    var m', ch, fr := StepRunning(m, c, f), m.chains[c], m.frames[f];
    var h, h' := m.frames, m'.frames;
    assert ChainOk(h, c, ch);
    match fr.code {
      case Emit(_, _) => TopStepCosts(h, h', c, ch, m'.chains[c]);
      case Compute(_, _) => TopStepCosts(h, h', c, ch, m'.chains[c]);
      case Branch(_, _) => TopStepCosts(h, h', c, ch, m'.chains[c]);
      case AwaitIo(_, _) => SuspendCosts(h, c, ch, m'.chains[c]);
      case Spawn(_, _) => SpawnCosts(m, c, f);
      case Ret => RetCosts(m, c, f);
      case Await(_, _) => AwaitingCosts(m, c, f);
      case Drop(_, _) => DropCosts(m, c, f);
    }
  }

  lemma RetCosts(m: Machine, c: nat, f: Id)
    requires Inv(m) && c < |m.chains| && m.chains[c].where == Running(f) && CanRun(m, f) && m.frames[f].code.Ret?
    ensures var m' := StepRunning(m, c, f); Left(m'.frames, m'.chains[c]) < Left(m.frames, m.chains[c])
  {
    var m', ch, fr := StepRunning(m, c, f), m.chains[c], m.frames[f];
    assert ChainOk(m.frames, c, ch);
    if fr.slot.Empty? {
      TopStepCosts(m.frames, m'.frames, c, ch, m'.chains[c]);
    } else if fr.cont.ToFrame? {
      ReturnCosts(m.frames, c, ch, m'.chains[c]);
    }
  }

  lemma AwaitingCosts(m: Machine, c: nat, f: Id)
    requires Inv(m) && c < |m.chains| && m.chains[c].where == Running(f) && CanRun(m, f) && m.frames[f].code.Await?
    ensures var m' := StepRunning(m, c, f); Left(m'.frames, m'.chains[c]) < Left(m.frames, m.chains[c])
  {
    var m', ch, fr := StepRunning(m, c, f), m.chains[c], m.frames[f];
    assert ChainOk(m.frames, c, ch);
    assert m.next !in m.frames by {
      assert AliveOk(m.frames, m.next, m.chains, m.next);
    }
    if fr.temp.Some? && m.frames[fr.temp.value].cont.Null? {
      AwaitCosts(m.frames, m'.frames, c, ch, m'.chains[c], fr.temp.value);
    } else {
      TopStepCosts(m.frames, m'.frames, c, ch, m'.chains[c]);
    }
  }

  lemma DropCosts(m: Machine, c: nat, f: Id)
    requires Inv(m) && c < |m.chains| && m.chains[c].where == Running(f) && CanRun(m, f) && m.frames[f].code.Drop?
    ensures var m' := StepRunning(m, c, f); Left(m'.frames, m'.chains[c]) < Left(m.frames, m.chains[c])
  {
    var m', ch := StepRunning(m, c, f), m.chains[c];
    assert ChainOk(m.frames, c, ch);
    assert m.next !in m.frames by {
      assert AliveOk(m.frames, m.next, m.chains, m.next);
    }
    TopStepCosts(m.frames, m'.frames, c, ch, m'.chains[c]);
  }

  lemma SpawnCosts(m: Machine, c: nat, f: Id)
    requires Inv(m) && c < |m.chains| && m.chains[c].where == Running(f) && CanRun(m, f) && m.frames[f].code.Spawn?
    ensures var m' := StepRunning(m, c, f); Left(m'.frames, m'.chains[c]) < Left(m.frames, m.chains[c])
  {
    var m', ch := StepRunning(m, c, f), m.chains[c];
    assert ChainOk(m.frames, c, ch);
    assert m.next !in m.frames by {
      assert AliveOk(m.frames, m.next, m.chains, m.next);
    }
    assert m'.chains[c].where == ch.where && m'.chains[c].stack == ch.stack;
    TopStepCosts(m.frames, m'.frames, c, ch, m'.chains[c]);
  }

  /** A step of a chain takes one of its steps away, and leaves those of the other chains. */
  lemma StepCosts(m: Machine, l: Label, c: nat)
    requires Inv(m) && Enabled(m, l) && c < |m.chains|
    ensures var m' := Apply(m, l);
            Left(m'.frames, m'.chains[c]) + (if Concerns(l, c) then 1 else 0) <= Left(m.frames, m.chains[c])
  {
    var m' := Apply(m, l);
    assert ChainOk(m.frames, c, m.chains[c]);
    if Concerns(l, c) {
      match l {
        case Deliver(_, v) => AnswerCosts(m.frames, m'.frames, c, m.chains[c], m'.chains[c],
             m'.frames[m.chains[c].where.id]);
        case Advance(_) =>
          if m.chains[c].where.Running? {
            RunningCosts(m, c, m.chains[c].where.id);
          }
      }
    } else {
      OthersUntouched(m, l, c);
      LeftOfOther(m.frames, m'.frames, c, m.chains[c]);
    }
  }

  lemma RunningUntouched(m: Machine, c: nat, f: Id, d: nat)
    requires ChainsInv(m) && m.next !in m.frames && d < |m.chains| && d != c
    requires c < |m.chains| && m.chains[c].where == Running(f) && CanRun(m, f)
    ensures var m' := StepRunning(m, c, f); m'.chains[d] == m.chains[d] && SameHome(m.frames, m'.frames, d)
  {
    TopHome(m, c);
    assert ChainOk(m.frames, c, m.chains[c]);
  }

  lemma OthersUntouched(m: Machine, l: Label, d: nat)
    requires ChainsInv(m) && AliveInv(m) && Enabled(m, l) && d < |m.chains| && !Concerns(l, d)
    ensures var m' := Apply(m, l); m'.chains[d] == m.chains[d] && SameHome(m.frames, m'.frames, d)
  {
    assert m.next !in m.frames by {
      assert AliveOk(m.frames, m.next, m.chains, m.next);
    }
    match l {
      case Launch(_, _) =>
      case Deliver(c, _) => TopHome(m, c);
      case Advance(c) =>
        assert ChainOk(m.frames, c, m.chains[c]);
        if m.chains[c].where.Running? {
          RunningUntouched(m, c, m.chains[c].where.id, d);
        }
    }
  }

  // ---------------------------------------------------------------- the bound

  /** The steps of a chain in a run. */
  ghost function Steps(labels: seq<Label>, c: nat): nat {
    if labels == [] then 0
    else Steps(labels[..|labels| - 1], c) + if Concerns(labels[|labels| - 1], c) then 1 else 0
  }

  lemma {:induction false} NoStepsYet(labels: seq<Label>, c: nat)
    requires IsRun(labels) && c >= |Exec(labels).chains|
    ensures Steps(labels, c) == 0
    decreases |labels|
  {
    if labels != [] {
      var k := |labels| - 1;
      ChainsGrow(Exec(labels[..k]), labels[k]);
      NoStepsYet(labels[..k], c);
    }
  }

  lemma ChainsGrow(m: Machine, l: Label)
    requires Enabled(m, l)
    ensures |m.chains| <= |Apply(m, l).chains| <= |m.chains| + 1
    ensures forall c :: 0 <= c < |m.chains| ==>
              Apply(m, l).chains[c].code == m.chains[c].code
    ensures forall c :: |m.chains| <= c < |Apply(m, l).chains| ==>
              Apply(m, l).chains[c].where.RootHas?
  {
  }

  lemma {:induction false} StepsAndLeft(labels: seq<Label>, c: nat)
    requires IsRun(labels) && c < |Exec(labels).chains|
    ensures var m := Exec(labels); Steps(labels, c) + Left(m.frames, m.chains[c]) <= 2 + Cost(m.chains[c].code)
    decreases |labels|
  {
    var k := |labels| - 1;
    var m := Exec(labels[..k]);
    ChainsGrow(m, labels[k]);
    if c < |m.chains| {
      StepsAndLeft(labels[..k], c);
      RunKeeps(labels[..k]);
      StepCosts(m, labels[k], c);
    } else {
      NoStepsYet(labels[..k], c);
    }
  }

  lemma {:induction false} LeftIsPositive(h: Heap, c: nat, ch: Chain)
    requires ChainOk(h, c, ch)
    ensures Left(h, ch) >= 0 && (!ch.where.Finished? ==> Left(h, ch) > 0)
  {
    if ch.where.Running? {
      assert Cost(h[ch.where.id].code) >= 1;
    }
  }

  /** Every chain makes at most `Cost` steps and two more, in every run; with `NeverStuck`, a chain
      whose operations are answered and that is given steps comes to its end. */
  lemma ChainsComeToAnEnd(labels: seq<Label>, c: nat)
    requires IsRun(labels) && c < |Exec(labels).chains|
    ensures Steps(labels, c) <= 2 + Cost(Exec(labels).chains[c].code)
    ensures Steps(labels, c) == 2 + Cost(Exec(labels).chains[c].code) ==> Exec(labels).chains[c].where.Finished?
  {
    StepsAndLeft(labels, c);
    RunKeeps(labels);
    LeftIsPositive(Exec(labels).frames, c, Exec(labels).chains[c]);
  }
}
