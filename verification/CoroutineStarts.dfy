/** Where chains and frames come from (`ark/coroutine/co_async.hpp`, `task.hpp`): each call of `co_async`, from
    outside or from
    a coroutine, starts one chain with the task it was given, and each creation of a task makes one frame; and there
    are no others. */
module CoroutineStarts {
  import opened Buffers
  import opened Coroutine
  import opened CoroutineInvariant

  /** What a chain or a frame stems from: a label of the run, or an event in the log of a chain. */
  datatype Source = OfLabel(k: nat) | OfEvent(c: nat, e: nat)

  predicate Starts(e: Event, tasks: bool) {
    e.Spawned? || (tasks && e.Created?)
  }

  /** A call of `co_async`, or, for `tasks`, also the creation of a task by a coroutine. */
  predicate IsSource(labels: seq<Label>, chains: seq<Chain>, tasks: bool, s: Source) {
    match s
    case OfLabel(k) => k < |labels| && labels[k].Launch?
    case OfEvent(c, e) => c < |chains| && e < |chains[c].log| && Starts(chains[c].log[e], tasks)
  }

  /** The task a chain was started with is the one its source names. */
  predicate Matches(labels: seq<Label>, chains: seq<Chain>, s: Source, ch: Chain) {
    IsSource(labels, chains, false, s) &&
    match s
    case OfLabel(k) => ch.code == labels[k].code && ch.arg == labels[k].arg
    case OfEvent(c, e) => chains[c].log[e] == Spawned(ch.code, ch.arg)
  }

  /** These are all the sources, each once. */
  ghost predicate OneForOne(labels: seq<Label>, chains: seq<Chain>, tasks: bool, sources: seq<Source>) {
    && (forall i :: 0 <= i < |sources| ==> IsSource(labels, chains, tasks, sources[i]))
    && (forall i, j :: 0 <= i < j < |sources| ==> sources[i] != sources[j])
    && (forall s :: IsSource(labels, chains, tasks, s) ==> s in sources)
  }

  // ---------------------------------------------------------------- one step

  /** The event a step logs, and in which chain. */
  function Logs(m: Machine, l: Label): Option<(nat, Event)>
    requires Enabled(m, l)
  {
    if !l.Advance? || !m.chains[l.c].where.Running? then None
    else
      var fr := m.frames[m.chains[l.c].where.id];
      match fr.code
      case Emit(t, _) => Some((l.c, Emitted(t, fr.acc)))
      case AwaitIo(q, _) => Some((l.c, Asked(q, fr.acc)))
      case Await(child, _) => if fr.temp.None? then Some((l.c, Created(child, fr.acc))) else None
      case Drop(child, _) => if fr.temp.None? then Some((l.c, Created(child, fr.acc))) else None
      case Spawn(child, _) => Some((l.c, Spawned(child, fr.acc)))
      case _ => None
  }

  /** The logs of the old chains grow by that event; and there is a new chain exactly if it starts one or code
      outside of
      coroutines does, and a new frame exactly if a task is created. */
  ghost predicate GrowsBy(m: Machine, m': Machine, l: Label, e: Option<(nat, Event)>) {
    var started := l.Launch? || (e.Some? && e.value.1.Spawned?);
    && |m'.chains| == |m.chains| + (if started then 1 else 0)
    && m'.next == m.next + (if started || (e.Some? && e.value.1.Created?) then 1 else 0)
    && (e.Some? ==> e.value.0 < |m.chains| && !l.Launch?)
    && (forall d :: 0 <= d < |m.chains| ==>
          && m'.chains[d].code == m.chains[d].code && m'.chains[d].arg == m.chains[d].arg
          && m'.chains[d].log == m.chains[d].log + if e.Some? && e.value.0 == d then [e.value.1] else [])
    && (started ==>
          var ch := m'.chains[|m.chains|];
          && ch.log == [] && ch.answers == [] && ch.where == RootHas(m.next)
          && (if l.Launch? then ch.code == l.code && ch.arg == l.arg else e.value.1 == Spawned(ch.code, ch.arg)))
  }

  lemma RunningGrows(m: Machine, c: nat, f: Id)
    requires c < |m.chains| && m.chains[c].where == Running(f) && CanRun(m, f)
    ensures GrowsBy(m, StepRunning(m, c, f), Advance(c), Logs(m, Advance(c)))
  {
    match m.frames[f].code {
      case Ret => case Emit(_, _) => case Compute(_, _) => case Branch(_, _) =>
      case Await(_, _) => case AwaitIo(_, _) => case Drop(_, _) => case Spawn(_, _) =>
    }
  }

  lemma StepGrows(m: Machine, l: Label)
    requires Enabled(m, l)
    ensures GrowsBy(m, Apply(m, l), l, Logs(m, l))
  {
    if l.Advance? && m.chains[l.c].where.Running? {
      RunningGrows(m, l.c, m.chains[l.c].where.id);
    }
  }

  // ---------------------------------------------------------------- whole runs

  /** The source a step adds, if it adds one. */
  function NewSource(labels: seq<Label>, m: Machine, l: Label, tasks: bool): seq<Source>
    requires Enabled(m, l)
  {
    var e := Logs(m, l);
    if l.Launch? then [OfLabel(|labels|)]
    else if e.Some? && e.value.0 < |m.chains| && Starts(e.value.1, tasks) then
      [OfEvent(e.value.0, |m.chains[e.value.0].log|)]
    else []
  }

  lemma SourceNext(labels: seq<Label>, m: Machine, l: Label, tasks: bool, s: Source)
    requires Enabled(m, l)
    ensures IsSource(labels + [l], Apply(m, l).chains, tasks, s) <==>
              IsSource(labels, m.chains, tasks, s) || s in NewSource(labels, m, l, tasks)
    ensures IsSource(labels, m.chains, tasks, s) ==> s !in NewSource(labels, m, l, tasks)
  {
    StepGrows(m, l);
    var chains' := Apply(m, l).chains;
    if s.OfEvent? && s.c < |m.chains| {
      assert chains'[s.c].log[..|m.chains[s.c].log|] == m.chains[s.c].log;
    }
  }

  lemma OneForOneNext(labels: seq<Label>, m: Machine, l: Label, tasks: bool, sources: seq<Source>)
    requires Enabled(m, l) && OneForOne(labels, m.chains, tasks, sources)
    ensures OneForOne(labels + [l], Apply(m, l).chains, tasks, sources + NewSource(labels, m, l, tasks))
  {
    var sources' := sources + NewSource(labels, m, l, tasks);
    var labels', chains' := labels + [l], Apply(m, l).chains;
    forall i | 0 <= i < |sources'|
      ensures IsSource(labels', chains', tasks, sources'[i])
      ensures i >= |sources| ==> sources'[i] !in sources
    {
      SourceNext(labels, m, l, tasks, sources'[i]);
    }
    forall s | IsSource(labels', chains', tasks, s)
      ensures s in sources'
    {
      SourceNext(labels, m, l, tasks, s);
    }
  }

  lemma MatchesNext(labels: seq<Label>, m: Machine, l: Label, s: Source, d: nat)
    requires Enabled(m, l) && d < |m.chains| && Matches(labels, m.chains, s, m.chains[d])
    ensures d < |Apply(m, l).chains| && Matches(labels + [l], Apply(m, l).chains, s, Apply(m, l).chains[d])
  {
    StepGrows(m, l);
    if s.OfEvent? {
      assert Apply(m, l).chains[s.c].log[..|m.chains[s.c].log|] == m.chains[s.c].log;
    }
  }

  lemma NewMatches(labels: seq<Label>, m: Machine, l: Label)
    requires Enabled(m, l) && |Apply(m, l).chains| > |m.chains|
    ensures var added := NewSource(labels, m, l, false);
            |added| == 1 && Matches(labels + [l], Apply(m, l).chains, added[0], Apply(m, l).chains[|m.chains|])
  {
    StepGrows(m, l);
  }

  /** Over every run: the chains are, one for one, the calls of `co_async` from outside and the `Spawned` events of all
      logs, each with the task it was given; and the frames ever created are, one for one, those of the chains
      and the `Created` events of all logs. */
  lemma {:induction false} AllStarted(labels: seq<Label>) returns (ofChains: seq<Source>, ofFrames: seq<Source>)
    requires IsRun(labels)
    ensures |ofChains| == |Exec(labels).chains| && OneForOne(labels, Exec(labels).chains, false, ofChains)
    ensures |ofFrames| == Exec(labels).next && OneForOne(labels, Exec(labels).chains, true, ofFrames)
    ensures forall d :: 0 <= d < |ofChains| ==> Matches(labels, Exec(labels).chains, ofChains[d],
            Exec(labels).chains[d])
    decreases |labels|
  {
    if labels == [] {
      ofChains, ofFrames := [], [];
    } else {
      var k := |labels| - 1;
      var m, l := Exec(labels[..k]), labels[k];
      assert labels[..k] + [l] == labels;
      ofChains, ofFrames := AllStarted(labels[..k]);
      StepGrows(m, l);
      OneForOneNext(labels[..k], m, l, false, ofChains);
      OneForOneNext(labels[..k], m, l, true, ofFrames);
      ofChains := ChainsMatch(labels[..k], m, l, ofChains);
      ofFrames := ofFrames + NewSource(labels[..k], m, l, true);
    }
  }

  lemma ChainsMatch(labels: seq<Label>, m: Machine, l: Label, ofChains: seq<Source>) returns (longer: seq<Source>)
    requires Enabled(m, l) && |ofChains| == |m.chains|
    requires forall d :: 0 <= d < |ofChains| ==> Matches(labels, m.chains, ofChains[d], m.chains[d])
    ensures longer == ofChains + NewSource(labels, m, l, false) && |longer| == |Apply(m, l).chains|
    ensures forall d :: 0 <= d < |longer| ==> Matches(labels + [l], Apply(m, l).chains, longer[d], Apply(m,
            l).chains[d])
  {
    longer := ofChains + NewSource(labels, m, l, false);
    StepGrows(m, l);
    forall d | 0 <= d < |longer|
      ensures Matches(labels + [l], Apply(m, l).chains, longer[d], Apply(m, l).chains[d])
    {
      if d < |m.chains| {
        MatchesNext(labels, m, l, ofChains[d], d);
      } else {
        NewMatches(labels, m, l);
      }
    }
  }

  /** In particular, every task a coroutine starts has a chain of its own, with that task. */
  lemma SpawnedIsStarted(labels: seq<Label>, c: nat, e: nat) returns (d: nat)
    requires IsRun(labels) && c < |Exec(labels).chains| && e < |Exec(labels).chains[c].log|
    requires Exec(labels).chains[c].log[e].Spawned?
    ensures d < |Exec(labels).chains|
    ensures Exec(labels).chains[c].log[e] == Spawned(Exec(labels).chains[d].code, Exec(labels).chains[d].arg)
  {
    var ofChains, ofFrames := AllStarted(labels);
    var s := OfEvent(c, e);
    assert IsSource(labels, Exec(labels).chains, false, s);
    d :| 0 <= d < |ofChains| && ofChains[d] == s;
    assert Matches(labels, Exec(labels).chains, ofChains[d], Exec(labels).chains[d]);
  }
}
