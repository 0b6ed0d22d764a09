/** What every step of the trampoline keeps: the shape of the chains of frames, and that each chain
    still has to do what is left of its task when called directly. */
module CoroutineInvariant {
  import opened Buffers
  import opened Coroutine

  type Heap = map<Id, Frame>

  // ---------------------------------------------------------------- the shape of a chain

  /** A frame on the stack of a chain returns to the one below it, and all but the last own the
      task above them. */
  predicate LinkOk(h: Heap, c: nat, stack: seq<Id>, i: nat) {
    && i < |stack| && stack[i] in h
    && var fr := h[stack[i]];
       && fr.home == c
       && fr.cont == (if i == 0 then ToRoot else ToFrame(stack[i - 1]))
       && (i + 1 < |stack| ==> fr.temp == Some(stack[i + 1]) && fr.code.Await? && fr.slot.Empty?)
  }

  ghost predicate StackOk(h: Heap, c: nat, stack: seq<Id>) {
    && (forall i :: 0 <= i < |stack| ==> LinkOk(h, c, stack, i))
    && (forall i, j :: 0 <= i < j < |stack| ==> stack[i] != stack[j])
  }

  /** A task that has run to its end and was not destroyed yet. */
  predicate Ended(fr: Frame) {
    fr.code.Ret? && fr.slot.Holds? && fr.temp.None? && !fr.cont.Null?
  }

  /** The running frame: its slot is filled only at the end, and a task it owns is one it just created
      or one that just came back to it. */
  predicate TopOk(h: Heap, c: nat, f: Id) {
    && f in h
    && var fr := h[f];
       && (fr.slot.Holds? ==> fr.code.Ret? && fr.temp.None?)
       && (fr.temp.Some? ==>
             var g := fr.temp.value;
             && g in h && h[g].home == c && g != f
             && (fr.code.Await? || fr.code.Drop?)
             && (h[g] == Fresh(fr.code.child, fr.acc, c)
                  || (fr.code.Await? && Ended(h[g]) && h[g].cont == ToFrame(f))))
  }

  predicate RootOk(h: Heap, c: nat, g: Id) {
    g in h && h[g].home == c
  }

  ghost predicate ChainOk(h: Heap, c: nat, ch: Chain) {
    match ch.where
    case RootHas(g) =>
      RootOk(h, c, g) && h[g] == Fresh(ch.code, ch.arg, c) && ch.stack == [] && ch.promise.None?
    case Running(f) =>
      && ch.stack != [] && ch.stack[|ch.stack| - 1] == f
      && StackOk(h, c, ch.stack) && TopOk(h, c, f) && ch.promise.None?
    case Suspended(f) =>
      && ch.stack != [] && ch.stack[|ch.stack| - 1] == f
      && StackOk(h, c, ch.stack) && f in h && h[f].code.AwaitIo? && h[f].temp.None? && h[f].slot.Empty?
      && ch.promise.None?
    case RootBack(g) => RootOk(h, c, g) && Ended(h[g]) && ch.stack == [] && ch.promise.None?
    case Finished => ch.stack == [] && ch.promise.Some?
  }

  /** The frames that are alive because of a chain. */
  predicate Uses(h: Heap, ch: Chain, id: Id) {
    match ch.where
    case RootHas(g) => id == g
    case RootBack(g) => id == g
    case Finished => false
    case _ => id in ch.stack || (ch.stack != [] && ch.stack[|ch.stack| - 1] in h
                                   && h[ch.stack[|ch.stack| - 1]].temp == Some(id))
  }

  // ---------------------------------------------------------------- the meaning of a chain

  /** What the frames below still do with the result of the frame above them. */
  function Unwind(h: Heap, below: seq<Id>, r: Eval): Eval
    decreases |below|
  {
    if below == [] || r.Stuck? then r
    else
      var k := |below| - 1;
      var p := below[k];
      if p in h && h[p].code.Await? then
        Prefix(r.log, Unwind(h, below[..k], Direct(h[p].code.next, r.value, r.rest)))
      else r
  }

  /** What a frame does that has created the task it awaits. */
  function AwaitEval(child: Code, next: Code, acc: int, answers: seq<int>): Eval {
    match Direct(child, acc, answers)
    case Done(v, l, rest) => Prefix(l, Direct(next, v, rest))
    case Stuck(l) => Stuck(l)
  }

  /** What the running frame still does. */
  function TopEval(h: Heap, f: Id, answers: seq<int>): Eval
    requires f in h
  {
    var fr := h[f];
    if fr.slot.Holds? then Done(fr.slot.value, [], answers)
    else if fr.code.Await? && fr.temp.Some? then
      if fr.temp.value in h && h[fr.temp.value].slot.Holds? then
        Direct(fr.code.next, h[fr.temp.value].slot.value, answers)
      else AwaitEval(fr.code.child, fr.code.next, fr.acc, answers)
    else if fr.code.Drop? && fr.temp.Some? then Direct(fr.code.next, fr.acc, answers)
    else Direct(fr.code, fr.acc, answers)
  }

  /** What a frame does that waits for an answer. */
  function WaitEval(next: Code, answers: seq<int>): Eval {
    if answers == [] then Stuck([]) else Direct(next, answers[0], answers[1..])
  }

  function Meaning(h: Heap, ch: Chain, answers: seq<int>): Eval {
    match ch.where
    case RootHas(g) => Direct(ch.code, ch.arg, answers)
    case Running(f) =>
      if f in h && ch.stack != [] then Unwind(h, ch.stack[..|ch.stack| - 1], TopEval(h, f, answers)) else Stuck([])
    case Suspended(f) =>
      if f in h && h[f].code.AwaitIo? && ch.stack != [] then
        Unwind(h, ch.stack[..|ch.stack| - 1], WaitEval(h[f].code.next, answers))
      else Stuck([])
    case RootBack(g) => if g in h && h[g].slot.Holds? then Done(h[g].slot.value, [], answers) else Stuck([])
    case Finished => if ch.promise.Some? then Done(ch.promise.value, [], answers) else Stuck([])
  }

  /** Whatever answers are still to come: the effects so far, followed by what is left, are those
      of the direct call. */
  ghost predicate Faithful(h: Heap, ch: Chain) {
    forall more: seq<int> ::
      Prefix(ch.log, Meaning(h, ch, more)) == Direct(ch.code, ch.arg, ch.answers + more)
  }

  lemma PrefixTwice(a: seq<Event>, b: seq<Event>, r: Eval)
    ensures Prefix(a, Prefix(b, r)) == Prefix(a + b, r)
    ensures Prefix([], r) == r
  {
    match r {
      case Done(v, l, rest) => assert a + (b + l) == a + b + l; assert [] + l == l;
      case Stuck(l) => assert a + (b + l) == a + b + l; assert [] + l == l;
    }
  }

  lemma {:induction false} UnwindPrefix(h: Heap, below: seq<Id>, log: seq<Event>, r: Eval)
    ensures Unwind(h, below, Prefix(log, r)) == Prefix(log, Unwind(h, below, r))
    decreases |below|
  {
    if below != [] && r.Done? {
      var k := |below| - 1;
      var p := below[k];
      if p in h && h[p].code.Await? {
        PrefixTwice(log, r.log, Unwind(h, below[..k], Direct(h[p].code.next, r.value, r.rest)));
      }
    }
  }

  /** Only the code of the frames below matters. */
  lemma {:induction false} UnwindFrame(h: Heap, h': Heap, below: seq<Id>, r: Eval)
    requires forall i :: 0 <= i < |below| ==> below[i] in h && below[i] in h' && h'[below[i]].code == h[below[i]].code
    ensures Unwind(h', below, r) == Unwind(h, below, r)
    decreases |below|
  {
    if below != [] && r.Done? {
      var k := |below| - 1;
      var p := below[k];
      assert p in h && p in h' && h'[p].code == h[p].code;
      if h[p].code.Await? {
        UnwindFrame(h, h', below[..k], Direct(h[p].code.next, r.value, r.rest));
      }
    }
  }

  // ---------------------------------------------------------------- other chains

  /** The frames of a chain are not touched. */
  ghost predicate SameHome(h: Heap, h': Heap, c: nat) {
    forall id :: id in h && h[id].home == c ==> id in h' && h'[id] == h[id]
  }

  lemma OtherChain(h: Heap, h': Heap, c: nat, ch: Chain)
    requires ChainOk(h, c, ch) && Faithful(h, ch) && SameHome(h, h', c)
    ensures ChainOk(h', c, ch) && Faithful(h', ch)
  {
    OtherShape(h, h', c, ch);
    forall more: seq<int>
      ensures Meaning(h', ch, more) == Meaning(h, ch, more)
    {
      OtherMeaning(h, h', c, ch, more);
    }
  }

  lemma OtherShape(h: Heap, h': Heap, c: nat, ch: Chain)
    requires ChainOk(h, c, ch) && SameHome(h, h', c)
    ensures ChainOk(h', c, ch)
  {
    forall i | 0 <= i < |ch.stack|
      ensures LinkOk(h', c, ch.stack, i)
    {
      assert LinkOk(h, c, ch.stack, i);
    }
    if ch.stack != [] {
      assert LinkOk(h, c, ch.stack, |ch.stack| - 1);
    }
  }

  lemma OtherMeaning(h: Heap, h': Heap, c: nat, ch: Chain, more: seq<int>)
    requires ChainOk(h, c, ch) && SameHome(h, h', c)
    ensures Meaning(h', ch, more) == Meaning(h, ch, more)
  {
    if ch.where.Running? || ch.where.Suspended? {
      var n := |ch.stack| - 1;
      var below := ch.stack[..n];
      forall i | 0 <= i < |ch.stack|
        ensures ch.stack[i] in h && ch.stack[i] in h' && h'[ch.stack[i]] == h[ch.stack[i]]
      {
        assert LinkOk(h, c, ch.stack, i);
      }
      var f := ch.where.id;
      assert ch.stack[n] == f;
      if ch.where.Running? {
        UnwindFrame(h, h', below, TopEval(h, f, more));
      } else {
        UnwindFrame(h, h', below, WaitEval(h[f].code.next, more));
      }
    }
  }

  // ---------------------------------------------------------------- steps of the running frame

  /** The running frame `f` of a chain changed, and perhaps a task it owns came or went; the frames
      below it are as before. */
  ghost predicate TopOnly(h: Heap, h': Heap, f: Id) {
    && f in h && f in h'
    && h'[f].home == h[f].home && h'[f].cont == h[f].cont
    && forall id :: id in h && id != f && Some(id) != h[f].temp ==> id in h' && h'[id] == h[id]
  }

  /** The frame above a frame on the stack is the one it owns, so what the running frame owns is
      not on the stack. */
  lemma TempOffStack(h: Heap, c: nat, ch: Chain, i: nat)
    requires ChainOk(h, c, ch) && ch.where.Running? && i < |ch.stack|
    ensures h[ch.where.id].temp != Some(ch.stack[i])
  {
    var f := ch.where.id;
    assert LinkOk(h, c, ch.stack, i);
    assert LinkOk(h, c, ch.stack, |ch.stack| - 1);
  }

  lemma TopShape(h: Heap, h': Heap, c: nat, ch: Chain)
    requires ChainOk(h, c, ch) && ch.where.Running? && TopOnly(h, h', ch.where.id)
    ensures StackOk(h', c, ch.stack)
    ensures forall i :: 0 <= i < |ch.stack| - 1 ==>
              ch.stack[i] in h && ch.stack[i] in h' && h'[ch.stack[i]] == h[ch.stack[i]]
  {
    var f, n := ch.where.id, |ch.stack| - 1;
    forall i | 0 <= i < |ch.stack|
      ensures LinkOk(h', c, ch.stack, i)
      ensures i < n ==> ch.stack[i] in h && ch.stack[i] in h' && h'[ch.stack[i]] == h[ch.stack[i]]
    {
      assert LinkOk(h, c, ch.stack, i);
      TempOffStack(h, c, ch, i);
      assert i < n ==> ch.stack[i] != ch.stack[n];
    }
  }

  /** The running frame makes a step with the effects `e` and stays the running frame. */
  lemma TopStep(h: Heap, h': Heap, c: nat, ch: Chain, e: seq<Event>)
    requires ChainOk(h, c, ch) && ch.where.Running? && Faithful(h, ch)
    requires TopOnly(h, h', ch.where.id) && TopOk(h', c, ch.where.id)
    requires forall more :: TopEval(h, ch.where.id, more) == Prefix(e, TopEval(h', ch.where.id, more))
    ensures ChainOk(h', c, ch.(log := ch.log + e)) && Faithful(h', ch.(log := ch.log + e))
  {
    var f, below := ch.where.id, ch.stack[..|ch.stack| - 1];
    TopShape(h, h', c, ch);
    forall more: seq<int>
      ensures Prefix(ch.log + e, Meaning(h', ch, more)) == Prefix(ch.log, Meaning(h, ch, more))
    {
      UnwindFrame(h, h', below, TopEval(h', f, more));
      UnwindPrefix(h, below, e, TopEval(h', f, more));
      PrefixTwice(ch.log, e, Unwind(h', below, TopEval(h', f, more)));
    }
    assert Meaning(h', ch.(log := ch.log + e), []) == Meaning(h', ch, []);
    forall more: seq<int>
      ensures Meaning(h', ch.(log := ch.log + e), more) == Meaning(h', ch, more)
    {
    }
  }

  /** The running frame awaits the task it created: the task becomes the running frame. */
  lemma AwaitStep(h: Heap, c: nat, ch: Chain, g: Id)
    requires ChainOk(h, c, ch) && ch.where.Running? && Faithful(h, ch)
    requires h[ch.where.id].code.Await? && h[ch.where.id].temp == Some(g) && h[g].cont.Null?
    ensures var h' := h[g := h[g].(cont := ToFrame(ch.where.id))];
            var ch' := ch.(where := Running(g), stack := ch.stack + [g]);
            ChainOk(h', c, ch') && Faithful(h', ch')
  {
    var h' := h[g := h[g].(cont := ToFrame(ch.where.id))];
    var ch' := ch.(where := Running(g), stack := ch.stack + [g]);
    AwaitShape(h, c, ch, g);
    forall more: seq<int>
      ensures Meaning(h', ch', more) == Meaning(h, ch, more)
    {
      AwaitMeaning(h, h', c, ch, g, more);
    }
  }

  lemma AwaitShape(h: Heap, c: nat, ch: Chain, g: Id)
    requires ChainOk(h, c, ch) && ch.where.Running?
    requires h[ch.where.id].code.Await? && h[ch.where.id].temp == Some(g) && h[g].cont.Null?
    ensures ChainOk(h[g := h[g].(cont := ToFrame(ch.where.id))], c, ch.(where := Running(g), stack := ch.stack + [g]))
  {
    var f, n := ch.where.id, |ch.stack|;
    var h', stack := h[g := h[g].(cont := ToFrame(f))], ch.stack + [g];
    assert LinkOk(h, c, ch.stack, n - 1);
    forall i | 0 <= i < |stack|
      ensures LinkOk(h', c, stack, i)
      ensures i < n ==> stack[i] != g
    {
      if i < n {
        assert LinkOk(h, c, ch.stack, i);
        TempOffStack(h, c, ch, i);
      }
    }
  }

  lemma AwaitMeaning(h: Heap, h': Heap, c: nat, ch: Chain, g: Id, more: seq<int>)
    requires ChainOk(h, c, ch) && ch.where.Running?
    requires h[ch.where.id].code.Await? && h[ch.where.id].temp == Some(g) && h[g].cont.Null?
    requires h' == h[g := h[g].(cont := ToFrame(ch.where.id))]
    ensures Meaning(h', ch.(where := Running(g), stack := ch.stack + [g]), more) == Meaning(h, ch, more)
  {
    var f, n := ch.where.id, |ch.stack| - 1;
    var below, fr := ch.stack[..n], h[f];
    forall i | 0 <= i < |ch.stack|
      ensures ch.stack[i] in h && ch.stack[i] in h' && h'[ch.stack[i]].code == h[ch.stack[i]].code
    {
      assert LinkOk(h, c, ch.stack, i);
    }
    assert (ch.stack + [g])[..n + 1] == ch.stack;
    var r := Direct(fr.code.child, fr.acc, more);
    UnwindFrame(h, h', ch.stack, r);
    if r.Done? {
      UnwindPrefix(h, below, r.log, Direct(fr.code.next, r.value, r.rest));
    }
  }

  /** The running frame has stored its value: it resumes the frame that awaits it. */
  lemma ReturnStep(h: Heap, c: nat, ch: Chain)
    requires ChainOk(h, c, ch) && ch.where.Running? && Faithful(h, ch)
    requires h[ch.where.id].slot.Holds? && h[ch.where.id].cont.ToFrame?
    ensures var ch' := ch.(where := Running(h[ch.where.id].cont.id), stack := ch.stack[..|ch.stack| - 1]);
            ChainOk(h, c, ch') && Faithful(h, ch')
  {
    var f, n := ch.where.id, |ch.stack| - 1;
    var p := h[f].cont.id;
    var ch' := ch.(where := Running(p), stack := ch.stack[..n]);
    assert LinkOk(h, c, ch.stack, n);
    assert LinkOk(h, c, ch.stack, n - 1);
    forall i | 0 <= i < n
      ensures LinkOk(h, c, ch'.stack, i)
    {
      assert LinkOk(h, c, ch.stack, i);
    }
    forall more: seq<int>
      ensures Meaning(h, ch', more) == Meaning(h, ch, more)
    {
      assert ch.stack[..n][..n - 1] == ch.stack[..n - 1];
      PrefixTwice([], [], Unwind(h, ch.stack[..n - 1], Direct(h[p].code.next, h[f].slot.value, more)));
    }
  }

  // ---------------------------------------------------------------- the machine

  ghost predicate ChainsInv(m: Machine) {
    forall c :: 0 <= c < |m.chains| ==> ChainOk(m.frames, c, m.chains[c]) && Faithful(m.frames, m.chains[c])
  }

  /** Every frame alive is in use by its chain: nothing leaks, and every frame has one owner. */
  predicate AliveOk(h: Heap, next: Id, chains: seq<Chain>, id: Id) {
    id in h ==> id < next && h[id].home < |chains| && Uses(h, chains[h[id].home], id)
  }

  ghost predicate AliveInv(m: Machine) {
    forall id :: id in m.frames ==> AliveOk(m.frames, m.next, m.chains, id)
  }

  predicate Once(ids: seq<Id>) {
    forall i, j :: 0 <= i < j < |ids| ==> ids[i] != ids[j]
  }

  /** The life of a frame: it is created, at most once a value is constructed in it, at most once it
      resumes its continuation, which is after that, and it is destroyed at most once; its value is
      destructed exactly then, if it has one. */
  predicate LifeOk(h: Heap, next: Id, l: Lives, id: Id) {
    && (id in h ==> id !in l.destroyed && id !in l.razed && (id in l.built <==> h[id].slot.Holds?))
    && (id !in h && id < next ==> id in l.destroyed)
    && (id in l.destroyed ==> id !in h && (id in l.built <==> id in l.razed) && (id in l.built ==> id in l.finals))
    && (id in l.razed ==> id in l.destroyed)
    && (id in l.finals ==> id in l.built)
    && (id >= next ==> id !in l.built && id !in l.destroyed)
  }

  /** A frame on the stack has not come to its end; one that came back to its owner has. */
  predicate EndOk(h: Heap, ch: Chain, finals: seq<Id>, id: Id) {
    && (id in ch.stack ==> id !in finals)
    && (ch.where == RootBack(id) ==> id in finals)
    && (ch.where.Running? && ch.where.id in h && h[ch.where.id].temp == Some(id) && id in h && h[id].slot.Holds? ==>
          id in finals)
  }

  ghost predicate LivesInv(m: Machine) {
    && Once(m.lives.built) && Once(m.lives.razed) && Once(m.lives.finals) && Once(m.lives.destroyed)
    && (forall id: Id :: LifeOk(m.frames, m.next, m.lives, id))
    && (forall c, id: Id :: 0 <= c < |m.chains| ==> EndOk(m.frames, m.chains[c], m.lives.finals, id))
  }

  ghost predicate Inv(m: Machine) {
    ChainsInv(m) && AliveInv(m) && LivesInv(m)
  }

  lemma InitialInv()
    ensures Inv(INITIAL)
  {
  }

  /** A step of a chain: the frames of other chains are untouched. */
  ghost predicate OnlyChain(m: Machine, m': Machine, c: nat) {
    && c < |m.chains| && |m'.chains| >= |m.chains|
    && (forall d :: 0 <= d < |m.chains| && d != c ==> m'.chains[d] == m.chains[d])
    && (forall id :: id in m.frames && m.frames[id].home != c ==> id in m'.frames && m'.frames[id] == m.frames[id])
  }

  lemma OthersKept(m: Machine, m': Machine, c: nat)
    requires ChainsInv(m) && OnlyChain(m, m', c) && |m'.chains| == |m.chains|
    requires ChainOk(m'.frames, c, m'.chains[c]) && Faithful(m'.frames, m'.chains[c])
    ensures ChainsInv(m')
  {
    forall d | 0 <= d < |m'.chains|
      ensures ChainOk(m'.frames, d, m'.chains[d]) && Faithful(m'.frames, m'.chains[d])
    {
      if d != c {
        OtherChain(m.frames, m'.frames, d, m.chains[d]);
      }
    }
  }

  // ---------------------------------------------------------------- chains are kept

  lemma TopHome(m: Machine, c: nat)
    requires ChainsInv(m) && c < |m.chains| && (m.chains[c].where.Running? || m.chains[c].where.Suspended?)
    ensures m.chains[c].where.id in m.frames && m.frames[m.chains[c].where.id].home == c
  {
    var ch := m.chains[c];
    assert ChainOk(m.frames, c, ch);
    assert LinkOk(m.frames, c, ch.stack, |ch.stack| - 1);
  }

  /** The steps of the running frame that leave it running. */
  lemma LocalChains(m: Machine, m': Machine, c: nat, e: seq<Event>)
    requires ChainsInv(m) && c < |m.chains| && m.chains[c].where.Running?
    requires OnlyChain(m, m', c) && |m'.chains| == |m.chains|
    requires m'.chains[c] == m.chains[c].(log := m.chains[c].log + e)
    requires TopOnly(m.frames, m'.frames, m.chains[c].where.id) && TopOk(m'.frames, c, m.chains[c].where.id)
    requires forall more :: TopEval(m.frames, m.chains[c].where.id, more)
                         == Prefix(e, TopEval(m'.frames, m.chains[c].where.id, more))
    ensures ChainsInv(m')
  {
    TopStep(m.frames, m'.frames, c, m.chains[c], e);
    OthersKept(m, m', c);
  }

  lemma NoEffect(ch: Chain, r: Eval)
    ensures ch.(log := ch.log + []) == ch && Prefix([], r) == r
  {
    PrefixTwice([], [], r);
  }

  lemma EmitChains(m: Machine, c: nat, f: Id)
    requires ChainsInv(m) && c < |m.chains| && m.chains[c].where == Running(f) && CanRun(m, f)
    requires m.frames[f].code.Emit? || m.frames[f].code.Compute? || m.frames[f].code.Branch?
    ensures ChainsInv(StepRunning(m, c, f))
  {
    var m', fr := StepRunning(m, c, f), m.frames[f];
    TopHome(m, c);
    assert ChainOk(m.frames, c, m.chains[c]);
    var e := if fr.code.Emit? then [Emitted(fr.code.tag, fr.acc)] else [];
    forall more
      ensures TopEval(m.frames, f, more) == Prefix(e, TopEval(m'.frames, f, more))
    {
      NoEffect(m.chains[c], TopEval(m'.frames, f, more));
    }
    NoEffect(m.chains[c], Stuck([]));
    LocalChains(m, m', c, e);
  }

  lemma StoreChains(m: Machine, c: nat, f: Id)
    requires ChainsInv(m) && c < |m.chains| && m.chains[c].where == Running(f) && CanRun(m, f)
    requires m.frames[f].code.Ret? && m.frames[f].slot.Empty?
    ensures ChainsInv(StepRunning(m, c, f))
  {
    var m' := StepRunning(m, c, f);
    TopHome(m, c);
    assert ChainOk(m.frames, c, m.chains[c]);
    forall more
      ensures TopEval(m.frames, f, more) == Prefix([], TopEval(m'.frames, f, more))
    {
      NoEffect(m.chains[c], TopEval(m'.frames, f, more));
    }
    NoEffect(m.chains[c], Stuck([]));
    LocalChains(m, m', c, []);
  }

  lemma CreateChains(m: Machine, c: nat, f: Id)
    requires ChainsInv(m) && AliveInv(m) && c < |m.chains| && m.chains[c].where == Running(f) && CanRun(m, f)
    requires (m.frames[f].code.Await? || m.frames[f].code.Drop?) && m.frames[f].temp.None?
    ensures ChainsInv(StepRunning(m, c, f))
  {
    var m', fr := StepRunning(m, c, f), m.frames[f];
    TopHome(m, c);
    assert ChainOk(m.frames, c, m.chains[c]);
    assert m.next !in m.frames by {
      assert AliveOk(m.frames, m.next, m.chains, m.next);
    }
    LocalChains(m, m', c, [Created(fr.code.child, fr.acc)]);
  }

  lemma TakeChains(m: Machine, c: nat, f: Id)
    requires ChainsInv(m) && c < |m.chains| && m.chains[c].where == Running(f) && CanRun(m, f)
    requires (m.frames[f].code.Await? || m.frames[f].code.Drop?) && m.frames[f].temp.Some?
    requires m.frames[f].code.Await? ==> !m.frames[m.frames[f].temp.value].cont.Null?
    ensures ChainsInv(StepRunning(m, c, f))
  {
    var m', fr := StepRunning(m, c, f), m.frames[f];
    TopHome(m, c);
    assert ChainOk(m.frames, c, m.chains[c]);
    forall more
      ensures TopEval(m.frames, f, more) == Prefix([], TopEval(m'.frames, f, more))
    {
      NoEffect(m.chains[c], TopEval(m'.frames, f, more));
    }
    NoEffect(m.chains[c], Stuck([]));
    LocalChains(m, m', c, []);
  }

  lemma AwaitChains(m: Machine, c: nat, f: Id)
    requires ChainsInv(m) && c < |m.chains| && m.chains[c].where == Running(f) && CanRun(m, f)
    requires m.frames[f].code.Await? && m.frames[f].temp.Some? && m.frames[m.frames[f].temp.value].cont.Null?
    ensures ChainsInv(StepRunning(m, c, f))
  {
    var m' := StepRunning(m, c, f);
    assert ChainOk(m.frames, c, m.chains[c]);
    AwaitStep(m.frames, c, m.chains[c], m.frames[f].temp.value);
    OthersKept(m, m', c);
  }

  lemma ReturnChains(m: Machine, c: nat, f: Id)
    requires ChainsInv(m) && c < |m.chains| && m.chains[c].where == Running(f) && CanRun(m, f)
    requires m.frames[f].code.Ret? && m.frames[f].slot.Holds?
    ensures ChainsInv(StepRunning(m, c, f))
  {
    var m', ch := StepRunning(m, c, f), m.chains[c];
    assert ChainOk(m.frames, c, ch);
    assert LinkOk(m.frames, c, ch.stack, |ch.stack| - 1);
    if m.frames[f].cont.ToFrame? {
      ReturnStep(m.frames, c, ch);
    } else {
      assert |ch.stack| == 1;
      forall more: seq<int>
        ensures Meaning(m.frames, m'.chains[c], more) == Meaning(m.frames, ch, more)
      {
      }
    }
    OthersKept(m, m', c);
  }

  lemma SuspendChains(m: Machine, c: nat, f: Id)
    requires ChainsInv(m) && c < |m.chains| && m.chains[c].where == Running(f) && CanRun(m, f)
    requires m.frames[f].code.AwaitIo?
    ensures ChainsInv(StepRunning(m, c, f))
  {
    var m', ch, fr := StepRunning(m, c, f), m.chains[c], m.frames[f];
    assert ChainOk(m.frames, c, ch);
    var e, below := [Asked(fr.code.req, fr.acc)], ch.stack[..|ch.stack| - 1];
    forall more: seq<int>
      ensures Prefix(m'.chains[c].log, Meaning(m.frames, m'.chains[c], more))
              == Prefix(ch.log, Meaning(m.frames, ch, more))
    {
      var w := WaitEval(fr.code.next, more);
      UnwindPrefix(m.frames, below, e, w);
      PrefixTwice(ch.log, e, Unwind(m.frames, below, w));
    }
    OthersKept(m, m', c);
  }

  lemma StartChains(m: Machine, code: Code, arg: int)
    requires ChainsInv(m) && AliveInv(m)
    ensures ChainsInv(Start(m, code, arg))
  {
    var m' := Start(m, code, arg);
    assert m.next !in m.frames by {
      assert AliveOk(m.frames, m.next, m.chains, m.next);
    }
    forall d | 0 <= d < |m'.chains|
      ensures ChainOk(m'.frames, d, m'.chains[d]) && Faithful(m'.frames, m'.chains[d])
    {
      if d < |m.chains| {
        OtherChain(m.frames, m'.frames, d, m.chains[d]);
      } else {
        forall more: seq<int>
          ensures Prefix([], Meaning(m'.frames, m'.chains[d], more)) == Direct(code, arg, [] + more)
        {
          assert [] + more == more;
          PrefixTwice([], [], Direct(code, arg, more));
        }
      }
    }
  }

  /** The first half of `co_async` from inside a coroutine. */
  function BeforeSpawn(m: Machine, c: nat, f: Id): Machine
    requires c < |m.chains| && f in m.frames && m.frames[f].code.Spawn?
  {
    var fr := m.frames[f];
    Log(SetFrame(m, f, fr.(code := fr.code.next)), c, Spawned(fr.code.child, fr.acc))
  }

  lemma BeforeSpawnChains(m: Machine, c: nat, f: Id)
    requires ChainsInv(m) && c < |m.chains| && m.chains[c].where == Running(f) && CanRun(m, f)
    requires m.frames[f].code.Spawn?
    ensures ChainsInv(BeforeSpawn(m, c, f))
  {
    var m', fr := BeforeSpawn(m, c, f), m.frames[f];
    TopHome(m, c);
    assert ChainOk(m.frames, c, m.chains[c]);
    LocalChains(m, m', c, [Spawned(fr.code.child, fr.acc)]);
  }

  lemma RootHasChains(m: Machine, c: nat)
    requires ChainsInv(m) && c < |m.chains| && m.chains[c].where.RootHas?
    ensures Enabled(m, Advance(c)) && ChainsInv(Apply(m, Advance(c)))
  {
    var ch := m.chains[c];
    assert ChainOk(m.frames, c, ch);
    var m', g := Apply(m, Advance(c)), ch.where.task;
    forall more: seq<int>
      ensures Meaning(m'.frames, m'.chains[c], more) == Meaning(m.frames, ch, more)
    {
    }
    OthersKept(m, m', c);
  }

  lemma RootBackChains(m: Machine, c: nat)
    requires ChainsInv(m) && c < |m.chains| && m.chains[c].where.RootBack?
    ensures Enabled(m, Advance(c)) && ChainsInv(Apply(m, Advance(c)))
  {
    var ch := m.chains[c];
    assert ChainOk(m.frames, c, ch);
    var m' := Apply(m, Advance(c));
    forall more: seq<int>
      ensures Meaning(m'.frames, m'.chains[c], more) == Meaning(m.frames, ch, more)
    {
    }
    OthersKept(m, m', c);
  }

  /** The answer to the operation a suspended frame waits for is stored, and the frame runs on. */
  lemma DeliverShape(h: Heap, c: nat, ch: Chain, v: int)
    requires ChainOk(h, c, ch) && ch.where.Suspended?
    ensures var f := ch.where.id;
            var h' := h[f := h[f].(acc := v, code := h[f].code.next)];
            && StackOk(h', c, ch.stack) && TopOk(h', c, f)
            && forall i :: 0 <= i < |ch.stack| - 1 ==>
                 ch.stack[i] in h && ch.stack[i] in h' && h'[ch.stack[i]] == h[ch.stack[i]]
  {
    var f, n := ch.where.id, |ch.stack| - 1;
    var h' := h[f := h[f].(acc := v, code := h[f].code.next)];
    forall i | 0 <= i < |ch.stack|
      ensures LinkOk(h', c, ch.stack, i)
      ensures i < n ==> ch.stack[i] in h && ch.stack[i] in h' && h'[ch.stack[i]] == h[ch.stack[i]]
    {
      assert LinkOk(h, c, ch.stack, i);
      assert i < n ==> ch.stack[i] != ch.stack[n];
    }
  }

  lemma DeliverMeaning(h: Heap, h': Heap, c: nat, ch: Chain, v: int, more: seq<int>)
    requires ChainOk(h, c, ch) && ch.where.Suspended?
    requires h' == h[ch.where.id := h[ch.where.id].(acc := v, code := h[ch.where.id].code.next)]
    ensures Meaning(h', ch.(where := Running(ch.where.id)), more) == Meaning(h, ch, [v] + more)
  {
    var f, below := ch.where.id, ch.stack[..|ch.stack| - 1];
    DeliverShape(h, c, ch, v);
    UnwindFrame(h, h', below, Direct(h[f].code.next, v, more));
    assert ([v] + more)[1..] == more;
  }

  lemma DeliverFaithful(h: Heap, h': Heap, c: nat, ch: Chain, ch': Chain, v: int)
    requires ChainOk(h, c, ch) && Faithful(h, ch) && ch.where.Suspended?
    requires h' == h[ch.where.id := h[ch.where.id].(acc := v, code := h[ch.where.id].code.next)]
    requires ch' == ch.(where := Running(ch.where.id), answers := ch.answers + [v])
    ensures ChainOk(h', c, ch') && Faithful(h', ch')
  {
    DeliverShape(h, c, ch, v);
    forall more: seq<int>
      ensures Prefix(ch'.log, Meaning(h', ch', more)) == Direct(ch'.code, ch'.arg, ch'.answers + more)
    {
      DeliverMeaning(h, h', c, ch, v, more);
      assert Meaning(h', ch', more) == Meaning(h', ch.(where := Running(ch.where.id)), more);
      assert ch.answers + ([v] + more) == ch'.answers + more;
    }
  }

  lemma DeliverChains(m: Machine, c: nat, v: int)
    requires ChainsInv(m) && Enabled(m, Deliver(c, v))
    ensures ChainsInv(Apply(m, Deliver(c, v)))
  {
    var m' := Apply(m, Deliver(c, v));
    TopHome(m, c);
    DeliverFaithful(m.frames, m'.frames, c, m.chains[c], m'.chains[c], v);
    OthersKept(m, m', c);
  }

  // ---------------------------------------------------------------- what is alive is kept

  /** The running frame changed but still owns what it owned. */
  lemma AliveSame(m: Machine, m': Machine, c: nat, f: Id, fr: Frame)
    requires AliveInv(m) && c < |m.chains| && f in m.frames && m.frames[f].home == c
    requires m'.frames == m.frames[f := fr] && m'.next == m.next && |m'.chains| == |m.chains|
    requires fr.home == c && fr.temp == m.frames[f].temp
    requires forall d :: 0 <= d < |m.chains| && d != c ==> m'.chains[d] == m.chains[d]
    requires forall id :: id in m.frames && m.frames[id].home == c && Uses(m.frames, m.chains[c], id) ==>
               Uses(m'.frames, m'.chains[c], id)
    ensures AliveInv(m')
  {
    forall id | id in m'.frames
      ensures AliveOk(m'.frames, m'.next, m'.chains, id)
    {
      assert AliveOk(m.frames, m.next, m.chains, id);
      UsesFrame(m.frames, m'.frames, m.chains[m.frames[id].home], id);
    }
  }

  /** Whether a chain uses a frame depends only on what its running frame owns. */
  lemma UsesFrame(h: Heap, h': Heap, ch: Chain, id: Id)
    requires forall f :: f in h ==> f in h' && h'[f].temp == h[f].temp
    requires Uses(h, ch, id)
    ensures Uses(h', ch, id)
  {
  }

  lemma StepAlive(m: Machine, c: nat, f: Id)
    requires ChainsInv(m) && AliveInv(m) && c < |m.chains| && m.chains[c].where == Running(f) && CanRun(m, f)
    requires var code := m.frames[f].code;
             code.Emit? || code.Compute? || code.Branch? || code.AwaitIo? || (code.Ret? && m.frames[f].slot.Empty?)
    ensures AliveInv(StepRunning(m, c, f))
  {
    TopHome(m, c);
    var m' := StepRunning(m, c, f);
    assert m'.frames == m.frames[f := m'.frames[f]];
    AliveSame(m, m', c, f, m'.frames[f]);
  }

  /** The running frame owns the task it creates. */
  lemma CreateUses(h: Heap, c: nat, ch: Chain, ch': Chain, fr: Frame, g: Id, task: Frame, id: Id)
    requires ChainOk(h, c, ch) && ch.where.Running? && h[ch.where.id].temp.None? && fr.temp == Some(g)
    requires g !in h && ch'.where == ch.where && ch'.stack == ch.stack
    requires id == g || Uses(h, ch, id)
    ensures Uses(h[g := task][ch.where.id := fr], ch', id)
  {
  }

  lemma CreateAlive(m: Machine, c: nat, f: Id)
    requires ChainsInv(m) && AliveInv(m) && c < |m.chains| && m.chains[c].where == Running(f) && CanRun(m, f)
    requires (m.frames[f].code.Await? || m.frames[f].code.Drop?) && m.frames[f].temp.None?
    ensures AliveInv(StepRunning(m, c, f))
  {
    TopHome(m, c);
    var m' := StepRunning(m, c, f);
    assert ChainOk(m.frames, c, m.chains[c]);
    assert m.next !in m.frames by {
      assert AliveOk(m.frames, m.next, m.chains, m.next);
    }
    var task := Fresh(m.frames[f].code.child, m.frames[f].acc, c);
    assert m'.frames == m.frames[m.next := task][f := m'.frames[f]] && m'.next == m.next + 1;
    forall id | id in m'.frames
      ensures AliveOk(m'.frames, m'.next, m'.chains, id)
    {
      assert id != m.next ==> AliveOk(m.frames, m.next, m.chains, id);
      var d := m'.frames[id].home;
      if d == c {
        CreateUses(m.frames, c, m.chains[c], m'.chains[c], m'.frames[f], m.next, task, id);
      } else {
        assert ChainOk(m.frames, d, m.chains[d]);
        UsesOther(m.frames, m'.frames, d, m.chains[d], id);
      }
    }
  }

  /** The running frame of a chain belongs to that chain, so it is not that of another one. */
  lemma OtherTop(m: Machine, c: nat, id: Id)
    requires ChainsInv(m) && c < |m.chains| && id in m.frames && m.frames[id].home < |m.chains|
    ensures var d := m.frames[id].home;
            d != c && m.chains[d].stack != [] && m.chains[c].stack != [] ==>
              m.chains[d].stack[|m.chains[d].stack| - 1] != m.chains[c].stack[|m.chains[c].stack| - 1]
  {
    var d := m.frames[id].home;
    if d != c && m.chains[d].stack != [] && m.chains[c].stack != [] {
      assert ChainOk(m.frames, c, m.chains[c]) && ChainOk(m.frames, d, m.chains[d]);
      assert LinkOk(m.frames, c, m.chains[c].stack, |m.chains[c].stack| - 1);
      assert LinkOk(m.frames, d, m.chains[d].stack, |m.chains[d].stack| - 1);
    }
  }

  /** A frame of another chain is used as before when that chain's frames are untouched. */
  lemma UsesOther(h: Heap, h': Heap, d: nat, ch: Chain, id: Id)
    requires ChainOk(h, d, ch) && SameHome(h, h', d) && Uses(h, ch, id)
    ensures Uses(h', ch, id)
  {
    if ch.stack != [] {
      assert LinkOk(h, d, ch.stack, |ch.stack| - 1);
    }
  }

  /** The running frame gives up what it owns. */
  lemma TakeUses(h: Heap, c: nat, ch: Chain, fr: Frame, id: Id)
    requires ChainOk(h, c, ch) && ch.where.Running? && h[ch.where.id].temp.Some?
    requires id != h[ch.where.id].temp.value && Uses(h, ch, id)
    ensures Uses(h[ch.where.id := fr] - {h[ch.where.id].temp.value}, ch, id)
  {
  }

  lemma TakeAlive(m: Machine, c: nat, f: Id)
    requires ChainsInv(m) && AliveInv(m) && c < |m.chains| && m.chains[c].where == Running(f) && CanRun(m, f)
    requires (m.frames[f].code.Await? || m.frames[f].code.Drop?) && m.frames[f].temp.Some?
    requires m.frames[f].code.Await? ==> !m.frames[m.frames[f].temp.value].cont.Null?
    ensures AliveInv(StepRunning(m, c, f))
  {
    TopHome(m, c);
    var m', g := StepRunning(m, c, f), m.frames[f].temp.value;
    assert ChainOk(m.frames, c, m.chains[c]);
    assert m'.frames == m.frames[f := m'.frames[f]] - {g} && m'.chains == m.chains && m'.next == m.next;
    forall id | id in m'.frames
      ensures AliveOk(m'.frames, m'.next, m'.chains, id)
    {
      assert AliveOk(m.frames, m.next, m.chains, id);
      var d := m.frames[id].home;
      if d == c {
        TakeUses(m.frames, c, m.chains[c], m'.frames[f], id);
      } else {
        assert ChainOk(m.frames, d, m.chains[d]);
        UsesOther(m.frames, m'.frames, d, m.chains[d], id);
      }
    }
  }

  lemma AwaitAlive(m: Machine, c: nat, f: Id)
    requires ChainsInv(m) && AliveInv(m) && c < |m.chains| && m.chains[c].where == Running(f) && CanRun(m, f)
    requires m.frames[f].code.Await? && m.frames[f].temp.Some? && m.frames[m.frames[f].temp.value].cont.Null?
    ensures AliveInv(StepRunning(m, c, f))
  {
    var m', g := StepRunning(m, c, f), m.frames[f].temp.value;
    assert ChainOk(m.frames, c, m.chains[c]);
    AliveSame(m, m', c, g, m'.frames[g]);
  }

  lemma ReturnAlive(m: Machine, c: nat, f: Id)
    requires ChainsInv(m) && AliveInv(m) && c < |m.chains| && m.chains[c].where == Running(f) && CanRun(m, f)
    requires m.frames[f].code.Ret? && m.frames[f].slot.Holds?
    ensures AliveInv(StepRunning(m, c, f))
  {
    var m', ch := StepRunning(m, c, f), m.chains[c];
    var n := |ch.stack| - 1;
    assert ChainOk(m.frames, c, ch);
    assert LinkOk(m.frames, c, ch.stack, n);
    if m.frames[f].cont.ToFrame? {
      assert LinkOk(m.frames, c, ch.stack, n - 1);
      forall id | id in ch.stack
        ensures id in ch.stack[..n] || id == f
      {
        var i :| 0 <= i < |ch.stack| && ch.stack[i] == id;
        assert i < n ==> ch.stack[..n][i] == id;
      }
    }
    forall id | id in m'.frames
      ensures AliveOk(m'.frames, m'.next, m'.chains, id)
    {
      assert AliveOk(m.frames, m.next, m.chains, id);
    }
  }

  lemma StartAlive(m: Machine, code: Code, arg: int)
    requires ChainsInv(m) && AliveInv(m)
    ensures AliveInv(Start(m, code, arg))
  {
    var m' := Start(m, code, arg);
    assert m.next !in m.frames by {
      assert AliveOk(m.frames, m.next, m.chains, m.next);
    }
    forall id | id in m'.frames
      ensures AliveOk(m'.frames, m'.next, m'.chains, id)
    {
      if id != m.next {
        assert AliveOk(m.frames, m.next, m.chains, id);
        UsesFrame(m.frames, m'.frames, m.chains[m.frames[id].home], id);
      }
    }
  }

  lemma BeforeSpawnAlive(m: Machine, c: nat, f: Id)
    requires ChainsInv(m) && AliveInv(m) && c < |m.chains| && m.chains[c].where == Running(f) && CanRun(m, f)
    requires m.frames[f].code.Spawn?
    ensures AliveInv(BeforeSpawn(m, c, f))
  {
    TopHome(m, c);
    var m' := BeforeSpawn(m, c, f);
    AliveSame(m, m', c, f, m'.frames[f]);
  }

  lemma RootHasAlive(m: Machine, c: nat)
    requires ChainsInv(m) && AliveInv(m) && Enabled(m, Advance(c)) && m.chains[c].where.RootHas?
    ensures AliveInv(Apply(m, Advance(c)))
  {
    var m', g := Apply(m, Advance(c)), m.chains[c].where.task;
    assert ChainOk(m.frames, c, m.chains[c]);
    AliveSame(m, m', c, g, m'.frames[g]);
  }

  lemma RootBackAlive(m: Machine, c: nat)
    requires ChainsInv(m) && AliveInv(m) && Enabled(m, Advance(c)) && m.chains[c].where.RootBack?
    ensures AliveInv(Apply(m, Advance(c)))
  {
    var m', g := Apply(m, Advance(c)), m.chains[c].where.task;
    assert ChainOk(m.frames, c, m.chains[c]);
    forall id | id in m'.frames
      ensures AliveOk(m'.frames, m'.next, m'.chains, id)
    {
      assert AliveOk(m.frames, m.next, m.chains, id);
      var d := m.frames[id].home;
      if d != c && m.chains[d].stack != [] {
        assert ChainOk(m.frames, d, m.chains[d]);
        assert LinkOk(m.frames, d, m.chains[d].stack, |m.chains[d].stack| - 1);
      }
    }
  }

  lemma DeliverAlive(m: Machine, c: nat, v: int)
    requires ChainsInv(m) && AliveInv(m) && Enabled(m, Deliver(c, v))
    ensures AliveInv(Apply(m, Deliver(c, v)))
  {
    TopHome(m, c);
    var m', f := Apply(m, Deliver(c, v)), m.chains[c].where.id;
    AliveSame(m, m', c, f, m'.frames[f]);
  }

  // ---------------------------------------------------------------- lives are kept

  ghost predicate AllLives(h: Heap, next: Id, l: Lives) {
    && Once(l.built) && Once(l.razed) && Once(l.finals) && Once(l.destroyed)
    && forall id: Id :: LifeOk(h, next, l, id)
  }

  ghost predicate AllEnds(h: Heap, chains: seq<Chain>, finals: seq<Id>) {
    forall c, id: Id :: 0 <= c < |chains| ==> EndOk(h, chains[c], finals, id)
  }

  /** The same frames are alive, with the same values. */
  lemma LivesSame(h: Heap, h': Heap, next: Id, l: Lives)
    requires AllLives(h, next, l)
    requires h'.Keys == h.Keys && forall id :: id in h ==> h'[id].slot == h[id].slot
    ensures AllLives(h', next, l)
  {
    forall id: Id
      ensures LifeOk(h', next, l, id)
    {
      assert LifeOk(h, next, l, id);
      assert id in h' <==> id in h;
    }
  }

  lemma LivesCreate(h: Heap, next: Id, l: Lives, fr: Frame)
    requires AllLives(h, next, l) && next !in h && fr.slot.Empty?
    ensures AllLives(h[next := fr], next + 1, l)
  {
    var h', n := h[next := fr], next + 1;
    assert LifeOk(h, next, l, next);
    forall id: Id
      ensures LifeOk(h', n, l, id)
    {
      assert LifeOk(h, next, l, id);
    }
  }

  lemma LivesBuild(h: Heap, next: Id, l: Lives, f: Id, v: int)
    requires AllLives(h, next, l) && f in h && f < next && h[f].slot.Empty?
    ensures AllLives(h[f := h[f].(slot := Holds(v))], next, l.(built := l.built + [f]))
  {
    var h', l' := h[f := h[f].(slot := Holds(v))], l.(built := l.built + [f]);
    assert LifeOk(h, next, l, f);
    forall id: Id
      ensures LifeOk(h', next, l', id)
    {
      assert LifeOk(h, next, l, id);
    }
  }

  lemma LivesFinal(h: Heap, next: Id, l: Lives, f: Id)
    requires AllLives(h, next, l) && f in h && h[f].slot.Holds? && f !in l.finals
    ensures AllLives(h, next, l.(finals := l.finals + [f]))
  {
    var l' := l.(finals := l.finals + [f]);
    assert LifeOk(h, next, l, f);
    forall id: Id
      ensures LifeOk(h, next, l', id)
    {
      assert LifeOk(h, next, l, id);
    }
  }

  lemma LivesDestroy(m: Machine, g: Id)
    requires AllLives(m.frames, m.next, m.lives) && g in m.frames && g < m.next
    requires m.frames[g].slot.Holds? ==> g in m.lives.finals
    ensures AllLives(Destroy(m, g).frames, m.next, Destroy(m, g).lives)
  {
    var m' := Destroy(m, g);
    assert LifeOk(m.frames, m.next, m.lives, g);
    forall id: Id
      ensures LifeOk(m'.frames, m.next, m'.lives, id)
    {
      assert LifeOk(m.frames, m.next, m.lives, id);
    }
  }

  /** The ends of the other chains depend only on their own frames. */
  lemma EndsOther(m: Machine, m': Machine, c: nat, d: nat, id: Id)
    requires ChainsInv(m) && LivesInv(m) && OnlyChain(m, m', c) && d < |m.chains| && d != c
    requires m'.lives.finals == m.lives.finals
          || (exists f :: f in m.frames && m.frames[f].home == c && m'.lives.finals == m.lives.finals + [f])
    ensures EndOk(m'.frames, m'.chains[d], m'.lives.finals, id)
  {
    var ch := m.chains[d];
    assert EndOk(m.frames, ch, m.lives.finals, id);
    assert ChainOk(m.frames, d, ch);
    forall i | 0 <= i < |ch.stack|
      ensures ch.stack[i] in m.frames && m.frames[ch.stack[i]].home == d
    {
      assert LinkOk(m.frames, d, ch.stack, i);
    }
    if ch.where.Running? {
      assert ch.stack[|ch.stack| - 1] == ch.where.id;
    }
  }

  lemma EndsKept(m: Machine, m': Machine, c: nat)
    requires ChainsInv(m) && LivesInv(m) && OnlyChain(m, m', c) && |m'.chains| == |m.chains|
    requires m'.lives.finals == m.lives.finals
          || (exists f :: f in m.frames && m.frames[f].home == c && m'.lives.finals == m.lives.finals + [f])
    requires forall id: Id :: EndOk(m'.frames, m'.chains[c], m'.lives.finals, id)
    ensures AllEnds(m'.frames, m'.chains, m'.lives.finals)
  {
    forall d, id: Id | 0 <= d < |m'.chains|
      ensures EndOk(m'.frames, m'.chains[d], m'.lives.finals, id)
    {
      if d != c {
        EndsOther(m, m', c, d, id);
      }
    }
  }

  lemma StepLives(m: Machine, c: nat, f: Id)
    requires Inv(m) && c < |m.chains| && m.chains[c].where == Running(f) && CanRun(m, f)
    requires var code := m.frames[f].code;
             code.Emit? || code.Compute? || code.Branch? || code.AwaitIo?
    ensures LivesInv(StepRunning(m, c, f))
  {
    TopHome(m, c);
    var m' := StepRunning(m, c, f);
    assert ChainOk(m.frames, c, m.chains[c]);
    LivesSame(m.frames, m'.frames, m.next, m.lives);
    forall id: Id
      ensures EndOk(m'.frames, m'.chains[c], m'.lives.finals, id)
    {
      assert EndOk(m.frames, m.chains[c], m.lives.finals, id);
    }
    EndsKept(m, m', c);
  }

  lemma StoreLives(m: Machine, c: nat, f: Id)
    requires Inv(m) && c < |m.chains| && m.chains[c].where == Running(f) && CanRun(m, f)
    requires m.frames[f].code.Ret? && m.frames[f].slot.Empty?
    ensures LivesInv(StepRunning(m, c, f))
  {
    TopHome(m, c);
    var m' := StepRunning(m, c, f);
    assert ChainOk(m.frames, c, m.chains[c]);
    assert AliveOk(m.frames, m.next, m.chains, f);
    LivesBuild(m.frames, m.next, m.lives, f, m.frames[f].acc);
    forall id: Id
      ensures EndOk(m'.frames, m'.chains[c], m'.lives.finals, id)
    {
      assert EndOk(m.frames, m.chains[c], m.lives.finals, id);
    }
    EndsKept(m, m', c);
  }

  /** The running frame created a task: nothing is in its slot yet. */
  lemma CreateEnds(h: Heap, h': Heap, ch: Chain, finals: seq<Id>, id: Id)
    requires ch.where.Running? && ch.where.id in h' && h'[ch.where.id].temp.Some?
    requires var g := h'[ch.where.id].temp.value; g in h' && h'[g].slot.Empty?
    requires EndOk(h, ch, finals, id)
    ensures EndOk(h', ch, finals, id)
  {
  }

  lemma CreateLife(m: Machine, c: nat, f: Id, code: Code, acc: int, fr: Frame)
    requires AliveInv(m) && LivesInv(m) && f in m.frames && f != m.next && fr.slot == m.frames[f].slot
    ensures var m' := SetFrame(Create(m, code, acc, c), f, fr); AllLives(m'.frames, m'.next, m'.lives)
  {
    assert m.next !in m.frames by {
      assert AliveOk(m.frames, m.next, m.chains, m.next);
    }
    var mid := Create(m, code, acc, c);
    LivesCreate(m.frames, m.next, m.lives, Fresh(code, acc, c));
    LivesSame(mid.frames, SetFrame(mid, f, fr).frames, m.next + 1, m.lives);
  }

  lemma CreateLives(m: Machine, c: nat, f: Id)
    requires Inv(m) && c < |m.chains| && m.chains[c].where == Running(f) && CanRun(m, f)
    requires (m.frames[f].code.Await? || m.frames[f].code.Drop?) && m.frames[f].temp.None?
    ensures LivesInv(StepRunning(m, c, f))
  {
    TopHome(m, c);
    var m' := StepRunning(m, c, f);
    assert AliveOk(m.frames, m.next, m.chains, f);
    assert m.next !in m.frames by {
      assert AliveOk(m.frames, m.next, m.chains, m.next);
    }
    CreateLife(m, c, f, m.frames[f].code.child, m.frames[f].acc, m'.frames[f]);
    forall id: Id
      ensures EndOk(m'.frames, m'.chains[c], m'.lives.finals, id)
    {
      assert EndOk(m.frames, m.chains[c], m.lives.finals, id);
      CreateEnds(m.frames, m'.frames, m.chains[c], m.lives.finals, id);
    }
    EndsKept(m, m', c);
  }

  lemma AwaitLives(m: Machine, c: nat, f: Id)
    requires Inv(m) && c < |m.chains| && m.chains[c].where == Running(f) && CanRun(m, f)
    requires m.frames[f].code.Await? && m.frames[f].temp.Some? && m.frames[m.frames[f].temp.value].cont.Null?
    ensures LivesInv(StepRunning(m, c, f))
  {
    var m', g := StepRunning(m, c, f), m.frames[f].temp.value;
    assert ChainOk(m.frames, c, m.chains[c]);
    LivesSame(m.frames, m'.frames, m.next, m.lives);
    assert LifeOk(m.frames, m.next, m.lives, g);
    forall id: Id
      ensures EndOk(m'.frames, m'.chains[c], m'.lives.finals, id)
    {
      assert EndOk(m.frames, m.chains[c], m.lives.finals, id);
    }
    EndsKept(m, m', c);
  }

  /** The chain whose running frame came to its end. */
  function ReturnChain(h: Heap, ch: Chain): Chain
    requires ch.where.Running? && ch.where.id in h && ch.stack != []
  {
    if h[ch.where.id].cont.ToFrame? then
      ch.(where := Running(h[ch.where.id].cont.id), stack := ch.stack[..|ch.stack| - 1])
    else ch.(where := RootBack(ch.where.id), stack := [])
  }

  lemma ReturnEnds(h: Heap, c: nat, ch: Chain, finals: seq<Id>, id: Id)
    requires ChainOk(h, c, ch) && ch.where.Running? && h[ch.where.id].slot.Holds?
    requires EndOk(h, ch, finals, id)
    ensures EndOk(h, ReturnChain(h, ch), finals + [ch.where.id], id)
  {
    var f, n := ch.where.id, |ch.stack| - 1;
    assert LinkOk(h, c, ch.stack, n);
    if n > 0 {
      assert LinkOk(h, c, ch.stack, n - 1);
    }
  }

  lemma ReturnLives(m: Machine, c: nat, f: Id)
    requires Inv(m) && c < |m.chains| && m.chains[c].where == Running(f) && CanRun(m, f)
    requires m.frames[f].code.Ret? && m.frames[f].slot.Holds?
    ensures LivesInv(StepRunning(m, c, f))
  {
    TopHome(m, c);
    var m', ch := StepRunning(m, c, f), m.chains[c];
    assert ChainOk(m.frames, c, ch);
    ReturnLife(m, c, f);
    assert m'.chains[c] == ReturnChain(m.frames, ch);
    forall id: Id
      ensures EndOk(m'.frames, m'.chains[c], m'.lives.finals, id)
    {
      assert EndOk(m.frames, ch, m.lives.finals, id);
      ReturnEnds(m.frames, c, ch, m.lives.finals, id);
    }
    EndsKept(m, m', c);
  }

  lemma ReturnLife(m: Machine, c: nat, f: Id)
    requires ChainsInv(m) && LivesInv(m) && c < |m.chains| && m.chains[c].where == Running(f)
    requires f in m.frames && m.frames[f].slot.Holds?
    ensures AllLives(m.frames, m.next, m.lives.(finals := m.lives.finals + [f]))
  {
    var ch := m.chains[c];
    assert ChainOk(m.frames, c, ch);
    assert f in ch.stack by {
      assert ch.stack[|ch.stack| - 1] == f;
    }
    assert EndOk(m.frames, ch, m.lives.finals, f);
    LivesFinal(m.frames, m.next, m.lives, f);
  }

  /** The running frame took the value of its task, or dropped the task. */
  lemma TakeEnds(h: Heap, h': Heap, ch: Chain, finals: seq<Id>, id: Id)
    requires ch.where.Running? && ch.where.id in h' && h'[ch.where.id].temp.None?
    requires EndOk(h, ch, finals, id)
    ensures EndOk(h', ch, finals, id)
  {
  }

  lemma TakeLives(m: Machine, c: nat, f: Id)
    requires Inv(m) && c < |m.chains| && m.chains[c].where == Running(f) && CanRun(m, f)
    requires (m.frames[f].code.Await? || m.frames[f].code.Drop?) && m.frames[f].temp.Some?
    requires m.frames[f].code.Await? ==> !m.frames[m.frames[f].temp.value].cont.Null?
    ensures LivesInv(StepRunning(m, c, f))
  {
    TopHome(m, c);
    var m', g := StepRunning(m, c, f), m.frames[f].temp.value;
    assert ChainOk(m.frames, c, m.chains[c]);
    TakeLife(m, c, f, m'.frames[f]);
    forall id: Id
      ensures EndOk(m'.frames, m'.chains[c], m'.lives.finals, id)
    {
      assert EndOk(m.frames, m.chains[c], m.lives.finals, id);
      TakeEnds(m.frames, m'.frames, m.chains[c], m.lives.finals, id);
    }
    EndsKept(m, m', c);
  }

  lemma TakeLife(m: Machine, c: nat, f: Id, fr: Frame)
    requires Inv(m) && c < |m.chains| && m.chains[c].where == Running(f)
    requires f in m.frames && m.frames[f].temp.Some? && fr.slot == m.frames[f].slot
    ensures m.frames[f].temp.value in m.frames
    ensures var m' := Destroy(SetFrame(m, f, fr), m.frames[f].temp.value); AllLives(m'.frames, m'.next, m'.lives)
  {
    var g, mid := m.frames[f].temp.value, SetFrame(m, f, fr);
    assert ChainOk(m.frames, c, m.chains[c]);
    assert AliveOk(m.frames, m.next, m.chains, g);
    assert EndOk(m.frames, m.chains[c], m.lives.finals, g);
    LivesSame(m.frames, mid.frames, m.next, m.lives);
    LivesDestroy(mid, g);
  }

  lemma StartLives(m: Machine, code: Code, arg: int)
    requires ChainsInv(m) && AliveInv(m) && LivesInv(m)
    ensures LivesInv(Start(m, code, arg))
  {
    var m' := Start(m, code, arg);
    assert m.next !in m.frames by {
      assert AliveOk(m.frames, m.next, m.chains, m.next);
    }
    LivesCreate(m.frames, m.next, m.lives, m'.frames[m.next]);
    forall d, id: Id | 0 <= d < |m'.chains|
      ensures EndOk(m'.frames, m'.chains[d], m'.lives.finals, id)
    {
      if d < |m.chains| {
        assert EndOk(m.frames, m.chains[d], m.lives.finals, id);
        assert ChainOk(m.frames, d, m.chains[d]);
      }
    }
  }

  lemma BeforeSpawnLives(m: Machine, c: nat, f: Id)
    requires Inv(m) && c < |m.chains| && m.chains[c].where == Running(f) && CanRun(m, f)
    requires m.frames[f].code.Spawn?
    ensures LivesInv(BeforeSpawn(m, c, f))
  {
    TopHome(m, c);
    var m' := BeforeSpawn(m, c, f);
    LivesSame(m.frames, m'.frames, m.next, m.lives);
    forall id: Id
      ensures EndOk(m'.frames, m'.chains[c], m'.lives.finals, id)
    {
      assert EndOk(m.frames, m.chains[c], m.lives.finals, id);
    }
    EndsKept(m, m', c);
  }

  lemma RootLives(m: Machine, c: nat)
    requires Inv(m) && Enabled(m, Advance(c)) && (m.chains[c].where.RootHas? || m.chains[c].where.RootBack?)
    ensures LivesInv(Apply(m, Advance(c)))
  {
    var m', g := Apply(m, Advance(c)), m.chains[c].where.task;
    assert ChainOk(m.frames, c, m.chains[c]);
    assert AliveOk(m.frames, m.next, m.chains, g);
    assert EndOk(m.frames, m.chains[c], m.lives.finals, g);
    assert LifeOk(m.frames, m.next, m.lives, g);
    if m.chains[c].where.RootHas? {
      LivesSame(m.frames, m'.frames, m.next, m.lives);
    } else {
      LivesDestroy(m, g);
    }
    forall id: Id
      ensures EndOk(m'.frames, m'.chains[c], m'.lives.finals, id)
    {
      assert EndOk(m.frames, m.chains[c], m.lives.finals, id);
    }
    EndsKept(m, m', c);
  }

  lemma DeliverLives(m: Machine, c: nat, v: int)
    requires Inv(m) && Enabled(m, Deliver(c, v))
    ensures LivesInv(Apply(m, Deliver(c, v)))
  {
    TopHome(m, c);
    var m' := Apply(m, Deliver(c, v));
    assert ChainOk(m.frames, c, m.chains[c]);
    LivesSame(m.frames, m'.frames, m.next, m.lives);
    forall id: Id
      ensures EndOk(m'.frames, m'.chains[c], m'.lives.finals, id)
    {
      assert EndOk(m.frames, m.chains[c], m.lives.finals, id);
    }
    EndsKept(m, m', c);
  }

  // ---------------------------------------------------------------- the whole is kept

  lemma RunningKeeps(m: Machine, c: nat, f: Id)
    requires Inv(m) && c < |m.chains| && m.chains[c].where == Running(f) && CanRun(m, f)
    ensures Inv(StepRunning(m, c, f))
  {
    var fr := m.frames[f];
    match fr.code {
      case Emit(_, _) => EmitChains(m, c, f); StepAlive(m, c, f); StepLives(m, c, f);
      case Compute(_, _) => EmitChains(m, c, f); StepAlive(m, c, f); StepLives(m, c, f);
      case Branch(_, _) => EmitChains(m, c, f); StepAlive(m, c, f); StepLives(m, c, f);
      case AwaitIo(_, _) => SuspendChains(m, c, f); StepAlive(m, c, f); StepLives(m, c, f);
      case Ret =>
        if fr.slot.Empty? {
          StoreChains(m, c, f); StepAlive(m, c, f); StoreLives(m, c, f);
        } else {
          ReturnChains(m, c, f); ReturnAlive(m, c, f); ReturnLives(m, c, f);
        }
      case Await(_, _) =>
        if fr.temp.None? {
          CreateChains(m, c, f); CreateAlive(m, c, f); CreateLives(m, c, f);
        } else if m.frames[fr.temp.value].cont.Null? {
          AwaitChains(m, c, f); AwaitAlive(m, c, f); AwaitLives(m, c, f);
        } else {
          TakeChains(m, c, f); TakeAlive(m, c, f); TakeLives(m, c, f);
        }
      case Drop(_, _) =>
        if fr.temp.None? {
          CreateChains(m, c, f); CreateAlive(m, c, f); CreateLives(m, c, f);
        } else {
          TakeChains(m, c, f); TakeAlive(m, c, f); TakeLives(m, c, f);
        }
      case Spawn(child, _) => SpawnKeeps(m, c, f);
    }
  }

  lemma SpawnKeeps(m: Machine, c: nat, f: Id)
    requires Inv(m) && c < |m.chains| && m.chains[c].where == Running(f) && CanRun(m, f)
    requires m.frames[f].code.Spawn?
    ensures Inv(StepRunning(m, c, f))
  {
    var mid, fr := BeforeSpawn(m, c, f), m.frames[f];
    BeforeSpawnChains(m, c, f);
    BeforeSpawnAlive(m, c, f);
    BeforeSpawnLives(m, c, f);
    StartChains(mid, fr.code.child, fr.acc);
    StartAlive(mid, fr.code.child, fr.acc);
    StartLives(mid, fr.code.child, fr.acc);
  }

  lemma StepKeeps(m: Machine, l: Label)
    requires Inv(m) && Enabled(m, l)
    ensures Inv(Apply(m, l))
  {
    match l {
      case Launch(code, arg) => StartChains(m, code, arg); StartAlive(m, code, arg); StartLives(m, code, arg);
      case Deliver(c, v) => DeliverChains(m, c, v); DeliverAlive(m, c, v); DeliverLives(m, c, v);
      case Advance(c) =>
        match m.chains[c].where {
          case RootHas(_) => RootHasChains(m, c); RootHasAlive(m, c); RootLives(m, c);
          case RootBack(_) => RootBackChains(m, c); RootBackAlive(m, c); RootLives(m, c);
          case Running(f) => RunningKeeps(m, c, f);
          case _ =>
        }
    }
  }

  lemma {:induction false} RunKeeps(labels: seq<Label>)
    requires IsRun(labels)
    ensures Inv(Exec(labels))
    decreases |labels|
  {
    if labels == [] {
      InitialInv();
    } else {
      var k := |labels| - 1;
      RunKeeps(labels[..k]);
      StepKeeps(Exec(labels[..k]), labels[k]);
    }
  }
}
