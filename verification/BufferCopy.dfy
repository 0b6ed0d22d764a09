/** `buffer_copy` of `ark/buffer/sequence.hpp`, as the code has it: a chunk is never cut to the limit,
    the limit is a 64-bit countdown that can wrap around, the value returned is what was left of
    the limit, and control can reach the end of the function without a return. */
module BufferCopy {
  import opened Buffers

  const TWO64: nat := 0x1_0000_0000_0000_0000

  /** Subtraction of `size_t`. */
  function Sub64(a: nat, b: nat): nat
    requires a < TWO64 && b < TWO64
  {
    if b <= a then a - b else a + TWO64 - b
  }

  /** `done_sz` at the end, and the value returned, if control reached a return. */
  datatype Copied = Copied(done: nat, ret: Option<nat>)

  /** The buffers still to visit after a chunk of `n` bytes. */
  function Rest(bs: seq<Buffer>, n: nat): seq<Buffer>
    requires bs != [] && n <= bs[0].len
  {
    if bs[0].len == n then bs[1..] else [Advance(bs[0], n)] + bs[1..]
  }

  function Chunk(src: seq<Buffer>, dst: seq<Buffer>): nat
    requires src != [] && dst != []
  {
    Min(src[0].len, dst[0].len)
  }

  /** The copy as a recursion on the buffers still to visit. Source plus destination segments is
      the measure. */
  function Outcome(src: seq<Buffer>, dst: seq<Buffer>, left: nat): Copied
    requires left < TWO64 && Min(TotalSize(src), TotalSize(dst)) < TWO64
    decreases |src| + |dst|
  {
    if src == [] || dst == [] then Copied(0, None)
    else
      var n := Chunk(src, dst);
      if left == n then Copied(n, Some(left))
      else
        RestSize(src, n); RestSize(dst, n);
        var r := Outcome(Rest(src, n), Rest(dst, n), Sub64(left, n));
        Copied(n + r.done, r.ret)
  }

  lemma RestSize(bs: seq<Buffer>, n: nat)
    requires bs != [] && n <= bs[0].len
    ensures TotalSize(Rest(bs, n)) == TotalSize(bs) - n
    ensures |Rest(bs, n)| == if bs[0].len == n then |bs| - 1 else |bs|
  {
    if bs[0].len != n {
      assert Rest(bs, n)[1..] == bs[1..];
    }
  }

  // ---------------------------------------------------------------- where chunks end

  /** A buffer of the sequence ends `x` bytes after its start. */
  ghost predicate EndsAt(bs: seq<Buffer>, x: nat) {
    exists i :: 1 <= i <= |bs| && TotalSize(bs[..i]) == x
  }

  lemma {:induction false} SizeOfPrefix(bs: seq<Buffer>, i: nat)
    requires 1 <= i <= |bs|
    ensures TotalSize(bs[..i]) == bs[0].len + TotalSize(bs[1..][..i - 1])
    ensures TotalSize(bs[..i]) <= TotalSize(bs)
    decreases i
  {
    assert bs[..i][1..] == bs[1..][..i - 1];
    if i > 1 {
      SizeOfPrefix(bs[1..], i - 1);
    }
  }

  /** No buffer ends before the first one does. */
  lemma EndsAfterFirst(bs: seq<Buffer>, x: nat)
    requires bs != [] && x < bs[0].len
    ensures !EndsAt(bs, x)
  {
    forall i | 1 <= i <= |bs|
      ensures TotalSize(bs[..i]) != x
    {
      SizeOfPrefix(bs, i);
    }
  }

  lemma FirstEnds(bs: seq<Buffer>)
    requires bs != []
    ensures EndsAt(bs, bs[0].len)
  {
    SizeOfPrefix(bs, 1);
    assert bs[1..][..0] == [];
    assert TotalSize(bs[..1]) == bs[0].len;
  }

  /** Past the chunk, the buffers end where they did. */
  lemma RestEnds(bs: seq<Buffer>, n: nat, x: nat)
    requires bs != [] && n <= bs[0].len && x > 0
    ensures EndsAt(Rest(bs, n), x) <==> EndsAt(bs, n + x)
  {
    var r := Rest(bs, n);
    var cut := if bs[0].len == n then 1 else 0;
    forall i | 1 <= i <= |r|
      ensures TotalSize(r[..i]) == TotalSize(bs[..i + cut]) - n
    {
      RestPrefix(bs, n, i);
    }
    if EndsAt(bs, n + x) {
      var i :| 1 <= i <= |bs| && TotalSize(bs[..i]) == n + x;
      SizeOfPrefix(bs, i);
      assert bs[1..][..0] == [];
      assert i - cut >= 1;
      assert TotalSize(r[..i - cut]) == x;
    }
    if EndsAt(r, x) {
      var i :| 1 <= i <= |r| && TotalSize(r[..i]) == x;
      assert TotalSize(bs[..i + cut]) == n + x;
    }
  }

  lemma RestPrefix(bs: seq<Buffer>, n: nat, i: nat)
    requires bs != [] && n <= bs[0].len && 1 <= i <= |Rest(bs, n)|
    ensures var cut := if bs[0].len == n then 1 else 0;
            TotalSize(Rest(bs, n)[..i]) == TotalSize(bs[..i + cut]) - n
  {
    var r := Rest(bs, n);
    if bs[0].len == n {
      SizeOfPrefix(bs, i + 1);
    } else {
      SizeOfPrefix(bs, i);
      SizeOfPrefix(r, i);
      assert r[1..] == bs[1..];
    }
  }

  /** A chunk ends wherever a buffer of the source or of the destination does. */
  ghost predicate Cut(src: seq<Buffer>, dst: seq<Buffer>, x: nat) {
    EndsAt(src, x) || EndsAt(dst, x)
  }

  lemma RestCut(src: seq<Buffer>, dst: seq<Buffer>, x: nat)
    requires src != [] && dst != [] && x > 0
    ensures var n := Chunk(src, dst); Cut(Rest(src, n), Rest(dst, n), x) <==> Cut(src, dst, n + x)
  {
    RestEnds(src, Chunk(src, dst), x);
    RestEnds(dst, Chunk(src, dst), x);
  }

  lemma FirstCut(src: seq<Buffer>, dst: seq<Buffer>)
    requires src != [] && dst != []
    ensures Cut(src, dst, Chunk(src, dst))
    ensures forall x: nat :: x < Chunk(src, dst) ==> !Cut(src, dst, x)
  {
    FirstEnds(src);
    FirstEnds(dst);
    forall x: nat | x < Chunk(src, dst)
      ensures !Cut(src, dst, x)
    {
      EndsAfterFirst(src, x);
      EndsAfterFirst(dst, x);
    }
  }

  // ---------------------------------------------------------------- what is copied

  /** For non-empty sequences and every limit: the loop returns exactly when the limit is a place
      where a buffer of one of the sequences ends, and then it has copied exactly that many bytes;
      otherwise it copies as many bytes as both sequences have, however small the limit is, and control
      reaches the end of the function. */
  lemma {:induction false} CopiedBytes(src: seq<Buffer>, dst: seq<Buffer>, limit: nat)
    requires limit < TWO64 && Min(TotalSize(src), TotalSize(dst)) < TWO64
    requires src != [] && dst != []
    ensures var m := Min(TotalSize(src), TotalSize(dst));
            Outcome(src, dst, limit).ret.Some? <==> limit <= m && Cut(src, dst, limit)
    ensures var m := Min(TotalSize(src), TotalSize(dst));
            Outcome(src, dst, limit).done == if limit <= m && Cut(src, dst, limit) then limit else m
    decreases |src| + |dst|
  {
    var n := Chunk(src, dst);
    FirstCut(src, dst);
    RestSize(src, n);
    RestSize(dst, n);
    if limit != n {
      var src', dst', left := Rest(src, n), Rest(dst, n), Sub64(limit, n);
      if src' == [] || dst' == [] {
        NothingLeft(src, dst, limit);
      } else {
        CopiedBytes(src', dst', left);
        if limit > n {
          RestCut(src, dst, left);
        }
      }
    }
  }

  lemma NothingLeft(src: seq<Buffer>, dst: seq<Buffer>, limit: nat)
    requires limit < TWO64 && Min(TotalSize(src), TotalSize(dst)) < TWO64
    requires src != [] && dst != [] && limit != Chunk(src, dst)
    requires Rest(src, Chunk(src, dst)) == [] || Rest(dst, Chunk(src, dst)) == []
    ensures Min(TotalSize(src), TotalSize(dst)) == Chunk(src, dst)
    ensures Outcome(src, dst, limit) == Copied(Chunk(src, dst), None)
  {
    var n := Chunk(src, dst);
    RestSize(src, n);
    RestSize(dst, n);
  }

  /** For a limit that does not get in the way, every byte both sequences have room for is copied. */
  lemma AmpleLimit(src: seq<Buffer>, dst: seq<Buffer>, limit: nat)
    requires Min(TotalSize(src), TotalSize(dst)) <= limit < TWO64
    requires src != [] && dst != []
    ensures Outcome(src, dst, limit).done == Min(TotalSize(src), TotalSize(dst))
  {
    CopiedBytes(src, dst, limit);
  }

  /** The value returned is the size of the last chunk: it reaches back to the last place before
      the limit where a buffer ends, or to the start. */
  lemma {:induction false} ReturnedValue(src: seq<Buffer>, dst: seq<Buffer>, limit: nat)
    requires limit < TWO64 && Min(TotalSize(src), TotalSize(dst)) < TWO64
    requires Outcome(src, dst, limit).ret.Some?
    ensures var v := Outcome(src, dst, limit).ret.value;
            && v <= limit && (limit > 0 ==> v > 0)
            && (v == limit || Cut(src, dst, limit - v))
            && (forall x: nat :: limit - v < x < limit ==> !Cut(src, dst, x))
    decreases |src| + |dst|
  {
    var n := Chunk(src, dst);
    FirstCut(src, dst);
    if limit != n {
      RestSize(src, n);
      RestSize(dst, n);
      var src', dst', left := Rest(src, n), Rest(dst, n), Sub64(limit, n);
      CopiedBytes(src', dst', left);
      assert limit > n;
      ReturnedValue(src', dst', left);
      var v := Outcome(src', dst', left).ret.value;
      if v < left {
        RestCut(src, dst, left - v);
      }
      forall x: nat | limit - v < x < limit
        ensures !Cut(src, dst, x)
      {
        RestCut(src, dst, x - n);
      }
    }
  }

  // ---------------------------------------------------------------- against [buffer.copy] of N4771

  /** What N4771 asks for: the smaller of the limit and the two sizes is copied, and returned. */
  predicate MeetsStandard(src: seq<Buffer>, dst: seq<Buffer>, limit: nat)
    requires limit < TWO64 && Min(TotalSize(src), TotalSize(dst)) < TWO64
  {
    var m := Min(limit, Min(TotalSize(src), TotalSize(dst)));
    Outcome(src, dst, limit) == Copied(m, Some(m))
  }

  /** The code meets it if and only if the limit is within both sequences, is a place where a buffer
      ends, and no buffer ends between the start and the limit. */
  lemma StandardExactlyWhen(src: seq<Buffer>, dst: seq<Buffer>, limit: nat)
    requires limit < TWO64 && Min(TotalSize(src), TotalSize(dst)) < TWO64
    requires src != [] && dst != []
    ensures MeetsStandard(src, dst, limit) <==>
              && limit <= Min(TotalSize(src), TotalSize(dst)) && Cut(src, dst, limit)
              && forall x: nat :: 0 < x < limit ==> !Cut(src, dst, x)
  {
    CopiedBytes(src, dst, limit);
    if Outcome(src, dst, limit).ret.Some? {
      ReturnedValue(src, dst, limit);
    }
  }

  /** Two inputs on which it does not: one returns 1 after copying 2 bytes, one copies 2 bytes under
      a limit of 1. */
  lemma StandardNotMet()
    ensures Outcome([Buffer(0, 1), Buffer(1, 1)], [Buffer(2, 2)], 2) == Copied(2, Some(1))
    ensures Outcome([Buffer(0, 2)], [Buffer(2, 2)], 1) == Copied(2, None)
  {
    var src, dst := [Buffer(0, 1), Buffer(1, 1)], [Buffer(2, 2)];
    assert Rest(src, 1) == [Buffer(1, 1)] && Rest(dst, 1) == [Buffer(3, 1)];
    assert TotalSize([Buffer(1, 1)]) == 1 && TotalSize([Buffer(3, 1)]) == 1;
    assert Outcome([Buffer(1, 1)], [Buffer(3, 1)], 1) == Copied(1, Some(1));
    var s, d := [Buffer(0, 2)], [Buffer(2, 2)];
    assert TotalSize(s) == 2 && TotalSize(d) == 2;
    assert Outcome([], [], TWO64 - 1) == Copied(0, None);
  }

  // ---------------------------------------------------------------- the loop

  /** The addresses past a chunk. */
  lemma RestAddrs(bs: seq<Buffer>, n: nat)
    requires bs != [] && n <= bs[0].len
    ensures Addrs(Rest(bs, n)) == Addrs(bs)[n..]
    ensures Addrs(bs)[..n] == Range(bs[0])[..n]
  {
    RangeOfParts(bs[0], n);
    if bs[0].len != n {
      assert Rest(bs, n)[1..] == bs[1..];
    }
  }

  /** `memcpy`, on ranges that do not overlap. */
  method MemCpy(mem: array<Byte>, to: seq<nat>, from: seq<nat>)
    requires |to| == |from| && InBounds(to, mem.Length) && InBounds(from, mem.Length) && Disjoint(to, from)
    modifies mem
    ensures mem[..] == Scatter(old(mem[..]), to, Gather(old(mem[..]), from))
  {
    ghost var before := mem[..];
    ghost var data := Gather(before, from);
    for i := 0 to |to|
      invariant mem[..] == Scatter(before, to[..i], data[..i])
    {
      assert mem[from[i]] == mem[..][from[i]] == before[from[i]] by {
        ScatterFrame(before, to[..i], data[..i], from[i]);
      }
      assert to[..i + 1][..i] == to[..i] && data[..i + 1][..i] == data[..i];
      mem[to[i]] := mem[from[i]];
    }
    assert to[..|to|] == to && data[..|to|] == data;
  }

  /** Two scatters in a row, the second of data found elsewhere. */
  lemma {:induction false} ScatterInTwo(mem: seq<Byte>, to: seq<nat>, data: seq<Byte>, k: nat)
    requires |to| == |data| && InBounds(to, |mem|) && k <= |to|
    ensures Scatter(Scatter(mem, to[..k], data[..k]), to[k..], data[k..]) == Scatter(mem, to, data)
    decreases |to|
  {
    var n := |to| - 1;
    if k == |to| {
      assert to[..k] == to && data[..k] == data && to[k..] == [];
    } else {
      assert to[k..][..n - k] == to[..n][k..] && data[k..][..n - k] == data[..n][k..];
      assert to[..n][..k] == to[..k] && data[..n][..k] == data[..k];
      ScatterInTwo(mem, to[..n], data[..n], k);
    }
  }

  /** Memory after the first `k` bytes were copied. */
  ghost function After(mem: seq<Byte>, to: seq<nat>, from: seq<nat>, k: nat): (r: seq<Byte>)
    requires InBounds(to, |mem|) && InBounds(from, |mem|) && k <= |to| && k <= |from|
    ensures |r| == |mem|
  {
    Scatter(mem, to[..k], Gather(mem, from[..k]))
  }

  lemma AfterChunk(mem: seq<Byte>, to: seq<nat>, from: seq<nat>, k: nat, n: nat)
    requires InBounds(to, |mem|) && InBounds(from, |mem|) && Disjoint(to, from)
    requires k + n <= |to| && k + n <= |from|
    ensures InBounds(to[k..k + n], |mem|) && InBounds(from[k..k + n], |mem|)
    ensures var mid := After(mem, to, from, k);
            Scatter(mid, to[k..k + n], Gather(mid, from[k..k + n])) == After(mem, to, from, k + n)
  {
    var mid := After(mem, to, from, k);
    var data := Gather(mem, from[..k + n]);
    ScatterElsewhere(mem, to[..k], Gather(mem, from[..k]), from[k..k + n]);
    assert Gather(mid, from[k..k + n]) == data[k..];
    assert data[..k] == Gather(mem, from[..k]);
    assert to[..k + n][..k] == to[..k] && to[..k + n][k..] == to[k..k + n];
    ScatterInTwo(mem, to[..k + n], data, k);
  }

  /** The cursor of one sequence: the segments from it on. */
  function Ahead(bs: seq<Buffer>, i: nat, cur: Buffer): seq<Buffer> {
    if i < |bs| then [cur] + bs[i + 1..] else []
  }

  /** A cursor after a chunk. */
  method Step(bs: seq<Buffer>, i: nat, cur: Buffer, n: nat) returns (j: nat, next: Buffer)
    requires i < |bs| && n <= cur.len
    ensures j <= |bs| && Ahead(bs, j, next) == Rest(Ahead(bs, i, cur), n)
  {
    j, next := i, cur;
    if cur.len == n {
      j := j + 1;
      if j != |bs| {
        next := bs[j];
      }
      assert Ahead(bs, i, cur)[1..] == bs[i + 1..];
    } else {
      next := Advance(cur, n);
      assert Ahead(bs, i, cur)[1..] == bs[i + 1..];
    }
  }

  ghost predicate Apart(n: nat, to: seq<nat>, from: seq<nat>) {
    InBounds(to, n) && InBounds(from, n) && Disjoint(to, from)
  }

  /** The segments ahead, once `done` bytes were copied. */
  ghost predicate Stands(to: seq<nat>, from: seq<nat>, d: seq<Buffer>, s: seq<Buffer>, done: nat) {
    done <= |to| && done <= |from| && Addrs(d) == to[done..] && Addrs(s) == from[done..]
  }

  /** One chunk, without the bookkeeping of the limit. */
  method CopyChunk(mem: array<Byte>, dst: Buffer, src: Buffer, n: nat, ghost before: seq<Byte>,
                   ghost to: seq<nat>, ghost from: seq<nat>, ghost d: seq<Buffer>, ghost s: seq<Buffer>,
                   ghost done: nat)
    requires Apart(|before|, to, from) && Stands(to, from, d, s, done)
    requires mem[..] == After(before, to, from, done)
    requires d != [] && s != [] && d[0] == dst && s[0] == src && n <= dst.len && n <= src.len
    modifies mem
    ensures Stands(to, from, Rest(d, n), Rest(s, n), done + n)
    ensures mem[..] == After(before, to, from, done + n)
  {
    RestAddrs(s, n);
    RestAddrs(d, n);
    RangeOfParts(src, n);
    RangeOfParts(dst, n);
    ChunkFits(to, from, done, n, Range(dst), Range(src), Addrs(d), Addrs(s));
    AfterChunk(before, to, from, done, n);
    MemCpy(mem, Range(Limit(dst, n)), Range(Limit(src, n)));
  }

  /** The outcome is the bytes done so far and what the segments ahead give. */
  ghost predicate Counts(all: Copied, s: seq<Buffer>, d: seq<Buffer>, left: nat, done: nat) {
    && left < TWO64 && Min(TotalSize(s), TotalSize(d)) < TWO64
    && all == Copied(done + Outcome(s, d, left).done, Outcome(s, d, left).ret)
  }

  lemma CountsChunk(all: Copied, s: seq<Buffer>, d: seq<Buffer>, left: nat, done: nat)
    requires Counts(all, s, d, left, done) && s != [] && d != []
    ensures var n := Chunk(s, d);
            if left == n then all == Copied(done + n, Some(left))
            else
              && Counts(all, Rest(s, n), Rest(d, n), Sub64(left, n), done + n)
              && |Rest(s, n)| + |Rest(d, n)| < |s| + |d|
  {
    RestSize(s, Chunk(s, d));
    RestSize(d, Chunk(s, d));
  }

  /** The local variables of the loop. */
  datatype Cursor = Cursor(i: nat, j: nat, src: Buffer, dst: Buffer, left: nat, done: nat)

  ghost predicate On(source: seq<Buffer>, dest: seq<Buffer>, all: Copied, c: Cursor) {
    var s, d := Ahead(source, c.i, c.src), Ahead(dest, c.j, c.dst);
    && c.i <= |source| && c.j <= |dest|
    && Counts(all, s, d, c.left, c.done)
    && Stands(Addrs(dest), Addrs(source), d, s, c.done)
  }

  ghost function Segments(source: seq<Buffer>, dest: seq<Buffer>, c: Cursor): nat {
    |Ahead(source, c.i, c.src)| + |Ahead(dest, c.j, c.dst)|
  }

  /** One round of the loop. */
  method Round(mem: array<Byte>, dest: seq<Buffer>, source: seq<Buffer>, c: Cursor, ghost before: seq<Byte>,
               ghost all: Copied)
    returns (c': Cursor, ret: Option<nat>)
    requires On(source, dest, all, c) && c.i != |source| && c.j != |dest|
    requires Apart(|before|, Addrs(dest), Addrs(source)) && mem[..] == After(before, Addrs(dest), Addrs(source), c.done)
    modifies mem
    ensures c'.done <= |Addrs(dest)| && c'.done <= |Addrs(source)|
    ensures mem[..] == After(before, Addrs(dest), Addrs(source), c'.done)
    ensures ret.Some? ==> all == Copied(c'.done, ret)
    ensures ret.None? ==> On(source, dest, all, c') && Segments(source, dest, c') < Segments(source, dest, c)
  {
    ghost var s, d := Ahead(source, c.i, c.src), Ahead(dest, c.j, c.dst);
    var n := Min(c.src.len, c.dst.len);
    CountsChunk(all, s, d, c.left, c.done);
    CopyChunk(mem, c.dst, c.src, n, before, Addrs(dest), Addrs(source), d, s, c.done);
    if c.left == n {
      return c.(done := c.done + n), Some(c.left);
    }
    c' := NextCursor(dest, source, c, n);
    ret := None;
  }

  /** The cursors after a chunk. */
  method NextCursor(dest: seq<Buffer>, source: seq<Buffer>, c: Cursor, n: nat) returns (c': Cursor)
    requires c.i < |source| && c.j < |dest| && n <= c.src.len && n <= c.dst.len && c.left < TWO64 && n < TWO64
    ensures c'.i <= |source| && c'.j <= |dest| && c'.left == Sub64(c.left, n) && c'.done == c.done + n
    ensures Ahead(source, c'.i, c'.src) == Rest(Ahead(source, c.i, c.src), n)
    ensures Ahead(dest, c'.j, c'.dst) == Rest(Ahead(dest, c.j, c.dst), n)
  {
    var i, src := Step(source, c.i, c.src, n);
    var j, dst := Step(dest, c.j, c.dst, n);
    c' := Cursor(i, j, src, dst, Sub64(c.left, n), c.done + n);
  }

  method Copy(mem: array<Byte>, dest: seq<Buffer>, source: seq<Buffer>, limit: nat)
    returns (done: nat, ret: Option<nat>)
    requires dest != [] && source != []
    requires limit < TWO64 && Min(TotalSize(source), TotalSize(dest)) < TWO64
    requires InBounds(Addrs(dest), mem.Length) && InBounds(Addrs(source), mem.Length)
    requires Disjoint(Addrs(dest), Addrs(source))
    modifies mem
    ensures done <= |Addrs(source)| && done <= |Addrs(dest)|
    ensures Copied(done, ret) == Outcome(source, dest, limit)
    ensures mem[..] == After(old(mem[..]), Addrs(dest), Addrs(source), done)
  {
    ghost var before, all := mem[..], Outcome(source, dest, limit);
    var c := Cursor(0, 0, source[0], dest[0], limit, 0);
    assert Ahead(source, 0, source[0]) == source && Ahead(dest, 0, dest[0]) == dest;
    while c.i != |source| && c.j != |dest|
      invariant On(source, dest, all, c)
      invariant mem[..] == After(before, Addrs(dest), Addrs(source), c.done)
      decreases Segments(source, dest, c)
    {
      c, ret := Round(mem, dest, source, c, before, all);
      if ret.Some? {
        return c.done, ret;
      }
    }
    return c.done, None;
  }

  lemma ChunkFits(to: seq<nat>, from: seq<nat>, done: nat, n: nat, r: seq<nat>, q: seq<nat>, ahead: seq<nat>,
                  behind: seq<nat>)
    requires done <= |to| && done <= |from| && ahead == to[done..] && behind == from[done..]
    requires n <= |r| && n <= |q| && n <= |ahead| && n <= |behind|
    requires ahead[..n] == r[..n] && behind[..n] == q[..n]
    ensures done + n <= |to| && done + n <= |from|
    ensures to[done..done + n] == r[..n] && from[done..done + n] == q[..n]
    ensures ahead[n..] == to[done + n..] && behind[n..] == from[done + n..]
  {
    assert to[done..done + n] == ahead[..n];
    assert from[done..done + n] == behind[..n];
  }

  /** With buffers that do not overlap, the first `done` destination bytes are those of the source,
      and the others are unchanged. */
  lemma CopyArrives(mem: seq<Byte>, dest: seq<Buffer>, source: seq<Buffer>, done: nat)
    requires InBounds(Addrs(dest), |mem|) && InBounds(Addrs(source), |mem|) && Distinct(Addrs(dest))
    requires done <= |Addrs(source)| && done <= |Addrs(dest)|
    ensures var mem' := After(mem, Addrs(dest), Addrs(source), done);
            && Gather(mem', Addrs(dest)) == Gather(mem, Addrs(source))[..done] + Gather(mem, Addrs(dest))[done..]
            && forall a :: 0 <= a < |mem| && a !in Addrs(dest) ==> mem'[a] == mem[a]
  {
    ArrivesAt(mem, Addrs(dest), Addrs(source), done);
  }

  lemma ArrivesAt(mem: seq<Byte>, to: seq<nat>, from: seq<nat>, done: nat)
    requires InBounds(to, |mem|) && InBounds(from, |mem|) && Distinct(to) && done <= |from| && done <= |to|
    ensures Gather(After(mem, to, from, done), to) == Gather(mem, from)[..done] + Gather(mem, to)[done..]
    ensures forall a :: 0 <= a < |mem| && a !in to ==> After(mem, to, from, done)[a] == mem[a]
  {
    var data := Gather(mem, from)[..done];
    assert Gather(mem, from[..done]) == data;
    assert to[0..done] == to[..done];
    ScatterWindow(mem, to, 0, done, data);
    ScatterOutside(mem, to, 0, done, data);
  }
}
