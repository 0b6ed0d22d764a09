/** Views into user memory, as in `ark/buffer/buffer.hpp` and `ark/buffer/sequence.hpp`.

    Memory is one sequence of bytes; a buffer is a (base, length) view of it, and a
    buffer sequence is flattened into the sequence of addresses it covers, in order.
    Every statement about scatter/gather I/O is made on that flattened form, so it
    holds for every segmentation. */
module Buffers {

  newtype Byte = b: int | 0 <= b < 256

  datatype Option<+T> = None | Some(value: T)

  datatype Buffer = Buffer(base: nat, len: nat)

  function Min(a: nat, b: nat): nat {
    if a < b then a else b
  }

  /** The addresses of one buffer, in order. */
  function Range(b: Buffer): (r: seq<nat>)
    ensures |r| == b.len
    ensures forall i :: 0 <= i < |r| ==> r[i] == b.base + i
  {
    seq(b.len, i requires i >= 0 => b.base + i)
  }

  /** The addresses of a buffer sequence, in order: its flattened form. */
  function Addrs(bs: seq<Buffer>): seq<nat> {
    if bs == [] then [] else Range(bs[0]) + Addrs(bs[1..])
  }

  ghost predicate InBounds(addrs: seq<nat>, n: nat) {
    forall i :: 0 <= i < |addrs| ==> addrs[i] < n
  }

  /** No address is covered twice, neither by two buffers nor by one. */
  ghost predicate Distinct(addrs: seq<nat>) {
    forall i, j :: 0 <= i < j < |addrs| ==> addrs[i] != addrs[j]
  }

  ghost predicate Disjoint(a: seq<nat>, b: seq<nat>) {
    forall i, j :: 0 <= i < |a| && 0 <= j < |b| ==> a[i] != b[j]
  }

  /** `b += n`: the view is advanced by `n` bytes (gsl::span::subspan). */
  function Advance(b: Buffer, n: nat): Buffer
    requires n <= b.len
  {
    Buffer(b.base + n, b.len - n)
  }

  /** `buffer(b, n)`: the view is cut to at most `n` bytes. */
  function Limit(b: Buffer, n: nat): Buffer {
    Buffer(b.base, Min(b.len, n))
  }

  lemma RangeOfParts(b: Buffer, n: nat)
    requires n <= b.len
    ensures Range(Advance(b, n)) == Range(b)[n..]
    ensures Range(Limit(b, n)) == Range(b)[..n]
  {
  }

  function TotalSize(bs: seq<Buffer>): nat {
    if bs == [] then 0 else bs[0].len + TotalSize(bs[1..])
  }

  /** The total size is the length of the flattened form. */
  lemma {:induction false} FlatSize(bs: seq<Buffer>)
    ensures |Addrs(bs)| == TotalSize(bs)
  {
    if bs != [] {
      FlatSize(bs[1..]);
    }
  }

  /** `buffer_size`: the loop over the sequence. */
  method BufferSize(buffers: seq<Buffer>) returns (total: nat)
    ensures total == TotalSize(buffers) == |Addrs(buffers)|
  {
    total := 0;
    assert buffers[0..] == buffers;
    for i := 0 to |buffers|
      invariant total + TotalSize(buffers[i..]) == TotalSize(buffers)
    {
      assert buffers[i..][1..] == buffers[i + 1..];
      total := total + buffers[i].len;
    }
    FlatSize(buffers);
  }

  /** The bytes found at a sequence of addresses. */
  ghost function Gather(mem: seq<Byte>, addrs: seq<nat>): (r: seq<Byte>)
    requires InBounds(addrs, |mem|)
    ensures |r| == |addrs|
    ensures forall i :: 0 <= i < |r| ==> r[i] == mem[addrs[i]]
  {
    seq(|addrs|, i requires 0 <= i < |addrs| => mem[addrs[i]])
  }

  /** The bytes found through a part of a view are that part of the bytes found through it. */
  lemma GatherPart(mem: seq<Byte>, flat: seq<nat>, lo: nat, hi: nat)
    requires InBounds(flat, |mem|) && lo <= hi <= |flat|
    ensures Gather(mem, flat[lo..hi]) == Gather(mem, flat)[lo..hi]
  {
  }

  /** Storing `data` at a sequence of addresses, one byte after the other. */
  ghost function Scatter(mem: seq<Byte>, addrs: seq<nat>, data: seq<Byte>): (r: seq<Byte>)
    requires |addrs| == |data|
    requires InBounds(addrs, |mem|)
    ensures |r| == |mem|
    decreases |addrs|
  {
    if addrs == [] then mem
    else
      var n := |addrs| - 1;
      Scatter(mem, addrs[..n], data[..n])[addrs[n] := data[n]]
  }

  /** A scatter touches no other address. */
  lemma {:induction false} ScatterFrame(mem: seq<Byte>, addrs: seq<nat>, data: seq<Byte>, a: nat)
    requires |addrs| == |data|
    requires InBounds(addrs, |mem|)
    requires a < |mem| && a !in addrs
    ensures Scatter(mem, addrs, data)[a] == mem[a]
    decreases |addrs|
  {
    if addrs != [] {
      var n := |addrs| - 1;
      assert addrs[n] in addrs;
      ScatterFrame(mem, addrs[..n], data[..n], a);
    }
  }

  /** On distinct addresses every byte of a scatter arrives at its own address. */
  lemma {:induction false} ScatterAt(mem: seq<Byte>, addrs: seq<nat>, data: seq<Byte>, k: nat)
    requires |addrs| == |data|
    requires InBounds(addrs, |mem|) && Distinct(addrs)
    requires k < |addrs|
    ensures Scatter(mem, addrs, data)[addrs[k]] == data[k]
    decreases |addrs|
  {
    var n := |addrs| - 1;
    if k < n {
      ScatterAt(mem, addrs[..n], data[..n], k);
    }
  }

  /** A scatter into the window [lo, hi) of a view with distinct addresses, byte by byte. */
  lemma ScatterWindowAt(mem: seq<Byte>, view: seq<nat>, lo: nat, hi: nat, data: seq<Byte>, i: nat)
    requires InBounds(view, |mem|) && Distinct(view)
    requires lo <= hi <= |view| && |data| == hi - lo && i < |view|
    ensures Scatter(mem, view[lo..hi], data)[view[i]] == if lo <= i < hi then data[i - lo] else mem[view[i]]
  {
    var w := view[lo..hi];
    if lo <= i < hi {
      assert w[i - lo] == view[i];
      ScatterAt(mem, w, data, i - lo);
    } else {
      ScatterFrame(mem, w, data, view[i]);
    }
  }

  /** Seen through a view with distinct addresses, a scatter into the window [lo, hi) of the view
      replaces exactly that window. */
  lemma ScatterWindow(mem: seq<Byte>, view: seq<nat>, lo: nat, hi: nat, data: seq<Byte>)
    requires InBounds(view, |mem|) && Distinct(view)
    requires lo <= hi <= |view| && |data| == hi - lo
    ensures Gather(Scatter(mem, view[lo..hi], data), view)
         == Gather(mem, view)[..lo] + data + Gather(mem, view)[hi..]
  {
    var before, after := Gather(mem, view), Gather(Scatter(mem, view[lo..hi], data), view);
    forall i | 0 <= i < |view|
      ensures after[i] == if lo <= i < hi then data[i - lo] else before[i]
    {
      ScatterWindowAt(mem, view, lo, hi, data, i);
    }
    InThreeParts(before, after, lo, hi, data);
  }

  lemma InThreeParts(before: seq<Byte>, after: seq<Byte>, lo: nat, hi: nat, data: seq<Byte>)
    requires lo <= hi <= |before| == |after| && |data| == hi - lo
    requires forall i :: 0 <= i < |after| ==> after[i] == if lo <= i < hi then data[i - lo] else before[i]
    ensures after == before[..lo] + data + before[hi..]
  {
  }

  lemma ScatterOutside(mem: seq<Byte>, view: seq<nat>, lo: nat, hi: nat, data: seq<Byte>)
    requires InBounds(view, |mem|)
    requires lo <= hi <= |view| && |data| == hi - lo
    ensures forall a :: 0 <= a < |mem| && a !in view ==> Scatter(mem, view[lo..hi], data)[a] == mem[a]
  {
    var w := view[lo..hi];
    forall a | 0 <= a < |mem| && a !in view
      ensures Scatter(mem, w, data)[a] == mem[a]
    {
      assert a !in w;
      ScatterFrame(mem, w, data, a);
    }
  }

  /** Seen through a disjoint view, a scatter changes nothing. */
  lemma ScatterElsewhere(mem: seq<Byte>, addrs: seq<nat>, data: seq<Byte>, view: seq<nat>)
    requires |addrs| == |data|
    requires InBounds(addrs, |mem|) && InBounds(view, |mem|)
    requires Disjoint(addrs, view)
    ensures Gather(Scatter(mem, addrs, data), view) == Gather(mem, view)
  {
    forall i | 0 <= i < |view|
      ensures Scatter(mem, addrs, data)[view[i]] == mem[view[i]]
    {
      ScatterFrame(mem, addrs, data, view[i]);
    }
  }
}
