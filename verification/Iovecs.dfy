/** `ark/io/iovecs.hpp`: from a buffer sequence, a number of bytes to skip and a limit
    to the iovec array handed to the kernel. */
module Iovecs {
  import opened Buffers

  /** What `transform_to_iovecs` produces, by recursion on the buffers. An iovec has the
      fields of a buffer. */
  function IovecsOf(bs: seq<Buffer>, skip: nat, limit: nat): seq<Buffer> {
    if bs == [] then []
    else if bs[0].len <= skip then IovecsOf(bs[1..], skip - bs[0].len, limit)
    else
      var b := Advance(bs[0], skip);
      var c := if limit < b.len then Limit(b, limit) else b;
      if limit == c.len then [c] else [c] + IovecsOf(bs[1..], 0, limit - c.len)
  }

  /** The loop of `transform_to_iovecs`, with its two countdowns and its early exit. */
  method TransformToIovecs(bs: seq<Buffer>, skip: nat, limit: nat) returns (out: seq<Buffer>)
    ensures out == IovecsOf(bs, skip, limit)
  {
    out := [];
    var toSkip: nat, left: nat := skip, limit;
    var i := 0;
    assert bs[0..] == bs;
    while i < |bs|
      invariant 0 <= i <= |bs|
      invariant out + IovecsOf(bs[i..], toSkip, left) == IovecsOf(bs, skip, limit)
    {
      var b := bs[i];
      assert bs[i..][1..] == bs[i + 1..];
      i := i + 1;
      if b.len <= toSkip {
        toSkip := toSkip - b.len;
        continue;
      }
      b := Advance(b, toSkip);
      toSkip := 0;
      if left < b.len {
        b := Limit(b, left);
      }
      out := out + [b];
      left := left - b.len;
      if left == 0 {
        return;
      }
    }
  }

  /** The bytes requested are the flattened input from `skip` up to `skip + limit`, cut at
      the end of the input; in particular nothing is requested once `skip` reaches it. */
  lemma {:induction false} IovecsCoverWindow(bs: seq<Buffer>, skip: nat, limit: nat)
    ensures skip >= |Addrs(bs)| ==> IovecsOf(bs, skip, limit) == []
    ensures skip < |Addrs(bs)| ==>
      Addrs(IovecsOf(bs, skip, limit)) == Addrs(bs)[skip..Min(skip + limit, |Addrs(bs)|)]
    decreases |bs|
  {
    if bs != [] {
      var head, rest := bs[0], bs[1..];
      if head.len <= skip {
        IovecsCoverWindow(rest, skip - head.len, limit);
        if skip < |Addrs(bs)| {
          WindowPastHead(head, rest, skip, limit);
        }
      } else if limit <= head.len - skip {
        WindowInHead(bs, skip, limit);
      } else {
        IovecsCoverWindow(rest, 0, limit - (head.len - skip));
        CoverAcrossHead(bs, skip, limit);
      }
    }
  }

  lemma WindowInHead(bs: seq<Buffer>, skip: nat, limit: nat)
    requires bs != [] && skip < bs[0].len && limit <= bs[0].len - skip
    ensures Addrs(IovecsOf(bs, skip, limit)) == Addrs(bs)[skip..skip + limit]
  {
    var b := Advance(bs[0], skip);
    RangeOfParts(bs[0], skip);
    RangeOfParts(b, limit);
    assert Addrs([Limit(b, limit)]) == Range(Limit(b, limit));
    assert Addrs(bs)[skip..skip + limit] == Range(bs[0])[skip..][..limit];
  }

  lemma AddrsCons(b: Buffer, bs: seq<Buffer>)
    ensures Addrs([b] + bs) == Range(b) + Addrs(bs)
  {
    assert ([b] + bs)[1..] == bs;
  }

  lemma CoverAcrossHead(bs: seq<Buffer>, skip: nat, limit: nat)
    requires bs != [] && skip < bs[0].len < skip + limit
    requires var all, left := Addrs(bs[1..]), limit - (bs[0].len - skip);
             Addrs(IovecsOf(bs[1..], 0, left)) == all[..Min(left, |all|)]
    ensures Addrs(IovecsOf(bs, skip, limit)) == Addrs(bs)[skip..Min(skip + limit, |Addrs(bs)|)]
  {
    var b := Advance(bs[0], skip);
    RangeOfParts(bs[0], skip);
    AddrsCons(b, IovecsOf(bs[1..], 0, limit - b.len));
    WindowAcrossHead(bs[0], bs[1..], skip, limit);
  }

  lemma WindowPastHead(head: Buffer, rest: seq<Buffer>, skip: nat, limit: nat)
    requires head.len <= skip < head.len + |Addrs(rest)|
    ensures var all := Range(head) + Addrs(rest);
            all[skip..Min(skip + limit, |all|)]
            == Addrs(rest)[skip - head.len..Min(skip - head.len + limit, |Addrs(rest)|)]
  {
  }

  lemma WindowAcrossHead(head: Buffer, rest: seq<Buffer>, skip: nat, limit: nat)
    requires skip < head.len < skip + limit
    ensures var all := Range(head) + Addrs(rest);
            all[skip..Min(skip + limit, |all|)]
            == Range(head)[skip..] + Addrs(rest)[..Min(limit - (head.len - skip), |Addrs(rest)|)]
  {
  }

  /** At most one iovec per buffer, so the reserved capacity always suffices. With a positive
      limit no iovec is empty; with a limit of zero the code emits one empty iovec, pointing at
      the first unskipped byte, exactly when there is such a byte. */
  lemma {:induction false} IovecsShape(bs: seq<Buffer>, skip: nat, limit: nat)
    ensures |IovecsOf(bs, skip, limit)| <= |bs|
    ensures limit > 0 ==> forall v :: v in IovecsOf(bs, skip, limit) ==> v.len > 0
    ensures limit == 0 && skip < |Addrs(bs)| ==>
      IovecsOf(bs, skip, limit) == [Buffer(Addrs(bs)[skip], 0)]
    decreases |bs|
  {
    if bs != [] {
      if bs[0].len <= skip {
        IovecsShape(bs[1..], skip - bs[0].len, limit);
      } else {
        var b := Advance(bs[0], skip);
        if limit > b.len {
          IovecsShape(bs[1..], 0, limit - b.len);
        }
      }
    }
  }
}
