/** `cqe_ref` of `ark/async/io_uring/io_uring.hpp`: owning references to entries of the completion
    ring, which are released by moves, assignments and destructors. */
module Ring {
  import opened Buffers
  import opened EventLoop

  /** The completion ring: everything the kernel posted, and the head, which releases the entries
      before it. History: the entries passed to io_uring_cqe_seen, in order. */
  class CompletionRing {
    var posted: seq<Cqe>
    var head: nat
    ghost var seen: seq<nat>

    constructor ()
      ensures posted == [] && head == 0 && seen == []
    {
      posted, head, seen := [], 0, [];
    }

    /** The kernel posts a completion. */
    method Post(c: Cqe)
      modifies this`posted
      ensures posted == old(posted) + [c]
    {
      posted := posted + [c];
    }

    /** io_uring_cqe_seen: whatever the entry, the head moves on by one. */
    method CqeSeen(k: nat)
      modifies this`head, this`seen
      ensures head == old(head) + 1 && seen == old(seen) + [k]
    {
      head := head + 1;
      seen := seen + [k];
    }

    /** The entry behind a pointer; the kernel may reuse an entry once it is released. */
    method Get(k: nat) returns (c: Cqe)
      requires head <= k < |posted|
      ensures c == posted[k]
    {
      c := posted[k];
    }
  }

  ghost function One(x: Option<nat>, k: nat): nat {
    if x == Some(k) then 1 else 0
  }

  /** How many of a list of references own the entry `k`. */
  ghost function Owners(held: seq<Option<nat>>, k: nat): nat {
    if held == [] then 0
    else Owners(held[..|held| - 1], k) + One(held[|held| - 1], k)
  }

  lemma {:induction false} OwnersUpdate(held: seq<Option<nat>>, i: nat, x: Option<nat>, k: nat)
    requires i < |held|
    ensures Owners(held[i := x], k) + One(held[i], k) == Owners(held, k) + One(x, k)
    decreases |held|
  {
    var n, held' := |held| - 1, held[i := x];
    if i < n {
      OwnersUpdate(held[..n], i, x, k);
      assert held'[..n] == held[..n][i := x];
    } else {
      assert held'[..n] == held[..n];
    }
  }

  /** The entries released so far, and the one a move assignment or a destructor releases. */
  ghost function Released(seen: seq<nat>, x: Option<nat>): seq<nat> {
    if x.Some? then seen + [x.value] else seen
  }

  lemma ReleasedTimes(seen: seq<nat>, x: Option<nat>, k: nat)
    ensures multiset(Released(seen, x))[k] == multiset(seen)[k] + One(x, k)
  {
  }

  /** What a move assignment from `j` to `i` does to the owners of an entry and to how often it was
      released, also when `i` is `j`. */
  lemma MoveConserves(held: seq<Option<nat>>, seen: seq<nat>, i: nat, j: nat, k: nat)
    requires i < |held| && j < |held|
    ensures multiset(Released(seen, held[i]))[k] + Owners(held[i := held[j]][j := None], k)
         == multiset(seen)[k] + Owners(held, k)
  {
    OwnersUpdate(held, i, held[j], k);
    var mid := held[i := held[j]];
    assert mid[j] == held[j];
    OwnersUpdate(mid, j, None, k);
    ReleasedTimes(seen, held[i], k);
  }

  /** `owning_cqe_ref`. */
  class CqeRef {
    var parent: CompletionRing?
    var cqe: Option<nat>

    constructor ()
      ensures cqe.None? && parent == null
    {
      parent, cqe := null, None;
    }

    constructor Own(k: nat, ring: CompletionRing)
      ensures cqe == Some(k) && parent == ring
    {
      parent, cqe := ring, Some(k);
    }

    /** A reference to an entry knows its ring. */
    predicate Sound(ring: CompletionRing)
      reads this
    {
      cqe.Some? ==> parent == ring
    }

    /** `seen`: only a reference to an entry releases something. */
    method Seen(ghost ring: CompletionRing)
      requires Sound(ring)
      modifies ring`head, ring`seen
      ensures ring.seen == old(Released(ring.seen, cqe))
      ensures ring.head == old(ring.head) + (if cqe.Some? then 1 else 0)
    {
      if cqe.None? {
        return;
      }
      parent.CqeSeen(cqe.value);
    }

    /** The move constructor: the source no longer owns the entry. */
    constructor Move(other: CqeRef)
      modifies other
      ensures cqe == old(other.cqe) && parent == old(other.parent)
      ensures other.cqe.None? && other.parent == null
    {
      parent, cqe := other.parent, other.cqe;
      new;
      other.cqe := None;
      other.parent := null;
    }

    /** Move assignment, which may be from itself: the entry owned so far is released, and the other
        one changes its owner. */
    method MoveAssign(other: CqeRef, ghost ring: CompletionRing)
      requires Sound(ring) && other.Sound(ring)
      modifies this, other, ring`head, ring`seen
      ensures this != other ==> cqe == old(other.cqe) && parent == old(other.parent)
      ensures other.cqe.None? && other.parent == null
      ensures ring.seen == old(Released(ring.seen, cqe))
      ensures ring.head == old(ring.head) + (if old(cqe).Some? then 1 else 0)
    {
      Seen(ring);
      cqe := other.cqe;
      parent := other.parent;
      other.cqe := None;
      other.parent := null;
    }

    /** The destructor. */
    method Destroy(ghost ring: CompletionRing)
      requires Sound(ring)
      modifies ring`head, ring`seen
      ensures ring.seen == old(Released(ring.seen, cqe))
      ensures ring.head == old(ring.head) + (if cqe.Some? then 1 else 0)
    {
      Seen(ring);
    }
  }

  /** Nothing is lost and nothing released twice by a move assignment: over any list of references
      that holds both, the released and the owned entries are together the same. */
  method MoveWithin(ring: CompletionRing, refs: seq<CqeRef>, i: nat, j: nat)
    requires i < |refs| && j < |refs| && AllApart(refs)
    requires refs[i].Sound(ring) && refs[j].Sound(ring)
    modifies refs[i], refs[j], ring`head, ring`seen
    ensures forall k: nat :: Tally(ring, refs, k) == old(Tally(ring, refs, k))
  {
    ghost var held, seen := Held(refs), ring.seen;
    refs[i].MoveAssign(refs[j], ring);
    assert Held(refs) == held[i := held[j]][j := None];
    forall k: nat
      ensures Tally(ring, refs, k) == old(Tally(ring, refs, k))
    {
      MoveConserves(held, seen, i, j, k);
    }
  }

  ghost predicate AllApart(refs: seq<CqeRef>) {
    forall i, j :: 0 <= i < j < |refs| ==> refs[i] != refs[j]
  }

  ghost function Held(refs: seq<CqeRef>): (held: seq<Option<nat>>)
    reads refs
    ensures |held| == |refs| && forall i :: 0 <= i < |refs| ==> held[i] == refs[i].cqe
  {
    seq(|refs|, i requires 0 <= i < |refs| reads refs => refs[i].cqe)
  }

  /** How often an entry was released or is owned. */
  ghost function Tally(ring: CompletionRing, refs: seq<CqeRef>, k: nat): nat
    reads ring, refs
  {
    multiset(ring.seen)[k] + Owners(Held(refs), k)
  }

  /** The entries released are those before the head, in ring order, each once. */
  ghost predicate InOrder(seen: seq<nat>, head: nat) {
    |seen| == head && forall i :: 0 <= i < head ==> seen[i] == i
  }

  /** `cqe_buffer` once a batch was peeked: the references from `lo` to `n` own the entries that follow
      `head`, the others nothing. */
  ghost predicate Peeked(ring: CompletionRing, refs: seq<CqeRef>, lo: nat, n: nat, head: nat)
    reads refs
  {
    && lo <= n <= |refs| && AllApart(refs)
    && (forall i :: lo <= i < n ==> refs[i].cqe == Some(head + i - lo) && refs[i].parent == ring)
    && (forall i :: 0 <= i < |refs| && !(lo <= i < n) ==> refs[i].cqe.None?)
  }

  /** `peek_batch_cqe` into the buffer: the entries that are there, at most as many as asked for. */
  method PeekBatch(ring: CompletionRing, refs: seq<CqeRef>, batch: nat) returns (n: nat)
    requires batch <= |refs| && ring.head <= |ring.posted|
    requires Peeked(ring, refs, 0, 0, ring.head)
    modifies refs, ring`head, ring`seen
    ensures ring.head == old(ring.head) && ring.seen == old(ring.seen)
    ensures n == if |ring.posted| - ring.head < batch then |ring.posted| - ring.head else batch
    ensures Peeked(ring, refs, 0, n, ring.head)
  {
    n := Min(|ring.posted| - ring.head, batch);
    ghost var head := ring.head;
    for i := 0 to n
      invariant Peeked(ring, refs, 0, i, head)
      invariant ring.head == head && ring.seen == old(ring.seen)
    {
      var temp := new CqeRef.Own(ring.head + i, ring);
      refs[i].MoveAssign(temp, ring);
      temp.Destroy(ring);
    }
  }

  /** `*it = {}`: the reference is overwritten by an empty one, which releases its entry. */
  method Release(ring: CompletionRing, refs: seq<CqeRef>, i: nat, ghost n: nat)
    requires i < n && Peeked(ring, refs, i, n, ring.head)
    modifies refs[i], ring`head, ring`seen
    ensures ring.head == old(ring.head) + 1 && ring.seen == old(ring.seen) + [old(ring.head)]
    ensures Peeked(ring, refs, i + 1, n, ring.head)
  {
    var empty := new CqeRef();
    refs[i].MoveAssign(empty, ring);
    empty.Destroy(ring);
  }
}
