// The search tree in which reserved memory is collected: __mem_chunk_insert joins a new chunk with both
// neighbours. Rebalancing does not change the in-order sequence and is left out.
module MemTree {
  import opened MemChunks

  datatype Tree = Empty | Node(left: Tree, chunk: Chunk, right: Tree)

  function InOrder(t: Tree): (cs: seq<Chunk>) {
    match t
    case Empty => []
    case Node(l, c, r) => InOrder(l) + [c] + InOrder(r)
  }

  // ---------- In-order access to the tree ----------

  function SetAt(t: Tree, k: nat, c: Chunk): (r: Tree)
    requires k < |InOrder(t)|
    ensures InOrder(r) == InOrder(t)[k := c]
  {
    var n := |InOrder(t.left)|;
    if k < n then Node(SetAt(t.left, k, c), t.chunk, t.right)
    else if k == n then Node(t.left, c, t.right)
    else Node(t.left, t.chunk, SetAt(t.right, k - n - 1, c))
  }

  function EraseAt(t: Tree, k: nat): (r: Tree)
    requires k < |InOrder(t)|
    ensures InOrder(r) == Without(InOrder(t), k)
  {
    var n := |InOrder(t.left)|;
    if k < n then Node(EraseAt(t.left, k), t.chunk, t.right)
    else if k > n then Node(t.left, t.chunk, EraseAt(t.right, k - n - 1))
    else if t.right.Empty? then t.left
    else Node(t.left, InOrder(t.right)[0], EraseAt(t.right, 0))
  }

  // Hangs a chunk in the empty place before the k-th chunk.
  function LinkAt(t: Tree, k: nat, c: Chunk): (r: Tree)
    requires k <= |InOrder(t)|
    ensures InOrder(r) == InOrder(t)[..k] + [c] + InOrder(t)[k..]
  {
    match t
    case Empty => Node(Empty, c, Empty)
    case Node(l, d, r) =>
      var n := |InOrder(l)|;
      if k <= n then Node(LinkAt(l, k, c), d, r) else Node(l, d, LinkAt(r, k - n - 1, c))
  }

  // ---------- What an insertion does to the in-order sequence ----------

  predicate TouchesLeft(cs: seq<Chunk>, c: Chunk) {
    var k := Place(cs, c.addr);
    k > 0 && cs[k - 1].End() == c.addr
  }

  predicate TouchesRight(cs: seq<Chunk>, c: Chunk) {
    var k := Place(cs, c.addr);
    k < |cs| && c.End() == cs[k].addr
  }

  // The run of chunks that c joins, and what they become together.
  function Lo(cs: seq<Chunk>, c: Chunk): (k: nat) { Place(cs, c.addr) - if TouchesLeft(cs, c) then 1 else 0 }

  function Hi(cs: seq<Chunk>, c: Chunk): (k: nat) { Place(cs, c.addr) + if TouchesRight(cs, c) then 1 else 0 }

  function Union(cs: seq<Chunk>, c: Chunk): (m: Chunk) {
    var k := Place(cs, c.addr);
    Chunk(if TouchesLeft(cs, c) then cs[k - 1].addr else c.addr,
          (if TouchesLeft(cs, c) then cs[k - 1].size else 0) + c.size + if TouchesRight(cs, c) then cs[k].size else 0,
          c.numa)
  }

  function Splice(cs: seq<Chunk>, lo: nat, hi: nat, m: Chunk): (r: seq<Chunk>)
    requires lo <= hi <= |cs|
  {
    cs[..lo] + [m] + cs[hi..]
  }

  // A chunk joined with whichever neighbours it touches.
  function Joined(cs: seq<Chunk>, c: Chunk): (r: seq<Chunk>) {
    Splice(cs, Lo(cs, c), Hi(cs, c), Union(cs, c))
  }

  // Equal but for the node of each chunk: a chunk that closes a gap between nodes takes the node of the
  // neighbour that the search meets first.
  ghost predicate SameRuns(cs: seq<Chunk>, ds: seq<Chunk>) {
    |cs| == |ds| && forall i :: 0 <= i < |cs| ==> cs[i].addr == ds[i].addr && cs[i].size == ds[i].size
  }

  ghost predicate OnNode(cs: seq<Chunk>, n: int) {
    forall i :: 0 <= i < |cs| ==> cs[i].numa == n
  }

  lemma SpliceGapped(cs: seq<Chunk>, lo: nat, hi: nat, m: Chunk)
    requires Gapped(cs) && lo <= hi <= |cs| && m.size > 0
    requires lo > 0 ==> cs[lo - 1].End() < m.addr
    requires hi < |cs| ==> m.End() < cs[hi].addr
    ensures Gapped(Splice(cs, lo, hi, m))
  {
    var r := Splice(cs, lo, hi, m);
    assert forall i :: 0 <= i < lo ==> r[i] == cs[i] && cs[i].End() < m.addr;
    assert forall i :: lo < i < |r| ==> r[i] == cs[i - lo - 1 + hi] && m.End() < r[i].addr;
  }

  lemma SpliceCovers(cs: seq<Chunk>, lo: nat, hi: nat, m: Chunk, c: Chunk, b: nat)
    requires lo <= hi <= |cs|
    requires m.Holds(b) <==> c.Holds(b) || Covered(cs[lo..hi], b)
    ensures Covered(Splice(cs, lo, hi, m), b) <==> Covered(cs, b) || c.Holds(b)
  {
    CoveredSplit(cs[..lo] + [m], cs[hi..], b);
    CoveredSplit(cs[..lo], [m], b);
    assert cs == cs[..lo] + cs[lo..hi] + cs[hi..];
    CoveredSplit(cs[..lo] + cs[lo..hi], cs[hi..], b);
    CoveredSplit(cs[..lo], cs[lo..hi], b);
    assert Covered([m], b) <==> m.Holds(b) by { if m.Holds(b) { assert [m][0].Holds(b); } }
  }

  lemma CoveredSplit(xs: seq<Chunk>, ys: seq<Chunk>, b: nat)
    ensures Covered(xs + ys, b) <==> Covered(xs, b) || Covered(ys, b)
  {
    if Covered(ys, b) {
      var i :| 0 <= i < |ys| && ys[i].Holds(b);
      assert (xs + ys)[|xs| + i].Holds(b);
    }
    if Covered(xs, b) {
      var i :| 0 <= i < |xs| && xs[i].Holds(b);
      assert (xs + ys)[i].Holds(b);
    }
    if Covered(xs + ys, b) {
      var i :| 0 <= i < |xs + ys| && (xs + ys)[i].Holds(b);
      if i >= |xs| { assert ys[i - |xs|].Holds(b); } else { assert xs[i].Holds(b); }
    }
  }

  // A gap-separated sequence stays one, and gains exactly the new bytes.
  lemma JoinedGapped(cs: seq<Chunk>, c: Chunk)
    requires Gapped(cs) && DisjointFrom(cs, c) && c.size > 0
    ensures Gapped(Joined(cs, c))
  {
    PlaceSplits(cs, c);
    SpliceGapped(cs, Lo(cs, c), Hi(cs, c), Union(cs, c));
  }

  lemma JoinedCovers(cs: seq<Chunk>, c: Chunk, b: nat)
    requires Gapped(cs) && DisjointFrom(cs, c) && c.size > 0
    ensures Covered(Joined(cs, c), b) <==> Covered(cs, b) || c.Holds(b)
  {
    var lo, hi := Lo(cs, c), Hi(cs, c);
    var k := Place(cs, c.addr);
    if TouchesLeft(cs, c) && cs[k - 1].Holds(b) { assert cs[lo..hi][0].Holds(b); }
    if TouchesRight(cs, c) && cs[k].Holds(b) { assert cs[lo..hi][k - lo].Holds(b); }
    assert forall i :: 0 <= i < hi - lo ==> cs[lo..hi][i] == cs[lo + i];
    SpliceCovers(cs, lo, hi, Union(cs, c), c, b);
  }

  lemma TouchedIs(cs: seq<Chunk>, c: Chunk, i: nat)
    requires Gapped(cs) && DisjointFrom(cs, c) && c.size > 0 && i < |cs|
    ensures cs[i].End() == c.addr ==> i == Place(cs, c.addr) - 1
    ensures c.End() == cs[i].addr ==> i == Place(cs, c.addr)
    ensures c.addr < cs[i].addr <==> Place(cs, c.addr) <= i
  {
    PlaceSplits(cs, c);
    var k := Place(cs, c.addr);
    if i < k - 1 { assert cs[i].End() < cs[k - 1].addr; }
    if k < i { assert cs[k].End() < cs[i].addr; }
  }

  lemma SetIsSplice(cs: seq<Chunk>, i: nat, m: Chunk)
    requires i < |cs|
    ensures cs[i := m] == Splice(cs, i, i + 1, m)
    ensures i + 1 < |cs| ==> Without(cs[i := m], i + 1) == Splice(cs, i, i + 2, m)
    ensures i > 0 ==> Without(cs[i := m], i - 1) == Splice(cs, i - 1, i + 1, m)
  {
  }

  lemma SpliceIsJoined(cs: seq<Chunk>, c: Chunk, m: Chunk, r: seq<Chunk>)
    requires r == Splice(cs, Lo(cs, c), Hi(cs, c), m)
    requires m.addr == Union(cs, c).addr && m.size == Union(cs, c).size
    ensures SameRuns(r, Joined(cs, c))
    ensures m.numa == c.numa ==> r == Joined(cs, c)
  {
  }

  // The two ways to join at the chunk the search has met: it grows, and swallows its neighbour on the
  // other side if that now touches.
  method GrowRight(t: Tree, c: Chunk, i: nat) returns (r: Tree)
    requires Gapped(InOrder(t)) && DisjointFrom(InOrder(t), c) && c.size > 0
    requires i < |InOrder(t)| && InOrder(t)[i].End() == c.addr
    ensures SameRuns(InOrder(r), Joined(InOrder(t), c))
    ensures OnNode(InOrder(t), c.numa) ==> InOrder(r) == Joined(InOrder(t), c)
  {
    hide InOrder; hide Place; hide DisjointFrom; hide Gapped; hide Splice; hide Joined; hide SameRuns;
    TouchedIs(InOrder(t), c, i);
    var here := InOrder(t)[i];
    here := here.(size := here.size + c.size);
    if i + 1 < |InOrder(t)| {
      var right := InOrder(t)[i + 1];
      if here.End() == right.addr {
        here := here.(size := here.size + right.size);
        r := EraseAt(SetAt(t, i, here), i + 1);
        SetIsSplice(InOrder(t), i, here);
        SpliceIsJoined(InOrder(t), c, here, InOrder(r));
        return;
      }
    }
    r := SetAt(t, i, here);
    SetIsSplice(InOrder(t), i, here);
    SpliceIsJoined(InOrder(t), c, here, InOrder(r));
  }

  method GrowLeft(t: Tree, c: Chunk, i: nat) returns (r: Tree)
    requires Gapped(InOrder(t)) && DisjointFrom(InOrder(t), c) && c.size > 0
    requires i < |InOrder(t)| && c.End() == InOrder(t)[i].addr
    ensures SameRuns(InOrder(r), Joined(InOrder(t), c))
    ensures OnNode(InOrder(t), c.numa) ==> InOrder(r) == Joined(InOrder(t), c)
  {
    hide InOrder; hide Place; hide DisjointFrom; hide Gapped; hide Splice; hide Joined; hide SameRuns;
    TouchedIs(InOrder(t), c, i);
    var here := InOrder(t)[i];
    here := here.(addr := here.addr - c.size, size := here.size + c.size);
    if i > 0 {
      var left := InOrder(t)[i - 1];
      if left.End() == here.addr {
        here := here.(addr := here.addr - left.size, size := here.size + left.size);
        r := EraseAt(SetAt(t, i, here), i - 1);
        SetIsSplice(InOrder(t), i, here);
        SpliceIsJoined(InOrder(t), c, here, InOrder(r));
        return;
      }
    }
    r := SetAt(t, i, here);
    SetIsSplice(InOrder(t), i, here);
    SpliceIsJoined(InOrder(t), c, here, InOrder(r));
  }

  // A subtree that is the part of the sequence from `off` on splits it in three.
  ghost predicate Part(cs: seq<Chunk>, off: nat, t: Tree) { Slice(cs, off, InOrder(t)) }

  ghost predicate Slice(cs: seq<Chunk>, off: nat, s: seq<Chunk>) {
    off + |s| <= |cs| && forall k :: 0 <= k < |s| ==> s[k] == cs[off + k]
  }

  lemma Parts(cs: seq<Chunk>, off: nat, t: Tree)
    requires t.Node? && Part(cs, off, t)
    ensures var i := off + |InOrder(t.left)|;
      i < |cs| && i + 1 + |InOrder(t.right)| == off + |InOrder(t)| && t.chunk == cs[i] && Part(cs, off, t.left)
        && Part(cs, i + 1, t.right)
  {
    hide Slice;
    ThreeSlices(cs, off, InOrder(t.left), t.chunk, InOrder(t.right));
  }

  lemma ThreeSlices(cs: seq<Chunk>, off: nat, l: seq<Chunk>, c: Chunk, r: seq<Chunk>)
    requires Slice(cs, off, l + [c] + r)
    ensures var i := off + |l|; i < |cs| && c == cs[i] && Slice(cs, off, l) && Slice(cs, i + 1, r)
  {
    var s, n := l + [c] + r, |l|;
    assert s[n] == c;
    assert forall k :: 0 <= k < n ==> s[k] == l[k];
    assert forall k :: 0 <= k < |r| ==> s[n + 1 + k] == r[k];
  }

  lemma WholePart(t: Tree)
    ensures Part(InOrder(t), 0, t)
  {
  }

  // __mem_chunk_insert.
  method Insert(t: Tree, c: Chunk) returns (r: Tree)
    requires Gapped(InOrder(t)) && DisjointFrom(InOrder(t), c) && c.size > 0
    ensures SameRuns(InOrder(r), Joined(InOrder(t), c))
    ensures OnNode(InOrder(t), c.numa) ==> InOrder(r) == Joined(InOrder(t), c)
    ensures !TouchesLeft(InOrder(t), c) && !TouchesRight(InOrder(t), c) ==> InOrder(r) == Joined(InOrder(t), c)
    ensures Gapped(InOrder(r)) && forall b: nat :: Covered(InOrder(r), b) <==> Covered(InOrder(t), b) || c.Holds(b)
  {
    r := Search(t, c);
    hide *;
    JoinedGapped(InOrder(t), c);
    RunsGapped(InOrder(r), Joined(InOrder(t), c));
    forall b: nat ensures Covered(InOrder(r), b) <==> Covered(InOrder(t), b) || c.Holds(b) {
      JoinedCovers(InOrder(t), c, b);
      RunsCover(InOrder(r), Joined(InOrder(t), c), b);
    }
  }

  lemma RunsGapped(cs: seq<Chunk>, ds: seq<Chunk>)
    requires SameRuns(cs, ds) && Gapped(ds)
    ensures Gapped(cs)
  {
  }

  lemma RunsCover(cs: seq<Chunk>, ds: seq<Chunk>, b: nat)
    requires SameRuns(cs, ds)
    ensures Covered(cs, b) <==> Covered(ds, b)
  {
    if i :| 0 <= i < |cs| && cs[i].Holds(b) { assert ds[i].Holds(b); }
    if i :| 0 <= i < |ds| && ds[i].Holds(b) { assert cs[i].Holds(b); }
  }

  // `sub` is the subtree still to be searched and `off` the number of chunks before it. The chunks on
  // either side of the new one both lie on the search path.
  method Search(t: Tree, c: Chunk) returns (r: Tree)
    requires Gapped(InOrder(t)) && DisjointFrom(InOrder(t), c) && c.size > 0
    ensures SameRuns(InOrder(r), Joined(InOrder(t), c))
    ensures OnNode(InOrder(t), c.numa) ==> InOrder(r) == Joined(InOrder(t), c)
    ensures !TouchesLeft(InOrder(t), c) && !TouchesRight(InOrder(t), c) ==> InOrder(r) == Joined(InOrder(t), c)
  {
    hide Place; hide DisjointFrom; hide Gapped; hide OnNode; hide Splice; hide SameRuns; hide Joined; hide Part;
    ghost var cs := InOrder(t);
    ghost var k := Place(cs, c.addr);
    var sub: Tree, off: nat := t, 0;
    WholePart(t);
    while sub.Node?
      invariant Part(cs, off, sub)
      invariant off <= k <= off + |InOrder(sub)|
      invariant k == off ==> !TouchesLeft(cs, c)
      invariant k == off + |InOrder(sub)| ==> !TouchesRight(cs, c)
      decreases sub
    {
      var i := off + |InOrder(sub.left)|;
      Parts(cs, off, sub);
      TouchedIs(cs, c, i);
      if sub.chunk.End() == c.addr {
        r := GrowRight(t, c, i);
        return;
      }
      if c.End() == sub.chunk.addr {
        r := GrowLeft(t, c, i);
        return;
      }
      if c.addr < sub.chunk.addr {
        sub := sub.left;
      } else {
        off := i + 1;
        sub := sub.right;
      }
    }
    r := LinkAt(t, off, c);
    PutIsSplice(cs, off, c);
    SpliceIsJoined(cs, c, c, InOrder(r));
  }

  lemma PutIsSplice(cs: seq<Chunk>, k: nat, c: Chunk)
    requires k <= |cs|
    ensures cs[..k] + [c] + cs[k..] == Splice(cs, k, k, c)
  {
  }
}
