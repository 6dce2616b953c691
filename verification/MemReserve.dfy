// Reserving memory of a node: pages handed out by Linux are gathered in a tree, the largest runs become
// free chunks until the request is met, and the rest goes back to Linux.
module MemReserve {
  import opened MemChunks
  import opened MemLayout
  import opened MemHeld
  import opened MemRelease
  import opened MemTree

  // The gathered compound pages, in the order in which Linux gave them out, are those of `added`.
  ghost predicate PagesOf(added: Frames, pages: seq<Chunk>, numa: int) {
    && ValidFrames(added) && Aligned(added) && (forall b :: b in added ==> b + 1 < ALL)
    && (forall i :: 0 <= i < |pages| ==> IsPage(added, pages[i], numa))
    && (forall i, j :: 0 <= i < j < |pages| ==> pages[i].addr != pages[j].addr)
    && (forall h: nat :: IsHead(added, h) ==> exists i :: 0 <= i < |pages| && pages[i].addr == h)
  }

  ghost predicate IsPage(added: Frames, p: Chunk, numa: int) {
    IsHead(added, p.addr) && p.size == added[p.addr].size && p.size > 0 && p.numa == numa
  }

  lemma Overlap(c: Chunk, d: Chunk) returns (b: nat)
    requires c.size > 0 && d.size > 0 && !Disjoint(c, d)
    ensures c.Holds(b) && d.Holds(b)
  {
    b := if c.addr < d.addr then d.addr else c.addr;
  }

  lemma PageBytes(added: Frames, p: Chunk, numa: int, b: nat)
    requires ValidFrames(added) && IsPage(added, p, numa) && p.Holds(b)
    ensures b in added && added[b].head == p.addr
  {
    assert Whole(added, added[p.addr]);
  }

  lemma NewPage(added: Frames, pages: seq<Chunk>, numa: int, k: nat, cs: seq<Chunk>)
    requires PagesOf(added, pages, numa) && k < |pages| && Gapped(cs)
    requires forall b: nat :: Covered(cs, b) <==> Covered(pages[..k], b)
    ensures DisjointFrom(cs, pages[k])
  {
    var p := pages[k];
    assert IsPage(added, p, numa);
    forall i | 0 <= i < |cs| ensures Disjoint(cs[i], p) {
      if !Disjoint(cs[i], p) {
        var b := Overlap(cs[i], p);
        assert Covered(cs, b);
        var j :| 0 <= j < k && pages[..k][j].Holds(b);
        PageBytes(added, pages[j], numa, b);
        PageBytes(added, p, numa, b);
        assert false;
      }
    }
  }

  lemma JoinedOnNode(cs: seq<Chunk>, c: Chunk)
    requires OnNode(cs, c.numa)
    ensures OnNode(Joined(cs, c), c.numa)
  {
  }

  // What the tree holds once all pages are in: the maximal runs of their bytes.
  ghost predicate Runs(added: Frames, tmp: seq<Chunk>, numa: int) {
    Gapped(tmp) && OnNode(tmp, numa) && forall b: nat :: Covered(tmp, b) <==> b in added
  }

  method Gather(pages: seq<Chunk>, numa: int, ghost added: Frames) returns (t: Tree)
    requires PagesOf(added, pages, numa)
    ensures Runs(added, InOrder(t), numa) && Total(InOrder(t), numa) == Total(pages, numa)
  {
    hide Gapped; hide Covered; hide InOrder; hide Joined; hide PagesOf; hide DisjointFrom; hide OnNode; hide Total;
    t := Empty;
    GatherStart(pages, numa);
    for k := 0 to |pages|
      invariant Gapped(InOrder(t)) && OnNode(InOrder(t), numa) && Total(InOrder(t), numa) == Total(pages[..k], numa)
      invariant forall b: nat :: Covered(InOrder(t), b) <==> Covered(pages[..k], b)
    {
      JoinedTotal(InOrder(t), pages[k]);
      TotalNext(pages, k, numa);
      NewPage(added, pages, numa, k, InOrder(t));
      PageIs(added, pages, numa, k);
      JoinedOnNode(InOrder(t), pages[k]);
      forall b: nat ensures Covered(pages[..k + 1], b) <==> Covered(pages[..k], b) || pages[k].Holds(b) {
        OneMore(pages, k, b);
      }
      t := MemTree.Insert(t, pages[k]);
    }
    assert pages[..|pages|] == pages;
    forall b: nat ensures Covered(InOrder(t), b) <==> b in added {
      AllPages(added, pages, numa, b);
    }
  }

  lemma TotalNext(cs: seq<Chunk>, k: nat, n: int)
    requires k < |cs|
    ensures Total(cs[..k + 1], n) == Total(cs[..k], n) + if cs[k].numa == n then cs[k].size else 0
  {
    assert cs[..k + 1][..k] == cs[..k];
  }

  // Joining adds the size of the new chunk.
  lemma JoinedTotal(cs: seq<Chunk>, c: Chunk)
    ensures OnNode(cs, c.numa) ==> Total(Joined(cs, c), c.numa) == Total(cs, c.numa) + c.size
  {
    if OnNode(cs, c.numa) {
      var lo, hi, n := Lo(cs, c), Hi(cs, c), c.numa;
      SpliceTotal(cs, lo, hi, Union(cs, c), n);
      JoinedPart(cs, c);
    }
  }

  lemma SpliceTotal(cs: seq<Chunk>, lo: nat, hi: nat, m: Chunk, n: int)
    requires lo <= hi <= |cs| && m.numa == n
    ensures Total(Splice(cs, lo, hi, m), n) + Total(cs[lo..hi], n) == Total(cs, n) + m.size
  {
    hide Total;
    TotalSplit(cs[..lo] + [m], cs[hi..], n);
    TotalSplit(cs[..lo], [m], n);
    TotalOne(m, n);
    assert cs == cs[..lo] + cs[lo..hi] + cs[hi..];
    TotalSplit(cs[..lo] + cs[lo..hi], cs[hi..], n);
    TotalSplit(cs[..lo], cs[lo..hi], n);
  }

  lemma JoinedPart(cs: seq<Chunk>, c: Chunk)
    requires OnNode(cs, c.numa)
    ensures Total(cs[Lo(cs, c)..Hi(cs, c)], c.numa) + c.size == Union(cs, c).size
  {
    hide Total; hide Place;
    var k, lo, hi, n := Place(cs, c.addr), Lo(cs, c), Hi(cs, c), c.numa;
    assert cs[lo..hi] == cs[lo..k] + cs[k..hi];
    TotalSplit(cs[lo..k], cs[k..hi], n);
    NoTotal(n);
    if TouchesLeft(cs, c) {
      assert cs[lo..k] == [cs[k - 1]];
      TotalOne(cs[k - 1], n);
    } else {
      assert cs[lo..k] == [];
    }
    if TouchesRight(cs, c) {
      assert cs[k..hi] == [cs[k]];
      TotalOne(cs[k], n);
    } else {
      assert cs[k..hi] == [];
    }
  }

  lemma NoTotal(n: int)
    ensures Total([], n) == 0
  {
  }

  lemma GatherStart(pages: seq<Chunk>, numa: int)
    ensures Gapped(InOrder(Empty)) && OnNode(InOrder(Empty), numa)
      && Total(InOrder(Empty), numa) == Total(pages[..0], numa)
    ensures forall b: nat :: Covered(InOrder(Empty), b) <==> Covered(pages[..0], b)
  {
  }

  lemma PageIs(added: Frames, pages: seq<Chunk>, numa: int, k: nat)
    requires PagesOf(added, pages, numa) && k < |pages|
    ensures pages[k].size > 0 && pages[k].numa == numa
  {
    assert IsPage(added, pages[k], numa);
  }

  lemma OneMore(pages: seq<Chunk>, k: nat, b: nat)
    requires k < |pages|
    ensures Covered(pages[..k + 1], b) <==> Covered(pages[..k], b) || pages[k].Holds(b)
  {
    assert pages[..k + 1] == pages[..k] + [pages[k]];
    CoveredSplit(pages[..k], [pages[k]], b);
    assert Covered([pages[k]], b) <==> pages[k].Holds(b) by {
      if pages[k].Holds(b) { assert [pages[k]][0].Holds(b); }
    }
  }

  lemma AllPages(added: Frames, pages: seq<Chunk>, numa: int, b: nat)
    requires PagesOf(added, pages, numa)
    ensures Covered(pages, b) <==> b in added
  {
    if Covered(pages, b) {
      var i :| 0 <= i < |pages| && pages[i].Holds(b);
      PageBytes(added, pages[i], numa, b);
    }
    if b in added {
      var h: nat := added[b].head;
      assert Whole(added, added[b]);
      assert IsHead(added, h);
      var i :| 0 <= i < |pages| && pages[i].addr == h;
      assert IsPage(added, pages[i], numa);
      assert pages[i].Holds(b);
    }
  }

  // ---------- Adding the runs to the partition ----------

  lemma GapAt(tmp: seq<Chunk>, i: nat)
    requires Gapped(tmp) && i < |tmp|
    ensures !Covered(tmp, tmp[i].End()) && (tmp[i].addr > 0 ==> !Covered(tmp, tmp[i].addr - 1))
  {
  }

  lemma RunIsSound(added: Frames, tmp: seq<Chunk>, numa: int, i: nat)
    requires ValidFrames(added) && Runs(added, tmp, numa) && i < |tmp|
    ensures Sound(added, tmp[i])
  {
    var c := tmp[i];
    forall p: nat | c.Holds(p) ensures p in added {
      assert Covered(tmp, p);
    }
    assert c.Holds(c.addr);
    var f := added[c.addr];
    assert Whole(added, f);
    GapAt(tmp, i);
    assert f.head >= c.addr;
  }

  lemma RunIsPlaced(added: Frames, tmp: seq<Chunk>, numa: int, i: nat)
    requires ValidFrames(added) && Aligned(added) && Runs(added, tmp, numa) && i < |tmp|
      && forall b :: b in added ==> b + 1 < ALL
    ensures tmp[i].size % PAGE == 0 && tmp[i].End() < ALL
  {
    var c := tmp[i];
    RunIsSound(added, tmp, numa, i);
    var last: nat := c.End() - 1;
    assert c.Holds(last);
    var f := added[last];
    assert Whole(added, f);
    GapAt(tmp, i);
    assert f.End() == c.End();
    assert f.head % PAGE == 0 && f.size % PAGE == 0 && added[c.addr].head % PAGE == 0;
    AlignedSum(f.head, f.size);
    AlignedDifference(c.End(), c.addr);
  }

  lemma BothFrames(frames: Frames, added: Frames)
    requires frames.Keys !! added.Keys && ValidFrames(frames) && ValidFrames(added) && Aligned(frames) && Aligned(added)
    ensures ValidFrames(frames + added) && Aligned(frames + added)
    ensures forall h: nat :: IsHead(frames + added, h) <==> IsHead(frames, h) || IsHead(added, h)
  {
    var fs := frames + added;
    forall p | p in fs ensures Whole(fs, fs[p]) {
      if p in added { assert Whole(added, added[p]); } else { assert Whole(frames, frames[p]); }
    }
  }

  lemma StillSound(frames: Frames, added: Frames, c: Chunk)
    requires frames.Keys !! added.Keys
    ensures Sound(frames, c) || Sound(added, c) ==> Sound(frames + added, c)
    ensures Sound(frames, c) ==> !Sound(added, c)
  {
  }

  lemma ApartKeys(frames: Frames, added: Frames, c: Chunk, d: Chunk)
    requires frames.Keys !! added.Keys && Sound(frames, c) && Sound(added, d)
    ensures Disjoint(c, d)
  {
    if !Disjoint(c, d) {
      var b := Overlap(c, d);
      assert false;
    }
  }

  // The runs join what is already held, as chunks on no list yet.
  lemma GatheredHeld(frames: Frames, added: Frames, free: seq<Chunk>, rest: set<Chunk>, tmp: seq<Chunk>, numa: int)
    requires Held(frames, free, rest) && frames.Keys !! added.Keys
    requires ValidFrames(added) && Aligned(added) && Runs(added, tmp, numa) && forall b :: b in added ==> b + 1 < ALL
    ensures Held(frames + added, free, AsSet(tmp) + rest) && AsSet(tmp) !! rest
  {
    hide *;
    var s := AsSet(free) + rest;
    HeldParts(frames, free, rest);
    BothFrames(frames, added);
    AllRuns(added, tmp, numa);
    UnionSound(frames, added, s, AsSet(tmp));
    UnionDisjoint(frames, added, s, tmp);
    UnionHeads(frames, added, s, tmp, numa);
    UnionPlaced(s, AsSet(tmp));
    assert s + AsSet(tmp) == AsSet(free) + (AsSet(tmp) + rest);
    InvIntro(frames + added, s + AsSet(tmp));
    HeldIntro(frames + added, free, AsSet(tmp) + rest);
  }

  lemma AllRuns(added: Frames, tmp: seq<Chunk>, numa: int)
    requires ValidFrames(added) && Aligned(added) && Runs(added, tmp, numa) && forall b :: b in added ==> b + 1 < ALL
    ensures AllSound(added, AsSet(tmp)) && Placed(AsSet(tmp)) && Gapped(tmp)
  {
    forall c | c in AsSet(tmp) ensures Sound(added, c) && c.size % PAGE == 0 && c.End() < ALL {
      var i :| 0 <= i < |tmp| && tmp[i] == c;
      RunIsSound(added, tmp, numa, i);
      RunIsPlaced(added, tmp, numa, i);
    }
  }

  lemma UnionSound(frames: Frames, added: Frames, s: set<Chunk>, t: set<Chunk>)
    requires frames.Keys !! added.Keys && AllSound(frames, s) && AllSound(added, t)
    ensures AllSound(frames + added, s + t) && s !! t
  {
    hide Sound;
    forall c | c in s + t ensures Sound(frames + added, c) && (c !in s || c !in t) {
      StillSound(frames, added, c);
    }
  }

  lemma UnionDisjoint(frames: Frames, added: Frames, s: set<Chunk>, tmp: seq<Chunk>)
    requires frames.Keys !! added.Keys && AllSound(frames, s) && AllSound(added, AsSet(tmp)) && PairDisjoint(s)
      && Gapped(tmp)
    ensures PairDisjoint(s + AsSet(tmp))
  {
    hide Sound;
    forall c, d | c in s && d in AsSet(tmp) ensures Disjoint(c, d) {
      ApartKeys(frames, added, c, d);
    }
    forall c, d | c in AsSet(tmp) && d in AsSet(tmp) && c != d ensures Disjoint(c, d) {
      var i :| 0 <= i < |tmp| && tmp[i] == c;
      var j :| 0 <= j < |tmp| && tmp[j] == d;
    }
  }

  lemma UnionHeads(frames: Frames, added: Frames, s: set<Chunk>, tmp: seq<Chunk>, numa: int)
    requires HeadsHeld(frames, s) && Runs(added, tmp, numa)
    requires forall h: nat :: IsHead(frames + added, h) <==> IsHead(frames, h) || IsHead(added, h)
    ensures HeadsHeld(frames + added, s + AsSet(tmp))
  {
    hide Gapped; hide OnNode;
    forall h: nat | IsHead(frames + added, h) ensures HeldIn(s + AsSet(tmp), h) {
      if IsHead(frames, h) {
        assert HeldIn(s, h);
      } else {
        assert Covered(tmp, h);
        var i :| 0 <= i < |tmp| && tmp[i].Holds(h);
        assert tmp[i] in s + AsSet(tmp);
      }
    }
  }

  lemma UnionPlaced(s: set<Chunk>, t: set<Chunk>)
    requires Placed(s) && Placed(t)
    ensures Placed(s + t)
  {
  }

  // ---------- Choosing the largest runs ----------

  // The first among the biggest.
  ghost predicate Largest(cs: seq<Chunk>, i: nat) {
    i < |cs| && forall j :: 0 <= j < |cs| ==> if j < i then cs[j].size < cs[i].size else cs[j].size <= cs[i].size
  }

  method PickLargest(cs: seq<Chunk>) returns (i: nat)
    requires cs != []
    ensures Largest(cs, i)
  {
    i := 0;
    for k := 1 to |cs|
      invariant i < k && forall j :: 0 <= j < k ==> if j < i then cs[j].size < cs[i].size else cs[j].size <= cs[i].size
    {
      if cs[k].size > cs[i].size { i := k; }
    }
  }

  ghost predicate SameHeld(s: set<Chunk>, t: set<Chunk>) {
    forall b: nat :: HeldIn(s, b) <==> HeldIn(t, b)
  }

  // While runs move from the tree to the free list: what was free stays, what is new is on the node.
  ghost predicate Choosing(fs: Frames, free0: seq<Chunk>, free: seq<Chunk>, tmp: seq<Chunk>, numa: int,
      rest: set<Chunk>) {
    && Held(fs, free, AsSet(tmp) + rest) && AsSet(tmp) !! rest && Gapped(tmp) && OnNode(tmp, numa)
    && AsSet(free0) <= AsSet(free) && (forall c :: c in AsSet(free) - AsSet(free0) ==> c.numa == numa)
  }

  lemma ChoosingParts(fs: Frames, free0: seq<Chunk>, free: seq<Chunk>, tmp: seq<Chunk>, numa: int, rest: set<Chunk>)
    requires Choosing(fs, free0, free, tmp, numa, rest)
    ensures Held(fs, free, AsSet(tmp) + rest) && AsSet(tmp) !! rest && Gapped(tmp) && OnNode(tmp, numa) && Sorted(tmp)
    ensures AsSet(free0) <= AsSet(free) && (forall c :: c in AsSet(free) - AsSet(free0) ==> c.numa == numa)
    ensures forall i :: 0 <= i < |tmp| ==> tmp[i] in AsSet(tmp) && tmp[i].numa == numa
  {
    hide Held;
  }

  lemma ChoosingIntro(fs: Frames, free0: seq<Chunk>, free: seq<Chunk>, tmp: seq<Chunk>, numa: int, rest: set<Chunk>)
    requires Held(fs, free, AsSet(tmp) + rest) && AsSet(tmp) !! rest && Gapped(tmp) && OnNode(tmp, numa)
    requires AsSet(free0) <= AsSet(free) && (forall c :: c in AsSet(free) - AsSet(free0) ==> c.numa == numa)
    ensures Choosing(fs, free0, free, tmp, numa, rest)
  {
  }

  lemma WithoutGapped(cs: seq<Chunk>, i: nat, n: int)
    requires Gapped(cs) && OnNode(cs, n) && i < |cs|
    ensures Gapped(Without(cs, i)) && OnNode(Without(cs, i), n)
  {
    var r := Without(cs, i);
    assert forall j :: 0 <= j < |r| ==> r[j] == cs[if j < i then j else j + 1];
  }

  // A run moves over whole.
  lemma ChooseWhole(fs: Frames, free0: seq<Chunk>, free: seq<Chunk>, tmp: seq<Chunk>, numa: int, rest: set<Chunk>,
      i: nat)
    requires Choosing(fs, free0, free, tmp, numa, rest) && i < |tmp|
    ensures Choosing(fs, free0, MemChunks.Insert(free, tmp[i]), Without(tmp, i), numa, rest)
    ensures AsSet(MemChunks.Insert(free, tmp[i])) + AsSet(Without(tmp, i)) == AsSet(free) + AsSet(tmp)
    ensures forall n :: Total(MemChunks.Insert(free, tmp[i]), n) == Total(free, n) + if n == numa then tmp[i].size
      else 0
  {
    hide *;
    var p := tmp[i];
    ChoosingParts(fs, free0, free, tmp, numa, rest);
    PutHeld(fs, free, AsSet(tmp) + rest, p);
    WithoutSet(tmp, i);
    WithoutGapped(tmp, i, numa);
    InsertSet(free, p);
    InsertTotal(free, p);
    assert AsSet(tmp) + rest - {p} == AsSet(Without(tmp, i)) + rest;
    ChoosingIntro(fs, free0, MemChunks.Insert(free, p), Without(tmp, i), numa, rest);
  }

  lemma SetRest(tmp: seq<Chunk>, i: nat, y: nat, n: int)
    requires Gapped(tmp) && OnNode(tmp, n) && i < |tmp| && tmp[i].addr < y < tmp[i].End()
    ensures var r := tmp[i := Rest(tmp[i], y)];
      Gapped(r) && OnNode(r, n) && AsSet(r) == AsSet(tmp) - {tmp[i]} + {Rest(tmp[i], y)}
  {
    var r := tmp[i := Rest(tmp[i], y)];
    forall c ensures c in r <==> c in AsSet(tmp) - {tmp[i]} + {Rest(tmp[i], y)} {
      if c == Rest(tmp[i], y) { assert r[i] == c; }
      if c in tmp && c != tmp[i] {
        var j :| 0 <= j < |tmp| && tmp[j] == c;
        assert r[j] == c;
      }
    }
  }

  lemma CutAtHead(fs: Frames, p: Chunk, y: nat)
    requires p.addr < y < p.End() && IsHead(fs, y)
    ensures Cuts(fs, p, y) && RestStart(fs, y) == y && Pieces(fs, p, y) == {Front(p, y), Rest(p, y)}
      && Front(p, y) != Rest(p, y)
    ensures Front(p, y).numa == p.numa && Front(p, y).size == y - p.addr
  {
  }

  // A run is cut at a compound head; its front moves over and the rest stays in the tree.
  lemma ChooseFront(fs: Frames, free0: seq<Chunk>, free: seq<Chunk>, tmp: seq<Chunk>, numa: int, rest: set<Chunk>,
      i: nat, y: nat)
    requires Choosing(fs, free0, free, tmp, numa, rest) && i < |tmp| && tmp[i].addr < y < tmp[i].End() && IsHead(fs, y)
      && y % PAGE == 0
    ensures Choosing(fs, free0, MemChunks.Insert(free, Front(tmp[i], y)), tmp[i := Rest(tmp[i], y)], numa, rest)
    ensures AsSet(MemChunks.Insert(free, Front(tmp[i], y))) + AsSet(tmp[i := Rest(tmp[i], y)]) ==
      AsSet(free) + AsSet(tmp) - {tmp[i]} + {Front(tmp[i], y), Rest(tmp[i], y)}
    ensures forall n :: Total(MemChunks.Insert(free, Front(tmp[i], y)), n) == Total(free, n) + if n == numa
      then y - tmp[i].addr else 0
  {
    hide *;
    var p, front, left := tmp[i], Front(tmp[i], y), Rest(tmp[i], y);
    ChoosingParts(fs, free0, free, tmp, numa, rest);
    CutAtHead(fs, p, y);
    HeldParts(fs, free, AsSet(tmp) + rest);
    MemHeld.CutHeld(fs, free, AsSet(tmp) + rest, p, y);
    SetRest(tmp, i, y, numa);
    var tmp' := tmp[i := left];
    PutHeld(fs, free, AsSet(tmp) + rest - {p} + {front, left}, front);
    InsertSet(free, front);
    InsertTotal(free, front);
    assert AsSet(tmp) + rest - {p} + {front, left} - {front} == AsSet(tmp') + rest;
    assert AsSet(tmp') !! rest;
    ChoosingIntro(fs, free0, MemChunks.Insert(free, front), tmp', numa, rest);
  }

  lemma RestApart(tmp: seq<Chunk>, i: nat, y: nat)
    requires Gapped(tmp) && i < |tmp| && tmp[i].addr < y < tmp[i].End()
    ensures var r, c := Without(tmp, i), Rest(tmp[i], y);
      DisjointFrom(r, c) && (i < |r| ==> c.End() < r[i].addr) && (i > 0 ==> r[i - 1].End() < c.addr)
  {
    var r := Without(tmp, i);
    forall j | 0 <= j < |r| ensures Disjoint(r[j], Rest(tmp[i], y)) {
      assert r[j] == tmp[if j < i then j else j + 1];
    }
  }

  lemma RestPlace(tmp: seq<Chunk>, i: nat, y: nat)
    requires Gapped(tmp) && i < |tmp| && tmp[i].addr < y < tmp[i].End()
    ensures Place(Without(tmp, i), y) == i
  {
    var r := Without(tmp, i);
    assert forall j :: 0 <= j < i ==> r[j] == tmp[j] && tmp[j].End() < tmp[i].addr;
    assert i < |r| ==> r[i] == tmp[i + 1];
    PlaceIs(r, y, i);
  }

  // Putting that rest back in the tree touches no other run.
  lemma RestTouchesNone(tmp: seq<Chunk>, i: nat, y: nat)
    requires Gapped(tmp) && i < |tmp| && tmp[i].addr < y < tmp[i].End()
    ensures DisjointFrom(Without(tmp, i), Rest(tmp[i], y))
      && Joined(Without(tmp, i), Rest(tmp[i], y)) == tmp[i := Rest(tmp[i], y)]
  {
    hide Gapped; hide Place; hide DisjointFrom; hide Joined;
    var r, c := Without(tmp, i), Rest(tmp[i], y);
    RestApart(tmp, i, y);
    RestPlace(tmp, i, y);
    JoinedPlain(r, c, i);
    assert r[..i] == tmp[..i] && r[i..] == tmp[i + 1..];
  }

  lemma JoinedPlain(cs: seq<Chunk>, c: Chunk, k: nat)
    requires k <= |cs| && Place(cs, c.addr) == k && (k < |cs| ==> c.End() < cs[k].addr)
      && (k > 0 ==> cs[k - 1].End() < c.addr)
    ensures Joined(cs, c) == cs[..k] + [c] + cs[k..]
  {
    hide Place; hide Splice;
    PutIsSplice(cs, k, c);
    assert Lo(cs, c) == Hi(cs, c) == k && Union(cs, c) == c;
  }

  lemma {:induction false} PlaceIs(cs: seq<Chunk>, addr: nat, k: nat)
    requires k <= |cs| && (k < |cs| ==> cs[k].addr > addr) && forall i :: 0 <= i < k ==> cs[i].addr <= addr
    ensures Place(cs, addr) == k
  {
  }

  lemma PiecesSameHeld(s: set<Chunk>, p: Chunk, y: nat)
    requires p in s && p.addr < y < p.End()
    ensures SameHeld(s - {p} + {Front(p, y), Rest(p, y)}, s)
  {
    var s' := s - {p} + {Front(p, y), Rest(p, y)};
    forall b: nat ensures HeldIn(s', b) <==> HeldIn(s, b) {
      if HeldIn(s, b) {
        var c :| c in s && c.Holds(b);
        if c == p { assert (if b < y then Front(p, y) else Rest(p, y)) in s'; } else { assert c in s'; }
      }
      if HeldIn(s', b) {
        var c :| c in s' && c.Holds(b);
        if c == Front(p, y) || c == Rest(p, y) { assert p.Holds(b); }
      }
    }
  }

  lemma SameHeldTrans(a: set<Chunk>, b: set<Chunk>, c: set<Chunk>)
    requires SameHeld(a, b) && SameHeld(b, c)
    ensures SameHeld(a, c)
  {
  }

  // Where a run is cut when only part of it is needed: after the compound page that the request ends in.
  lemma CutPoint(fs: Frames, free0: seq<Chunk>, free: seq<Chunk>, tmp: seq<Chunk>, numa: int, rest: set<Chunk>,
      i: nat, x: nat)
    requires Choosing(fs, free0, free, tmp, numa, rest) && i < |tmp| && tmp[i].addr < x < tmp[i].End()
    ensures tmp[i].addr % PAGE == 0 && tmp[i].size % PAGE == 0 && x in fs
    ensures x % PAGE == 0 ==>
      var y := if InTail(fs, x) then fs[x].End() else x;
      x <= y && y - x < fs[x].size && y % PAGE == 0 && (y < tmp[i].End() ==> IsHead(fs, y))
  {
    hide Inv; hide Gapped; hide OnNode; hide Sorted;
    var p := tmp[i];
    assert p in AsSet(tmp) && p in AsSet(free) + (AsSet(tmp) + rest);
    HeldParts(fs, free, AsSet(tmp) + rest);
    assert Sound(fs, p);
    assert p.Holds(x);
    hide Held; hide Choosing; hide AllSound; hide PairDisjoint; hide Placed; hide HeadsHeld;
    CutPointOf(fs, p, x);
  }

  lemma CutPointOf(fs: Frames, p: Chunk, x: nat)
    requires ValidFrames(fs) && Aligned(fs) && Sound(fs, p) && x in fs && p.addr < x < p.End()
    ensures p.addr % PAGE == 0
    ensures x % PAGE == 0 ==>
      var y := if InTail(fs, x) then fs[x].End() else x;
      x <= y && y - x < fs[x].size && y % PAGE == 0 && (y < p.End() ==> IsHead(fs, y))
  {
    assert fs[p.addr].head % PAGE == 0 && fs[x].head % PAGE == 0 && fs[x].size % PAGE == 0;
    AlignedSum(fs[x].head, fs[x].size);
    if x % PAGE == 0 {
      var h: nat := fs[x].head;
      if h != x { assert h / PAGE < x / PAGE; }
      if InTail(fs, x) && fs[x].End() < p.End() {
        assert p.Holds(fs[x].End());
        AfterIsHead(fs, x);
      }
    }
  }

  // Runs with `got` bytes in all have moved from the tree, which held `tmp0`, to the free list.
  ghost predicate Selected(fs: Frames, free0: seq<Chunk>, tmp0: seq<Chunk>, free: seq<Chunk>, tmp: seq<Chunk>,
      numa: int, rest: set<Chunk>, got: nat) {
    && Choosing(fs, free0, free, tmp, numa, rest)
    && (forall n :: Total(free, n) == Total(free0, n) + if n == numa then got else 0)
    && got + Total(tmp, numa) == Total(tmp0, numa)
    && SameHeld(AsSet(free) + AsSet(tmp), AsSet(free0) + AsSet(tmp0))
  }

  lemma SelectStart(fs: Frames, free0: seq<Chunk>, tmp0: seq<Chunk>, numa: int, rest: set<Chunk>)
    requires Choosing(fs, free0, free0, tmp0, numa, rest)
    ensures Selected(fs, free0, tmp0, free0, tmp0, numa, rest, 0)
  {
    hide Choosing; hide Total;
  }

  lemma SelectWhole(fs: Frames, free0: seq<Chunk>, tmp0: seq<Chunk>, free: seq<Chunk>, tmp: seq<Chunk>, numa: int,
      rest: set<Chunk>, got: nat, i: nat)
    requires Selected(fs, free0, tmp0, free, tmp, numa, rest, got) && i < |tmp|
    ensures Selected(fs, free0, tmp0, MemChunks.Insert(free, tmp[i]), Without(tmp, i), numa, rest, got + tmp[i].size)
  {
    hide Choosing; hide Total; hide SameHeld; hide AsSet; hide MemChunks.Insert; hide Without;
    ChooseWhole(fs, free0, free, tmp, numa, rest, i);
    RunNode(fs, free0, free, tmp, numa, rest, i);
    TotalWithout(tmp, i, numa);
  }

  lemma SelectFront(fs: Frames, free0: seq<Chunk>, tmp0: seq<Chunk>, free: seq<Chunk>, tmp: seq<Chunk>, numa: int,
      rest: set<Chunk>, got: nat, i: nat, y: nat)
    requires Selected(fs, free0, tmp0, free, tmp, numa, rest, got)
    requires i < |tmp| && tmp[i].addr < y < tmp[i].End() && IsHead(fs, y) && y % PAGE == 0
    ensures Selected(fs, free0, tmp0, MemChunks.Insert(free, Front(tmp[i], y)), tmp[i := Rest(tmp[i], y)], numa, rest,
      got + (y - tmp[i].addr))
  {
    hide Choosing; hide Total; hide SameHeld; hide AsSet; hide MemChunks.Insert;
    var s := AsSet(free) + AsSet(tmp);
    ChooseFront(fs, free0, free, tmp, numa, rest, i, y);
    RunNode(fs, free0, free, tmp, numa, rest, i);
    PiecesSameHeld(s, tmp[i], y);
    SameHeldTrans(s - {tmp[i]} + {Front(tmp[i], y), Rest(tmp[i], y)}, s, AsSet(free0) + AsSet(tmp0));
    RestTotal(tmp, i, y, numa);
  }

  lemma RunNode(fs: Frames, free0: seq<Chunk>, free: seq<Chunk>, tmp: seq<Chunk>, numa: int, rest: set<Chunk>, i: nat)
    requires Choosing(fs, free0, free, tmp, numa, rest) && i < |tmp|
    ensures tmp[i].numa == numa && tmp[i] in AsSet(tmp)
  {
    hide Held; hide Gapped;
  }

  lemma RestTotal(tmp: seq<Chunk>, i: nat, y: nat, n: int)
    requires i < |tmp| && tmp[i].numa == n && tmp[i].addr < y < tmp[i].End()
    ensures Total(tmp[i := Rest(tmp[i], y)], n) + (y - tmp[i].addr) == Total(tmp, n)
  {
    var r := tmp[i := Rest(tmp[i], y)];
    TotalWithout(tmp, i, n);
    TotalWithout(r, i, n);
    assert Without(r, i) == Without(tmp, i);
  }

  // The point `over` bytes before the end of chunk d is inside a compound page, and d reaches no further than
  // that page.
  ghost predicate EndsIn(fs: Frames, d: Chunk, over: nat) {
    && 0 < over < d.size
    && var x := d.End() - over;
       x in fs && fs[x].head < x && d.End() <= fs[x].End()
  }

  // No more than was asked for but to the end of the compound page in which the request ends, in a chunk that
  // is new on the list.
  ghost predicate AlmostExact(fs: Frames, free0: seq<Chunk>, free: seq<Chunk>, want: nat, got: nat) {
    got > want ==> exists d :: d in free && d !in free0 && EndsIn(fs, d, got - want)
  }

  // ---------- Which runs are kept ----------

  // While `sofar` bytes fall short of the request the first of the largest runs was chosen, and kept whole, or
  // as far as the request needs.
  ghost predicate RunAt(l: seq<Chunk>, i: nat, d: Chunk, want: nat, sofar: nat) {
    && sofar < want && Largest(l, i)
    && (d == l[i] || (d.addr == l[i].addr && d.numa == l[i].numa && d.size < l[i].size && want <= sofar + d.size))
  }

  ghost predicate RunsChosen(tmp0: seq<Chunk>, picks: seq<nat>, kept: seq<Chunk>, want: nat, numa: int) {
    && |picks| == |kept|
    && forall k :: 0 <= k < |picks| ==>
         RunAt(ListAfter(tmp0, picks[..k]), picks[k], kept[k], want, Total(kept[..k], numa))
  }

  lemma RunsNext(tmp0: seq<Chunk>, picks: seq<nat>, kept: seq<Chunk>, want: nat, numa: int, i: nat, d: Chunk)
    requires RunsChosen(tmp0, picks, kept, want, numa) && RunAt(ListAfter(tmp0, picks), i, d, want, Total(kept, numa))
    ensures RunsChosen(tmp0, picks + [i], kept + [d], want, numa)
    ensures ListAfter(tmp0, picks + [i]) == Without(ListAfter(tmp0, picks), i)
  {
    hide RunAt; hide Total; hide Without; hide Largest;
    RunIndex(ListAfter(tmp0, picks), i, d, want, Total(kept, numa));
    var ps, ds := picks + [i], kept + [d];
    assert ps[..|picks|] == picks && ds[..|kept|] == kept;
    forall k | 0 <= k < |ps| ensures RunAt(ListAfter(tmp0, ps[..k]), ps[k], ds[k], want, Total(ds[..k], numa)) {
      if k < |picks| { assert ps[..k] == picks[..k] && ds[..k] == kept[..k]; }
    }
  }

  lemma RunIndex(l: seq<Chunk>, i: nat, d: Chunk, want: nat, sofar: nat)
    requires RunAt(l, i, d, want, sofar)
    ensures i < |l|
  {
  }

  // The runs kept so far are on the list, and while the request is not met the tree holds the others.
  ghost predicate Progress(free0: seq<Chunk>, tmp0: seq<Chunk>, free: seq<Chunk>, tmp: seq<Chunk>, picks: seq<nat>,
      kept: seq<Chunk>, want: nat, numa: int, got: nat) {
    && RunsChosen(tmp0, picks, kept, want, numa) && AsSet(free) == AsSet(free0) + AsSet(kept)
    && got == Total(kept, numa) && (got < want ==> tmp == ListAfter(tmp0, picks))
  }

  lemma NoProgress(free0: seq<Chunk>, tmp0: seq<Chunk>, want: nat, numa: int)
    ensures Progress(free0, tmp0, free0, tmp0, [], [], want, numa, 0)
  {
    assert AsSet([]) == {};
  }

  lemma ProgressNext(free0: seq<Chunk>, tmp0: seq<Chunk>, free: seq<Chunk>, tmp: seq<Chunk>, tmp': seq<Chunk>,
      picks: seq<nat>, kept: seq<Chunk>, want: nat, numa: int, got: nat, i: nat, d: Chunk)
    requires Progress(free0, tmp0, free, tmp, picks, kept, want, numa, got) && got < want && d.numa == numa
    requires RunAt(tmp, i, d, want, got) && (got + d.size < want ==> tmp' == Without(tmp, i))
    ensures Progress(free0, tmp0, MemChunks.Insert(free, d), tmp', picks + [i], kept + [d], want, numa, got + d.size)
  {
    hide RunAt; hide Total; hide Without; hide MemChunks.Insert; hide RunsChosen; hide ListAfter; hide AsSet;
    RunsNext(tmp0, picks, kept, want, numa, i, d);
    InsertSet(free, d);
    AppendedSet(kept, d);
    TotalSplit(kept, [d], numa);
    TotalOne(d, numa);
  }

  lemma AppendedSet(cs: seq<Chunk>, d: Chunk)
    ensures AsSet(cs + [d]) == AsSet(cs) + {d}
  {
    var r := cs + [d];
    assert r[|cs|] == d && forall i :: 0 <= i < |cs| ==> r[i] == cs[i];
  }

  // The selection loop of __ihk_smp_reserve_mem.
  method Select(fs: Frames, free0: seq<Chunk>, t0: Tree, want: nat, numa: int, ghost rest: set<Chunk>)
    returns (free: seq<Chunk>, t: Tree, got: nat, ghost picks: seq<nat>, ghost kept: seq<Chunk>)
    requires Neat(want) && Choosing(fs, free0, free0, InOrder(t0), numa, rest)
    ensures Progress(free0, InOrder(t0), free, InOrder(t), picks, kept, want, numa, got)
    ensures Selected(fs, free0, InOrder(t0), free, InOrder(t), numa, rest, got)
    ensures (got >= want || InOrder(t) == []) && AlmostExact(fs, free0, free, want, got) && got < ALL
  {
    hide Choosing; hide Selected; hide AsSet; hide InOrder; hide Joined; hide Gapped; hide OnNode; hide DisjointFrom;
    hide Without; hide Largest; hide MemChunks.Insert; hide AlmostExact; hide Progress;
    free, t, got, picks, kept := free0, t0, 0, [], [];
    NoProgress(free0, InOrder(t0), want, numa);
    SelectStart(fs, free0, InOrder(t0), numa, rest);
    NothingTooMuch(fs, free0, want);
    while got < want && InOrder(t) != []
      invariant Selected(fs, free0, InOrder(t0), free, InOrder(t), numa, rest, got) && got % PAGE == 0
      invariant AlmostExact(fs, free0, free, want, got)
      invariant Progress(free0, InOrder(t0), free, InOrder(t), picks, kept, want, numa, got)
      decreases |InOrder(t)|, want - got
    {
      free, t, got, picks, kept := SelectOne(fs, free0, InOrder(t0), free, t, want, numa, rest, got, picks, kept);
    }
    GotBound(fs, free0, InOrder(t0), free, InOrder(t), numa, rest, got);
  }

  lemma NothingTooMuch(fs: Frames, free0: seq<Chunk>, want: nat)
    ensures AlmostExact(fs, free0, free0, want, 0)
  {
  }

  // All free memory is less than the size that stands for everything.
  lemma GotBound(fs: Frames, free0: seq<Chunk>, tmp0: seq<Chunk>, free: seq<Chunk>, tmp: seq<Chunk>, numa: int,
      rest: set<Chunk>, got: nat)
    requires Selected(fs, free0, tmp0, free, tmp, numa, rest, got)
    ensures got < ALL
  {
    hide *;
    SelectedChoosing(fs, free0, tmp0, free, tmp, numa, rest, got);
    ChoosingParts(fs, free0, free, tmp, numa, rest);
    HeldBound(fs, free, AsSet(tmp) + rest, numa);
  }

  function KeptPart(p: Chunk, y: nat): (d: Chunk)
    requires p.addr < y
  {
    if y < p.End() then Front(p, y) else p
  }

  lemma ProgressPart(free0: seq<Chunk>, tmp0: seq<Chunk>, free: seq<Chunk>, tmp: seq<Chunk>, tmp': seq<Chunk>,
      picks: seq<nat>, kept: seq<Chunk>, want: nat, numa: int, got: nat, i: nat, y: nat)
    requires Progress(free0, tmp0, free, tmp, picks, kept, want, numa, got) && got < want
    requires Largest(tmp, i) && i < |tmp| && tmp[i].numa == numa && tmp[i].addr < y
    requires y < tmp[i].End() ==> got + (y - tmp[i].addr) >= want
    requires y >= tmp[i].End() ==> tmp' == Without(tmp, i)
    ensures var d := KeptPart(tmp[i], y);
      Progress(free0, tmp0, MemChunks.Insert(free, d), tmp', picks + [i], kept + [d], want, numa, got + d.size)
  {
    hide Progress; hide Largest; hide Without; hide MemChunks.Insert;
    ProgressNext(free0, tmp0, free, tmp, tmp', picks, kept, want, numa, got, i, KeptPart(tmp[i], y));
  }

  // What is kept of a run was not on the list before.
  lemma KeptIsNew(fs: Frames, free0: seq<Chunk>, free: seq<Chunk>, tmp: seq<Chunk>, numa: int, rest: set<Chunk>,
      i: nat, y: nat)
    requires Choosing(fs, free0, free, tmp, numa, rest) && i < |tmp| && tmp[i].addr < y && tmp[i].size > 0
    ensures KeptPart(tmp[i], y) !in free0
  {
    hide Inv; hide Gapped; hide OnNode; hide Sorted; hide Placed; hide Aligned;
    var p, d := tmp[i], KeptPart(tmp[i], y);
    HeldParts(fs, free, AsSet(tmp) + rest);
    InSet(free0);
    assert p in AsSet(tmp) && p !in AsSet(free) && d.addr == p.addr && d.size > 0;
    assert d in AsSet(free) ==> Disjoint(d, p);
  }

  lemma KeptExactly(fs: Frames, free0: seq<Chunk>, free: seq<Chunk>, d: Chunk, want: nat, got: nat)
    requires d !in free0 && (got > want ==> EndsIn(fs, d, got - want))
    ensures AlmostExact(fs, free0, MemChunks.Insert(free, d), want, got)
  {
    hide EndsIn; hide MemChunks.Insert;
    InsertSet(free, d);
    InSet(MemChunks.Insert(free, d));
  }

  // How far the chosen run is kept: all of it, or to the end of the compound page where the request is met.
  method KeepTo(fs: Frames, ghost free0: seq<Chunk>, ghost free: seq<Chunk>, tmp: seq<Chunk>, numa: int,
      ghost rest: set<Chunk>, i: nat, want: nat, got: nat)
    returns (y: nat)
    requires got % PAGE == 0 && got < want && i < |tmp| && tmp[i].size > 0 && tmp[i].size % PAGE == 0
    requires want % PAGE == 0 || got + tmp[i].size <= want
    requires Choosing(fs, free0, free, tmp, numa, rest)
    ensures tmp[i].addr < y
    ensures y < tmp[i].End() ==> IsHead(fs, y) && y % PAGE == 0 && got + (y - tmp[i].addr) >= want
    ensures y < tmp[i].End() ==> (y - tmp[i].addr) % PAGE == 0
    ensures got + KeptPart(tmp[i], y).size > want ==>
      EndsIn(fs, KeptPart(tmp[i], y), got + KeptPart(tmp[i], y).size - want)
  {
    hide Choosing;
    var p := tmp[i];
    if got + p.size <= want { return p.End(); }
    var x: nat := p.addr + (want - got);
    CutPoint(fs, free0, free, tmp, numa, rest, i, x);
    AlignedDifference(want, got);
    AlignedSum(p.addr, want - got);
    y := if InTail(fs, x) then fs[x].End() else x;
    if y < p.End() { AlignedDifference(y, p.addr); }
  }

  // One round of it.
  method SelectOne(fs: Frames, ghost free0: seq<Chunk>, ghost tmp0: seq<Chunk>, free: seq<Chunk>, t: Tree, want: nat,
      numa: int, ghost rest: set<Chunk>, got: nat, ghost picks: seq<nat>, ghost kept: seq<Chunk>)
    returns (free': seq<Chunk>, t': Tree, got': nat, ghost picks': seq<nat>, ghost kept': seq<Chunk>)
    requires Progress(free0, tmp0, free, InOrder(t), picks, kept, want, numa, got)
    ensures Progress(free0, tmp0, free', InOrder(t'), picks', kept', want, numa, got')
    requires Neat(want) && got % PAGE == 0 && got < want && InOrder(t) != []
    requires Selected(fs, free0, tmp0, free, InOrder(t), numa, rest, got)
    ensures Selected(fs, free0, tmp0, free', InOrder(t'), numa, rest, got') && got' % PAGE == 0
    ensures AlmostExact(fs, free0, free', want, got')
    ensures |InOrder(t')| < |InOrder(t)| || (|InOrder(t')| == |InOrder(t)| && got' >= want)
  {
    hide Choosing; hide Selected; hide AsSet; hide InOrder; hide Joined; hide Gapped; hide OnNode; hide DisjointFrom;
    hide Without; hide Largest; hide MemChunks.Insert; hide Splice; hide AlmostExact; hide EndsIn; hide Progress;
    ghost var tmp := InOrder(t);
    var i := PickLargest(InOrder(t));
    SelectedParts(fs, free0, tmp0, free, tmp, numa, rest, got, i);
    SelectWhole(fs, free0, tmp0, free, tmp, numa, rest, got, i);
    var p := InOrder(t)[i];
    GotBound(fs, free0, tmp0, MemChunks.Insert(free, p), Without(tmp, i), numa, rest, got + p.size);
    var y := KeepTo(fs, free0, free, InOrder(t), numa, rest, i, want, got);
    KeptIsNew(fs, free0, free, tmp, numa, rest, i, y);
    KeptExactly(fs, free0, free, KeptPart(p, y), want, got + KeptPart(p, y).size);
    picks', kept' := picks + [i], kept + [KeptPart(p, y)];
    if y < p.End() {
      SelectFront(fs, free0, tmp0, free, tmp, numa, rest, got, i, y);
      RestTouchesNone(tmp, i, y);
      free' := MemChunks.Insert(free, Front(p, y));
      t' := MemTree.Insert(EraseAt(t, i), Rest(p, y));
      got' := got + (y - p.addr);
      AlignedSum(got, y - p.addr);
    } else {
      free' := MemChunks.Insert(free, p);
      t' := EraseAt(t, i);
      got' := got + p.size;
      AlignedSum(got, p.size);
    }
    ProgressPart(free0, tmp0, free, tmp, InOrder(t'), picks, kept, want, numa, got, i, y);
  }

  lemma SelectedParts(fs: Frames, free0: seq<Chunk>, tmp0: seq<Chunk>, free: seq<Chunk>, tmp: seq<Chunk>, numa: int,
      rest: set<Chunk>, got: nat, i: nat)
    requires Selected(fs, free0, tmp0, free, tmp, numa, rest, got) && Largest(tmp, i)
    ensures i < |tmp| && Choosing(fs, free0, free, tmp, numa, rest) && Gapped(tmp) && OnNode(tmp, numa)
    ensures tmp[i].size > 0 && tmp[i].size % PAGE == 0 && tmp[i].End() == tmp[i].addr + tmp[i].size
      && tmp[i].numa == numa
    ensures |Without(tmp, i)| == |tmp| - 1 && Gapped(Without(tmp, i)) && OnNode(Without(tmp, i), numa)
  {
    hide Held; hide Total; hide SameHeld;
    assert Choosing(fs, free0, free, tmp, numa, rest);
    WithoutGapped(tmp, i, numa);
    HeldParts(fs, free, AsSet(tmp) + rest);
    assert tmp[i] in AsSet(free) + (AsSet(tmp) + rest);
    PlacedOf(AsSet(free) + (AsSet(tmp) + rest), tmp[i]);
  }

  // ---------- Giving the rest back ----------

  // The compound pages that start in the first k runs have been freed, each once, in order, and no others.
  ghost predicate FreedRuns(fs: Frames, fs': Frames, tmp: seq<Chunk>, k: nat, freed: seq<nat>)
    requires k <= |tmp|
  {
    && Ascending(freed) && (forall h: nat :: h in freed <==> IsHead(fs, h) && Covered(tmp[..k], h))
    && fs' == Less(fs, freed)
  }

  lemma FreedRunsStart(fs: Frames, tmp: seq<Chunk>)
    ensures FreedRuns(fs, fs, tmp, 0, [])
  {
  }

  lemma FreedRunsStep(fs: Frames, fs': Frames, tmp: seq<Chunk>, k: nat, freed: seq<nat>, more: seq<nat>)
    requires k < |tmp| && Sorted(tmp) && FreedRuns(fs, fs', tmp, k, freed) && Ascending(more) && ValidFrames(fs')
    requires forall h: nat :: h in more <==> IsHead(fs', h) && tmp[k].Holds(h)
    ensures FreedRuns(fs, GivenBack(fs', tmp[k]), tmp, k + 1, freed + more)
  {
    hide Sorted;
    BelowRun(tmp, k);
    forall h: nat ensures h in more <==> IsHead(fs, h) && tmp[k].Holds(h) {
      assert h in freed ==> h < tmp[k].addr;
    }
    forall h: nat ensures h in freed + more <==> IsHead(fs, h) && Covered(tmp[..k + 1], h) {
      OneMore(tmp, k, h);
    }
    FreedInOrder(tmp, k, freed, more);
    GiveBackLess(fs, fs', tmp[k], freed, more);
  }

  lemma BelowRun(tmp: seq<Chunk>, k: nat)
    requires Sorted(tmp) && k < |tmp|
    ensures forall h: nat :: Covered(tmp[..k], h) ==> h < tmp[k].addr
  {
  }

  lemma FreedInOrder(tmp: seq<Chunk>, k: nat, freed: seq<nat>, more: seq<nat>)
    requires k < |tmp| && Ascending(freed) && Ascending(more)
    requires forall h: nat :: h in freed ==> h < tmp[k].addr
    requires forall h: nat :: h in more ==> tmp[k].Holds(h)
    ensures Ascending(freed + more)
  {
    forall i, j | 0 <= i < j < |freed + more| ensures (freed + more)[i] < (freed + more)[j] {
      if i < |freed| <= j { assert freed[i] in freed && more[j - |freed|] in more; }
    }
  }

  // __smp_ihk_free_mem_from_rbtree: the runs that are left, first to last.
  method FreeTree(fs: Frames, free: seq<Chunk>, t0: Tree, ghost rest: set<Chunk>) returns (fs': Frames, freed: seq<nat>)
    requires Held(fs, free, AsSet(InOrder(t0)) + rest) && AsSet(InOrder(t0)) !! rest && Sorted(InOrder(t0))
    ensures Held(fs', free, rest) && FreedRuns(fs, fs', InOrder(t0), |InOrder(t0)|, freed)
  {
    hide Held; hide AsSet; hide InOrder; hide Sorted; hide FreedRuns; hide ValidFrames; hide Aligned; hide Sound;
    hide GivenBack;
    var t := t0;
    fs', freed := fs, [];
    ghost var tmp, k := InOrder(t0), 0;
    FreedRunsStart(fs, tmp);
    assert tmp[0..] == tmp;
    while InOrder(t) != []
      invariant 0 <= k <= |tmp| && InOrder(t) == tmp[k..] && Held(fs', free, AsSet(tmp[k..]) + rest)
      invariant FreedRuns(fs, fs', tmp, k, freed)
      decreases |InOrder(t)|
    {
      var c := InOrder(t)[0];
      FirstRun(tmp, k, rest);
      GiveBackHeld(fs', free, AsSet(tmp[k..]) + rest, c);
      var more := ReleaseChunk(fs', c);
      FreedRunsStep(fs, fs', tmp, k, freed, more);
      t := EraseAt(t, 0);
      fs', freed, k := GivenBack(fs', c), freed + more, k + 1;
    }
    assert AsSet(tmp[k..]) + rest == rest by { NoRuns(); }
  }

  lemma NoRuns()
    ensures AsSet([]) == {}
  {
  }

  lemma FirstRun(tmp: seq<Chunk>, k: nat, rest: set<Chunk>)
    requires k < |tmp| && Sorted(tmp) && AsSet(tmp) !! rest
    ensures tmp[k] in AsSet(tmp[k..]) && AsSet(tmp[k..]) + rest - {tmp[k]} == AsSet(tmp[k + 1..]) + rest
    ensures Without(tmp[k..], 0) == tmp[k + 1..]
  {
    assert tmp[k..] == [tmp[k]] + tmp[k + 1..];
    assert AsSet(tmp[k..]) == {tmp[k]} + AsSet(tmp[k + 1..]);
    assert tmp[k] in AsSet(tmp);
    assert tmp[k] !in tmp[k + 1..];
  }

  // Only pages from this reservation go back.
  lemma FreedAreNew(frames: Frames, added: Frames, free0: seq<Chunk>, free: seq<Chunk>, rest: set<Chunk>,
      tmp: seq<Chunk>, numa: int, h: nat)
    requires Held(frames, free0, rest) && Choosing(frames + added, free0, free, tmp, numa, rest)
    requires IsHead(frames, h)
    ensures !Covered(tmp, h)
  {
    hide Sorted; hide Gapped; hide Aligned; hide Placed; hide ValidFrames; hide AllSound; hide OnNode; hide Disjoint;
    assert HeldIn(AsSet(free0) + rest, h);
    var c :| c in AsSet(free0) + rest && c.Holds(h);
    forall i | 0 <= i < |tmp| ensures !tmp[i].Holds(h) {
      assert tmp[i] in AsSet(tmp);
      assert c != tmp[i];
      assert Disjoint(c, tmp[i]);
      DisjointBytes(c, tmp[i], h);
    }
  }

  lemma DisjointBytes(c: Chunk, d: Chunk, b: nat)
    requires Disjoint(c, d) && c.Holds(b)
    ensures !d.Holds(b)
  {
  }

  // What a successful reservation leaves: `got` more free bytes on the node, at least the request or all that
  // was gathered, nothing else moved, and the pages not needed given back.
  ghost predicate Reserved(frames: Frames, added: Frames, pages: seq<Chunk>, free0: seq<Chunk>, fs: Frames,
      free: seq<Chunk>, numa: int, want: nat, got: nat, freed: seq<nat>) {
    && AsSet(free0) <= AsSet(free) && (forall c :: c in AsSet(free) - AsSet(free0) ==> c.numa == numa)
    && (forall n :: Total(free, n) == Total(free0, n) + if n == numa then got else 0)
    && (if want == ALL then got == Total(pages, numa) && freed == []
      else want <= got && AlmostExact(added, free0, free, want, got))
    && Ascending(freed) && (forall h: nat :: h in freed ==> IsHead(added, h))
    && fs == Less(frames + added, freed) && LargestKept(added, free0, free, want, numa)
  }

  // The runs of gathered pages were kept largest first, and no more of them than the request needs.
  ghost predicate LargestKept(added: Frames, free0: seq<Chunk>, free: seq<Chunk>, want: nat, numa: int) {
    exists tmp0, picks, kept :: KeptOf(added, free0, free, tmp0, picks, kept, want, numa)
  }

  ghost predicate KeptOf(added: Frames, free0: seq<Chunk>, free: seq<Chunk>, tmp0: seq<Chunk>, picks: seq<nat>,
      kept: seq<Chunk>, want: nat, numa: int) {
    Runs(added, tmp0, numa) && RunsChosen(tmp0, picks, kept, want, numa) && AsSet(free) == AsSet(free0) + AsSet(kept)
  }

  // What a failed one leaves: everything as it was, every gathered page given back, each once.
  ghost predicate Unreserved(frames: Frames, added: Frames, free0: seq<Chunk>, fs: Frames, free: seq<Chunk>,
      freed: seq<nat>) {
    free == free0 && fs == frames && Ascending(freed) && forall h: nat :: h in freed <==> IsHead(added, h)
  }

  const ENOMEM := 12
  const CHUNK_BASE := 0x40_0000
  const TWO_64 := 0x1_0000_0000_0000_0000

  // Requests are rounded up to whole base chunks, in 64-bit arithmetic; everything stays everything.
  function Wanted(request: nat): (want: nat)
    requires request <= ALL
    ensures want <= ALL && Neat(want)
    ensures request == ALL ==> want == ALL
    ensures request != ALL ==> want % CHUNK_BASE == 0
    ensures request <= TWO_64 - CHUNK_BASE ==> request <= want < request + CHUNK_BASE
    ensures TWO_64 - CHUNK_BASE < request < ALL ==> want == 0
  {
    if request == ALL then ALL
    else
      var n := (request + CHUNK_BASE - 1) % TWO_64;
      WholeChunks(n);
      n - n % CHUNK_BASE
  }

  lemma WholeChunks(n: nat)
    ensures (n - n % CHUNK_BASE) % PAGE == 0 && (n - n % CHUNK_BASE) % CHUNK_BASE == 0
  {
    var k := n / CHUNK_BASE;
    assert n - n % CHUNK_BASE == (k * 1024) * PAGE;
  }

  // __ihk_smp_reserve_mem once its pages are gathered: too few of them fail the request unless everything
  // was asked for.
  method Reserve(frames: Frames, free0: seq<Chunk>, added: Frames, pages: seq<Chunk>, request: nat, numa: int,
      ghost rest: set<Chunk>)
    returns (r: int, fs: Frames, free: seq<Chunk>, got: nat, freed: seq<nat>)
    requires request <= ALL && Held(frames, free0, rest) && PagesOf(added, pages, numa) && frames.Keys !! added.Keys
    ensures r == 0 || r == -ENOMEM
    ensures r == 0 <==> Wanted(request) == ALL || Wanted(request) <= Total(pages, numa)
    ensures Held(fs, free, rest)
    ensures r == 0 ==> Reserved(frames, added, pages, free0, fs, free, numa, Wanted(request), got, freed)
    ensures r != 0 ==> Unreserved(frames, added, free0, fs, free, freed) && got == 0
  {
    hide Held; hide Choosing; hide Selected; hide AsSet; hide InOrder; hide Gapped; hide Sorted; hide PagesOf;
    hide Runs; hide FreedRuns; hide AlmostExact; hide Reserved; hide Unreserved; hide Total; hide Wanted; hide Progress;
    hide LargestKept;
    var want := Wanted(request);
    var t := Gather(pages, numa, added);
    PagesParts(added, pages, numa);
    GatheredHeld(frames, added, free0, rest, InOrder(t), numa);
    ChoosingStart(frames, added, free0, rest, InOrder(t), numa);
    ChoosingParts(frames + added, free0, free0, InOrder(t), numa, rest);
    var gathered := Bytes(pages, numa, added);
    if gathered < want && want != ALL {
      fs, freed := FreeTree(frames + added, free0, t, rest);
      Returned(frames, added, free0, rest, InOrder(t), numa, fs, freed);
      UnreservedIntro(frames, added, free0, fs, freed);
      return -ENOMEM, fs, free0, 0, freed;
    }
    var t';
    ghost var picks, kept;
    free, t', got, picks, kept := Select(frames + added, free0, t, want, numa, rest);
    KeptIntro(added, free0, free, InOrder(t), InOrder(t'), picks, kept, want, numa, got);
    SelectedEnd(frames + added, free0, InOrder(t), free, InOrder(t'), numa, rest, got);
    fs, freed := FreeTree(frames + added, free, t', rest);
    ReservedEnd(frames, added, pages, free0, InOrder(t), free, InOrder(t'), numa, rest, want, got, fs, freed);
    r := 0;
  }

  // The running count of gathered bytes.
  method Bytes(pages: seq<Chunk>, numa: int, ghost added: Frames) returns (n: nat)
    requires PagesOf(added, pages, numa)
    ensures n == Total(pages, numa)
  {
    hide PagesOf; hide Total;
    n := 0;
    NoTotal(numa);
    assert pages[..0] == [];
    for k := 0 to |pages|
      invariant n == Total(pages[..k], numa)
    {
      PageIs(added, pages, numa, k);
      TotalNext(pages, k, numa);
      n := n + pages[k].size;
    }
    assert pages[..|pages|] == pages;
  }

  // Giving back all runs gives back all gathered pages and leaves the frames as they were.
  lemma Returned(frames: Frames, added: Frames, free0: seq<Chunk>, rest: set<Chunk>, tmp: seq<Chunk>, numa: int,
      fs: Frames, freed: seq<nat>)
    requires Held(frames, free0, rest) && ValidFrames(added) && frames.Keys !! added.Keys && Runs(added, tmp, numa)
    requires FreedRuns(frames + added, fs, tmp, |tmp|, freed)
    ensures fs == frames && Ascending(freed) && forall h: nat :: h in freed <==> IsHead(added, h)
  {
    hide Gapped; hide OnNode; hide Covered; hide Held; hide ValidFrames; hide Less;
    HeldParts(frames, free0, rest);
    assert tmp[..|tmp|] == tmp;
    forall h: nat ensures h in freed <==> IsHead(added, h) {
      assert Covered(tmp, h) <==> h in added;
    }
    OnlyOld(frames, added, freed);
  }

  lemma OnlyOld(frames: Frames, added: Frames, freed: seq<nat>)
    requires ValidFrames(frames) && ValidFrames(added) && frames.Keys !! added.Keys
    requires forall h: nat :: h in freed <==> IsHead(added, h)
    ensures Less(frames + added, freed) == frames
  {
    forall p | p in added ensures added[p].head in freed {
      assert Whole(added, added[p]);
    }
    forall p | p in frames ensures frames[p].head !in freed {
      assert Whole(frames, frames[p]);
    }
  }

  lemma UnreservedIntro(frames: Frames, added: Frames, free0: seq<Chunk>, fs: Frames, freed: seq<nat>)
    requires fs == frames && Ascending(freed) && forall h: nat :: h in freed <==> IsHead(added, h)
    ensures Unreserved(frames, added, free0, fs, free0, freed)
  {
  }

  lemma PagesParts(added: Frames, pages: seq<Chunk>, numa: int)
    requires PagesOf(added, pages, numa)
    ensures ValidFrames(added) && Aligned(added) && (forall b :: b in added ==> b + 1 < ALL)
  {
  }

  lemma ChoosingStart(frames: Frames, added: Frames, free0: seq<Chunk>, rest: set<Chunk>, tmp: seq<Chunk>, numa: int)
    requires Held(frames + added, free0, AsSet(tmp) + rest) && AsSet(tmp) !! rest && Runs(added, tmp, numa)
    ensures Choosing(frames + added, free0, free0, tmp, numa, rest)
  {
    hide Held; hide Gapped; hide OnNode;
  }

  lemma SelectedEnd(fs: Frames, free0: seq<Chunk>, tmp0: seq<Chunk>, free: seq<Chunk>, tmp: seq<Chunk>, numa: int,
      rest: set<Chunk>, got: nat)
    requires Selected(fs, free0, tmp0, free, tmp, numa, rest, got)
    ensures Held(fs, free, AsSet(tmp) + rest) && AsSet(tmp) !! rest && Sorted(tmp)
  {
    hide *;
    SelectedChoosing(fs, free0, tmp0, free, tmp, numa, rest, got);
    ChoosingParts(fs, free0, free, tmp, numa, rest);
  }

  lemma SelectedChoosing(fs: Frames, free0: seq<Chunk>, tmp0: seq<Chunk>, free: seq<Chunk>, tmp: seq<Chunk>,
      numa: int, rest: set<Chunk>, got: nat)
    requires Selected(fs, free0, tmp0, free, tmp, numa, rest, got)
    ensures Choosing(fs, free0, free, tmp, numa, rest)
    ensures forall n :: Total(free, n) == Total(free0, n) + if n == numa then got else 0
    ensures got + Total(tmp, numa) == Total(tmp0, numa)
  {
    hide Choosing; hide Total; hide SameHeld;
  }

  lemma ReservedEnd(frames: Frames, added: Frames, pages: seq<Chunk>, free0: seq<Chunk>, tmp0: seq<Chunk>,
      free: seq<Chunk>, tmp: seq<Chunk>, numa: int, rest: set<Chunk>, want: nat, got: nat, fs: Frames, freed: seq<nat>)
    requires Held(frames, free0, rest) && frames.Keys !! added.Keys && Total(tmp0, numa) == Total(pages, numa)
    requires want == ALL || want <= Total(pages, numa)
    requires got < ALL
    requires Selected(frames + added, free0, tmp0, free, tmp, numa, rest, got) 
    requires AlmostExact(frames + added, free0, free, want, got)
    requires LargestKept(added, free0, free, want, numa)
    requires (got >= want || tmp == []) && FreedRuns(frames + added, fs, tmp, |tmp|, freed)
    ensures Reserved(frames, added, pages, free0, fs, free, numa, want, got, freed)
  {
    hide Held; hide Choosing; hide Selected; hide AsSet; hide AlmostExact; hide Total; hide LargestKept;
    SelectedChoosing(frames + added, free0, tmp0, free, tmp, numa, rest, got);
    ChoosingParts(frames + added, free0, free, tmp, numa, rest);
    AllFreedNew(frames, added, free0, free, tmp, numa, rest, fs, freed);
    EndsInNew(frames, added, free0, free, tmp, numa, rest, want, got);
    NoTotal(numa);
    assert freed == [] || freed[0] in freed;
  }

  lemma AllFreedNew(frames: Frames, added: Frames, free0: seq<Chunk>, free: seq<Chunk>, tmp: seq<Chunk>, numa: int,
      rest: set<Chunk>, fs: Frames, freed: seq<nat>)
    requires Held(frames, free0, rest) && Choosing(frames + added, free0, free, tmp, numa, rest)
    requires FreedRuns(frames + added, fs, tmp, |tmp|, freed)
    ensures forall h: nat :: h in freed ==> IsHead(added, h)
  {
    hide Held; hide Choosing;
    assert tmp[..|tmp|] == tmp;
    forall h: nat | h in freed ensures IsHead(added, h) {
      if IsHead(frames, h) { FreedAreNew(frames, added, free0, free, rest, tmp, numa, h); }
    }
  }

  // The page in which the request ends is one of this reservation.
  lemma EndsInNew(frames: Frames, added: Frames, free0: seq<Chunk>, free: seq<Chunk>, tmp: seq<Chunk>, numa: int,
      rest: set<Chunk>, want: nat, got: nat)
    requires Held(frames, free0, rest) && Choosing(frames + added, free0, free, tmp, numa, rest)
    requires frames.Keys !! added.Keys && AlmostExact(frames + added, free0, free, want, got)
    ensures AlmostExact(added, free0, free, want, got)
  {
    hide Held; hide Choosing;
    if got > want {
      var d :| d in free && d !in free0 && EndsIn(frames + added, d, got - want);
      var x := d.End() - (got - want);
      if x in frames { OldNotInNew(frames, added, free0, free, tmp, numa, rest, d, x); }
      assert x in added;
      assert EndsIn(added, d, got - want);
    }
  }

  lemma OldNotInNew(frames: Frames, added: Frames, free0: seq<Chunk>, free: seq<Chunk>, tmp: seq<Chunk>, numa: int,
      rest: set<Chunk>, d: Chunk, x: nat)
    requires Held(frames, free0, rest) && Choosing(frames + added, free0, free, tmp, numa, rest)
    requires frames.Keys !! added.Keys && d in free && d !in free0 && d.addr <= x < d.End()
    ensures x !in frames
  {
    hide Gapped; hide OnNode; hide Sorted; hide Placed; hide Aligned; hide Inv; hide Held; hide ValidFrames;
    hide PairDisjoint; hide HeadsHeld; hide Sound; hide AsSet;
    var fs := frames + added;
    HeldParts(frames, free0, rest);
    HeldParts(fs, free, AsSet(tmp) + rest);
    InSet(free);
    InSet(free0);
    assert d in AsSet(free) + (AsSet(tmp) + rest) && Sound(fs, d);
    HeadAbove(fs, d, x);
    OthersMiss(AsSet(free0), AsSet(free), AsSet(tmp), rest, d, fs[x].head);
    OldHead(frames, added, AsSet(free0) + rest, x);
  }

  lemma OthersMiss(old0: set<Chunk>, new1: set<Chunk>, tmp: set<Chunk>, rest: set<Chunk>, d: Chunk, h: nat)
    requires PairDisjoint(new1 + (tmp + rest)) && old0 <= new1 && d in new1 && d !in old0 && new1 !! tmp + rest
      && d.Holds(h)
    ensures forall c :: c in old0 + rest ==> !c.Holds(h)
  {
    forall c | c in old0 + rest ensures !c.Holds(h) {
      assert c != d && Disjoint(c, d);
    }
  }

  lemma OldHead(frames: Frames, added: Frames, s: set<Chunk>, x: nat)
    requires ValidFrames(frames) && HeadsHeld(frames, s) && frames.Keys !! added.Keys && x in frames + added
    requires forall c :: c in s ==> !c.Holds((frames + added)[x].head)
    ensures x !in frames
  {
    var h := (frames + added)[x].head;
    assert !HeldIn(s, h);
    assert x in frames ==> Whole(frames, frames[x]) && IsHead(frames, h);
  }

  // A compound page that reaches into a chunk starts in it.
  lemma HeadAbove(fs: Frames, d: Chunk, x: nat)
    requires ValidFrames(fs) && Sound(fs, d) && d.Holds(x)
    ensures x in fs && d.Holds(fs[x].head)
  {
    assert Whole(fs, fs[x]);
  }

  lemma KeptIntro(added: Frames, free0: seq<Chunk>, free: seq<Chunk>, tmp0: seq<Chunk>, tmp: seq<Chunk>,
      picks: seq<nat>, kept: seq<Chunk>, want: nat, numa: int, got: nat)
    requires Runs(added, tmp0, numa) && Progress(free0, tmp0, free, tmp, picks, kept, want, numa, got)
    ensures LargestKept(added, free0, free, want, numa)
  {
    hide Runs; hide RunsChosen; hide AsSet; hide Total; hide ListAfter;
    assert KeptOf(added, free0, free, tmp0, picks, kept, want, numa);
  }
}
