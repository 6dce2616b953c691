// A free list beside chunks held elsewhere: what moving, cutting and merging chunks keeps.
module MemHeld {
  import opened MemChunks
  import opened MemLayout

  // IHK_SMP_MEM_ALL, the largest size_t.
  const ALL := 0xFFFF_FFFF_FFFF_FFFF

  // Requests of whole pages, or of everything.
  ghost predicate Neat(want: nat) { want % PAGE == 0 || want == ALL }

  ghost predicate Placed(s: set<Chunk>) {
    forall c :: c in s ==> c.size % PAGE == 0 && c.End() < ALL
  }

  // `free` is sorted, `rest` are the chunks held elsewhere, and together they satisfy the invariant.
  ghost predicate Held(fs: Frames, free: seq<Chunk>, rest: set<Chunk>) {
    Sorted(free) && AsSet(free) !! rest && Inv(fs, AsSet(free) + rest) && Aligned(fs) && Placed(AsSet(free) + rest)
  }

  lemma HeldParts(fs: Frames, free: seq<Chunk>, rest: set<Chunk>)
    requires Held(fs, free, rest)
    ensures Sorted(free) && AsSet(free) !! rest && Inv(fs, AsSet(free) + rest) && Aligned(fs)
      && Placed(AsSet(free) + rest)
    ensures ValidFrames(fs) && PairDisjoint(AsSet(free) + rest) && AllSound(fs, AsSet(free) + rest)
    ensures HeadsHeld(fs, AsSet(free) + rest)
  {
  }

  lemma HeldIntro(fs: Frames, free: seq<Chunk>, rest: set<Chunk>)
    requires Sorted(free) && AsSet(free) !! rest && Inv(fs, AsSet(free) + rest) && Aligned(fs)
      && Placed(AsSet(free) + rest)
    ensures Held(fs, free, rest)
  {
  }

  lemma InSet(cs: seq<Chunk>)
    ensures forall i :: 0 <= i < |cs| ==> cs[i] in AsSet(cs)
    ensures forall c :: c in AsSet(cs) <==> c in cs
  {
  }

  // Taking a chunk off the free list.
  lemma TakeHeld(fs: Frames, free: seq<Chunk>, rest: set<Chunk>, i: nat)
    requires Held(fs, free, rest) && i < |free|
    ensures Held(fs, Without(free, i), rest + {free[i]}) && free[i] !in rest
  {
    hide *;
    HeldParts(fs, free, rest);
    WithoutSorted(free, i);
    WithoutSet(free, i);
    InSet(free);
    assert AsSet(Without(free, i)) + (rest + {free[i]}) == AsSet(free) + rest;
    HeldIntro(fs, Without(free, i), rest + {free[i]});
  }

  lemma ApartFromFree(free: seq<Chunk>, rest: set<Chunk>, c: Chunk)
    requires PairDisjoint(AsSet(free) + rest) && AsSet(free) !! rest && c in rest
    ensures DisjointFrom(free, c)
  {
    forall i | 0 <= i < |free| ensures Disjoint(free[i], c) {
      assert free[i] in AsSet(free);
    }
  }

  // Putting one back in its place.
  lemma PutHeld(fs: Frames, free: seq<Chunk>, rest: set<Chunk>, c: Chunk)
    requires Held(fs, free, rest) && c in rest
    ensures Held(fs, Insert(free, c), rest - {c})
  {
    hide *;
    HeldParts(fs, free, rest);
    ApartFromFree(free, rest, c);
    SoundOf(fs, AsSet(free) + rest);
    InsertSorted(free, c);
    InsertSet(free, c);
    assert AsSet(Insert(free, c)) + (rest - {c}) == AsSet(free) + rest;
    HeldIntro(fs, Insert(free, c), rest - {c});
  }

  lemma CutPlaced(fs: Frames, c: Chunk, x: nat)
    requires Aligned(fs) && Sound(fs, c) && Cuts(fs, c, x) && c.size % PAGE == 0 && c.End() < ALL && x % PAGE == 0
    requires x <= RestStart(fs, x)
    ensures Placed(Pieces(fs, c, x))
  {
    assert c.addr % PAGE == 0 by { assert fs[c.addr].head % PAGE == 0; }
    assert fs[x].head % PAGE == 0 && fs[x].size % PAGE == 0;
    AlignedDifference(x, c.addr);
    AlignedSum(c.addr, c.size);
    AlignedSum(fs[x].head, fs[x].size);
    if RestStart(fs, x) < c.End() { AlignedDifference(c.End(), RestStart(fs, x)); }
  }

  lemma AlignedDifference(a: nat, b: nat)
    requires a % PAGE == 0 && b % PAGE == 0 && b <= a
    ensures (a - b) % PAGE == 0
  {
  }

  lemma AlignedSum(a: nat, b: nat)
    requires a % PAGE == 0 && b % PAGE == 0
    ensures (a + b) % PAGE == 0
  {
  }

  lemma PiecesApart(fs: Frames, s: set<Chunk>, c: Chunk, x: nat)
    requires PairDisjoint(s) && c in s && Cuts(fs, c, x) && x <= RestStart(fs, x) && forall d :: d in s ==> d.size > 0
    ensures s !! Pieces(fs, c, x)
  {
    forall d | d in s ensures d !in Pieces(fs, c, x) {
      assert d == c || Disjoint(d, c);
    }
  }

  lemma SwapPlaced(s: set<Chunk>, gone: set<Chunk>, come: set<Chunk>)
    requires Placed(s) && Placed(come)
    ensures Placed(s - gone + come)
  {
  }

  // Cutting a chunk that is held elsewhere.
  lemma CutHeld(fs: Frames, free: seq<Chunk>, rest: set<Chunk>, c: Chunk, x: nat)
    requires Held(fs, free, rest) && c in rest && Cuts(fs, c, x) && x % PAGE == 0
    ensures c.addr <= x && x in fs && Held(fs, free, rest - {c} + Pieces(fs, c, x)) && rest !! Pieces(fs, c, x)
    ensures x <= RestStart(fs, x)
  {
    hide *;
    HeldParts(fs, free, rest);
    CutBounds(fs, c, x);
    SoundOf(fs, AsSet(free) + rest);
    PlacedOf(AsSet(free) + rest, c);
    RestIsHead(fs, c, x);
    CutPlaced(fs, c, x);
    CutInv(fs, AsSet(free) + rest, c, x);
    PiecesApart(fs, AsSet(free) + rest, c, x);
    SwapPlaced(AsSet(free) + rest, {c}, Pieces(fs, c, x));
    assert AsSet(free) + rest - {c} + Pieces(fs, c, x) == AsSet(free) + (rest - {c} + Pieces(fs, c, x));
    HeldIntro(fs, free, rest - {c} + Pieces(fs, c, x));
  }

  lemma PlacedOf(s: set<Chunk>, c: Chunk)
    requires Placed(s) && c in s
    ensures c.size % PAGE == 0 && c.End() < ALL
  {
  }

  // Giving a chunk that is held elsewhere back to Linux.
  lemma GiveBackHeld(fs: Frames, free: seq<Chunk>, rest: set<Chunk>, c: Chunk)
    requires Held(fs, free, rest) && c in rest
    ensures ValidFrames(fs) && Aligned(fs) && Sound(fs, c) && c.size % PAGE == 0
    ensures Held(GivenBack(fs, c), free, rest - {c})
  {
    hide *;
    var s := AsSet(free) + rest;
    HeldParts(fs, free, rest);
    SoundOf(fs, s);
    PlacedOf(s, c);
    GiveBackInv(fs, s, c);
    GiveBackAligned(fs, c);
    FewerPlaced(s, c);
    assert s - {c} == AsSet(free) + (rest - {c});
    HeldIntro(GivenBack(fs, c), free, rest - {c});
  }

  lemma GiveBackAligned(fs: Frames, c: Chunk)
    requires Aligned(fs)
    ensures Aligned(GivenBack(fs, c))
  {
  }

  lemma FewerPlaced(s: set<Chunk>, c: Chunk)
    requires Placed(s)
    ensures Placed(s - {c})
  {
  }

  lemma {:induction false} TotalBound(cs: seq<Chunk>, n: int)
    requires Sorted(cs)
    ensures Total(cs, n) <= if cs == [] then 0 else cs[|cs| - 1].End()
  {
    if cs != [] { TotalBound(cs[..|cs| - 1], n); }
  }

  lemma HeldBound(fs: Frames, free: seq<Chunk>, rest: set<Chunk>, n: int)
    requires Held(fs, free, rest)
    ensures Total(free, n) < ALL
  {
    hide Inv; hide Aligned; hide Total;
    TotalBound(free, n);
    if free != [] { assert free[|free| - 1] in AsSet(free) + rest; }
  }

  // ---------- Merging ----------

  lemma MergeAtSorted(cs: seq<Chunk>, i: nat)
    requires Sorted(cs) && i + 1 < |cs| && Joins(cs[i], cs[i + 1])
    ensures Sorted(MergeAt(cs, i))
  {
    var r := MergeAt(cs, i);
    assert forall k :: 0 <= k < |r| ==>
      r[k] == if k < i then cs[k] else if k == i then Join(cs[i], cs[i + 1]) else cs[k + 1];
  }

  lemma MergeAtSet(cs: seq<Chunk>, i: nat)
    requires Sorted(cs) && i + 1 < |cs| && Joins(cs[i], cs[i + 1])
    ensures AsSet(MergeAt(cs, i)) == AsSet(cs) - {cs[i], cs[i + 1]} + {Join(cs[i], cs[i + 1])}
  {
    var c, d, front, back := cs[i], cs[i + 1], cs[..i], cs[i + 2..];
    AroundPair(cs, i);
    hide Sorted; hide Joins; hide AsSet; hide Join;
    assert cs == front + ([c, d] + back);
    AsSetConcat(front, [c, d] + back);
    AsSetConcat([c, d], back);
    AsSetConcat(front + [Join(c, d)], back);
    AsSetConcat(front, [Join(c, d)]);
    SmallSets(c, d, Join(c, d));
  }

  lemma SmallSets(c: Chunk, d: Chunk, j: Chunk)
    ensures AsSet([c, d]) == {c, d} && AsSet([j]) == {j}
  {
  }

  lemma AroundPair(cs: seq<Chunk>, i: nat)
    requires Sorted(cs) && i + 1 < |cs|
    ensures {cs[i], cs[i + 1]} !! AsSet(cs[..i]) && {cs[i], cs[i + 1]} !! AsSet(cs[i + 2..])
  {
  }

  lemma MergeAtHeld(fs: Frames, free: seq<Chunk>, rest: set<Chunk>, i: nat)
    requires Held(fs, free, rest) && i + 1 < |free| && Joins(free[i], free[i + 1])
    ensures Held(fs, MergeAt(free, i), rest)
  {
    hide *;
    var c, d := free[i], free[i + 1];
    var j, s := Join(c, d), AsSet(free) + rest;
    HeldParts(fs, free, rest);
    InSet(free);
    JoinPlaced(s, c, d);
    MergeAtSorted(free, i);
    MergeAtSet(free, i);
    JoinInv(fs, s, c, d);
    SwapPlaced(s, {c, d}, {j});
    SoundOf(fs, s);
    JoinNew(s, c, d);
    assert s - {c, d} + {j} == AsSet(MergeAt(free, i)) + rest;
    HeldIntro(fs, MergeAt(free, i), rest);
  }

  lemma JoinPlaced(s: set<Chunk>, c: Chunk, d: Chunk)
    requires Placed(s) && c in s && d in s && Joins(c, d)
    ensures Placed({Join(c, d)})
  {
    AlignedSum(c.size, d.size);
  }

  lemma JoinNew(s: set<Chunk>, c: Chunk, d: Chunk)
    requires PairDisjoint(s) && c in s && d in s && Joins(c, d) && forall e :: e in s ==> e.size > 0
    ensures Join(c, d) !in s
  {
    var j := Join(c, d);
    assert j in s && j != c ==> Disjoint(j, c);
    assert j != c;
  }

  lemma {:induction false} MergedHeld(fs: Frames, free: seq<Chunk>, rest: set<Chunk>)
    requires Held(fs, free, rest)
    ensures Held(fs, Merged(free), rest)
    decreases |free|
  {
    hide *;
    if FullyMerged(free) {
      FullIsMerged(free);
    } else {
      var i := NotFull(free);
      MergeAtMerged(free, i);
      MergeAtHeld(fs, free, rest, i);
      MergeAtShrinks(free, i);
      MergedHeld(fs, MergeAt(free, i), rest);
    }
  }

  lemma NotFull(cs: seq<Chunk>) returns (i: nat)
    requires !FullyMerged(cs)
    ensures i + 1 < |cs| && Joins(cs[i], cs[i + 1])
  {
    var a, b :| 0 <= a < b < |cs| && b == a + 1 && Joins(cs[a], cs[b]);
    i := a;
  }

  lemma MergeAtShrinks(cs: seq<Chunk>, i: nat)
    requires i + 1 < |cs|
    ensures |MergeAt(cs, i)| == |cs| - 1
  {
  }

  lemma MergeAtCovers(cs: seq<Chunk>, i: nat, n: int, b: nat)
    requires i + 1 < |cs| && Joins(cs[i], cs[i + 1])
    ensures CoveredOn(MergeAt(cs, i), n, b) <==> CoveredOn(cs, n, b)
  {
    var r := MergeAt(cs, i);
    if CoveredOn(cs, n, b) {
      var c :| c in cs && c.Holds(b) && c.numa == n;
      var k :| 0 <= k < |cs| && cs[k] == c;
      assert r[if k <= i then k else k - 1] in r && r[if k <= i then k else k - 1].Holds(b);
    }
    if CoveredOn(r, n, b) {
      var c :| c in r && c.Holds(b) && c.numa == n;
      var k :| 0 <= k < |r| && r[k] == c;
      if k == i {
        assert cs[i] in cs && cs[i + 1] in cs && (cs[i].Holds(b) || cs[i + 1].Holds(b));
      } else {
        assert c == cs[if k < i then k else k + 1];
      }
    }
  }

  // Merging changes no byte and no node.
  lemma {:induction false} MergedCovers(cs: seq<Chunk>, n: int, b: nat)
    ensures CoveredOn(Merged(cs), n, b) <==> CoveredOn(cs, n, b)
    decreases |cs|
  {
    hide *;
    if FullyMerged(cs) {
      FullIsMerged(cs);
    } else {
      var i := NotFull(cs);
      MergeAtMerged(cs, i);
      MergeAtCovers(cs, i, n, b);
      MergeAtShrinks(cs, i);
      MergedCovers(MergeAt(cs, i), n, b);
    }
  }
}
