// Assigning memory of a node to an OS: __smp_ihk_os_assign_mem.
module MemAssign {
  import opened Options
  import opened MemChunks
  import opened MemLayout
  import opened MemHeld

  // merge_mem_chunks: scan for a pair to merge, and start over after each one.
  method Merge(cs: seq<Chunk>) returns (r: seq<Chunk>)
    ensures r == Merged(cs)
  {
    r := cs;
    var i := 0;
    while i + 1 < |r|
      invariant i == 0 || i < |r|
      invariant Merged(r) == Merged(cs)
      invariant forall j, k :: 0 <= j < k <= i && k == j + 1 && k < |r| ==> !Joins(r[j], r[k])
      decreases |r|, |r| - i
    {
      if Joins(r[i], r[i + 1]) {
        MergeAtMerged(r, i);
        r := MergeAt(r, i);
        i := 0;
      } else {
        i := i + 1;
      }
    }
    FullIsMerged(r);
  }

  // ---------- Choosing a chunk ----------

  predicate Fits(c: Chunk, size: nat, numa: int) { c.numa == numa && c.size == size }

  // The first chunk on the node that is exactly as big as wanted, or else the first among its biggest.
  ghost predicate Best(cs: seq<Chunk>, size: nat, numa: int, i: nat) {
    && i < |cs| && cs[i].numa == numa
    && if cs[i].size == size then forall j :: 0 <= j < i ==> !Fits(cs[j], size, numa)
       else
         && (forall j :: 0 <= j < |cs| ==> !Fits(cs[j], size, numa))
         && (forall j :: 0 <= j < |cs| && cs[j].numa == numa ==>
           if j < i then cs[j].size < cs[i].size else cs[j].size <= cs[i].size)
  }

  method Pick(cs: seq<Chunk>, size: nat, numa: int) returns (r: Option<nat>)
    ensures r.None? ==> forall j :: 0 <= j < |cs| ==> cs[j].numa != numa
    ensures r.Some? ==> Best(cs, size, numa, r.value)
  {
    r := None;
    for i := 0 to |cs|
      invariant r.None? ==> forall j :: 0 <= j < i ==> cs[j].numa != numa
      invariant r.Some? ==> r.value < i && Best(cs[..i], size, numa, r.value) && cs[r.value].size != size
    {
      if cs[i].numa != numa {
        assert forall j :: 0 <= j < i ==> cs[..i][j] == cs[..i + 1][j];
        continue;
      }
      if cs[i].size == size {
        assert forall j :: 0 <= j < i ==> cs[..i][j] == cs[j];
        return Some(i);
      }
      assert forall j :: 0 <= j < i ==> cs[..i][j] == cs[..i + 1][j];
      if r.None? || cs[r.value].size < cs[i].size { r := Some(i); }
    }
    assert cs[..|cs|] == cs;
  }

  // ---------- Cutting one ----------

  function PageBase(x: nat): (p: nat) { x - x % PAGE }

  // What stays free of chunk c when it is cut at x. Nothing does when x is inside the last compound page
  // of the chunk. Sizes wrap at 64 bits.
  function Leftover(fs: Frames, c: Chunk, x: nat): (r: Option<Chunk>)
    requires x in fs && fs[x].head <= PageBase(x) <= fs[x].End() && x <= c.End()
  {
    if !InTail(fs, x) then Some(Chunk(x, c.End() - x, c.numa))
    else if fs[x].End() >= c.End() then None
    else
      var y := x + (fs[x].size - (PageBase(x) - fs[x].head));
      Some(Chunk(y, if y <= c.End() then c.End() - y else c.End() + ALL + 1 - y, c.numa))
  }

  lemma CutFrame(fs: Frames, c: Chunk, x: nat)
    requires ValidFrames(fs) && Aligned(fs) && Sound(fs, c) && c.addr <= x < c.End()
    ensures x in fs && fs[x].head <= PageBase(x) <= fs[x].End()
  {
    assert c.Holds(x);
    var h: nat := fs[x].head;
    assert h % PAGE == 0;
    assert h / PAGE <= x / PAGE;
  }

  // For a cut between pages, it is what stays of the chunk without the compound page that is cut into.
  lemma LeftoverIsRest(fs: Frames, c: Chunk, x: nat)
    requires ValidFrames(fs) && Aligned(fs) && Sound(fs, c) && Cuts(fs, c, x) && x % PAGE == 0
    requires fs[x].head <= PageBase(x) <= fs[x].End()
    ensures Leftover(fs, c, x) == if RestStart(fs, x) < c.End() then Some(Rest(c, RestStart(fs, x))) else None
  {
    var h: nat := fs[x].head;
    assert h % PAGE == 0;
    if h != x { assert h / PAGE < x / PAGE; }
  }

  // For any cut: nothing stays when the cut is past the first page of a compound page that reaches to the end of
  // the chunk; otherwise what stays starts at the cut, or as far into the next compound page as the cut is into its
  // page, and its size wraps at 64 bits.
  lemma LeftoverExactly(fs: Frames, c: Chunk, x: nat)
    requires ValidFrames(fs) && Aligned(fs) && Sound(fs, c) && Cuts(fs, c, x)
      && fs[x].head <= PageBase(x) <= fs[x].End()
    ensures var first := x < fs[x].head + PAGE;
      && (Leftover(fs, c, x).None? <==> !first && c.End() <= fs[x].End())
      && (Leftover(fs, c, x).Some? ==>
            var d := Leftover(fs, c, x).value;
            && d.numa == c.numa && d.addr == (if first then x else fs[x].End() + x % PAGE)
            && (if d.addr <= c.End() then d.End() == c.End() else d.End() == c.End() + ALL + 1))
  {
  }

  // What stays free starts at a compound head exactly when the cut was between pages.
  lemma LeftoverHeadExactly(fs: Frames, c: Chunk, x: nat)
    requires ValidFrames(fs) && Aligned(fs) && Sound(fs, c) && Cuts(fs, c, x)
    requires fs[x].head <= PageBase(x) <= fs[x].End() && Leftover(fs, c, x).Some?
    ensures IsHead(fs, Leftover(fs, c, x).value.addr) <==> x % PAGE == 0
  {
    var y := Leftover(fs, c, x).value.addr;
    var f: Frame := fs[x];
    if x % PAGE == 0 {
      LeftoverIsRest(fs, c, x);
      RestIsHead(fs, c, x);
    } else {
      assert y == x || y == f.End() + x % PAGE;
      assert f.head % PAGE == 0 && f.size % PAGE == 0;
      SameOffset(f.head, f.size, x);
      assert forall p :: p in fs ==> fs[p].head % PAGE == 0;
    }
  }

  lemma SameOffset(h: nat, n: nat, x: nat)
    requires h % PAGE == 0 && n % PAGE == 0
    ensures (h + n + x % PAGE) % PAGE == x % PAGE
  {
    AlignedSum(h, n);
    var k := (h + n) / PAGE;
    assert h + n == k * PAGE;
  }

  // Two single pages cut 100 bytes into the first: what stays free starts at no head.
  function TwoPages(): (fs: Frames) { map b: nat | 0 <= b < 2 * PAGE :: FirstOrSecond(b) }

  function FirstOrSecond(b: nat): (f: Frame) { if b < PAGE then Frame(0, PAGE) else Frame(PAGE, PAGE) }

  lemma TwoPagesValid()
    ensures ValidFrames(TwoPages()) && Aligned(TwoPages())
  {
    hide Whole;
    var fs := TwoPages();
    forall p | p in fs ensures fs[p].head <= p < fs[p].End() && Whole(fs, fs[p]) {
      PageWhole(fs[p]);
    }
  }

  lemma PageWhole(f: Frame)
    requires f == Frame(0, PAGE) || f == Frame(PAGE, PAGE)
    ensures Whole(TwoPages(), f)
  {
  }

  lemma CutInsidePage()
    ensures var fs, c := TwoPages(), Chunk(0, 2 * PAGE, 0);
      && ValidFrames(fs) && Aligned(fs) && Sound(fs, c) && Cuts(fs, c, 100)
      && Leftover(fs, c, 100) == Some(Chunk(100, 2 * PAGE - 100, 0)) && !IsHead(fs, 100)
  {
    hide ValidFrames; hide Aligned; hide Whole;
    TwoPagesValid();
    assert PageBase(100) == 0;
  }

  // ---------- Taking chunks until the request is met ----------

  ghost predicate OnNode(cs: seq<Chunk>, n: int) {
    forall i :: 0 <= i < |cs| ==> cs[i].numa == n
  }

  ghost predicate Distinct(cs: seq<Chunk>) {
    forall i, j :: 0 <= i < j < |cs| ==> cs[i] != cs[j]
  }

  // Whole chunks of the node have moved from the free list to `taken`.
  ghost predicate Moved(free0: seq<Chunk>, free: seq<Chunk>, taken: seq<Chunk>, numa: int) {
    && AsSet(free) + AsSet(taken) == AsSet(free0) && AsSet(free) !! AsSet(taken)
    && OnNode(taken, numa) && Distinct(taken) && |free| + |taken| == |free0|
    && Total(free, numa) + Total(taken, numa) == Total(free0, numa)
  }

  // As before, but one chunk of the node may have been cut in two at x, with its front in `taken`.
  ghost predicate Carved(fs: Frames, free0: seq<Chunk>, free: seq<Chunk>, taken: seq<Chunk>, numa: int) {
    || AsSet(free) + AsSet(taken) == AsSet(free0)
    || (exists c, x: nat :: CarvedAt(fs, free0, free, taken, numa, c, x))
  }

  ghost predicate CarvedAt(fs: Frames, free0: seq<Chunk>, free: seq<Chunk>, taken: seq<Chunk>, numa: int, c: Chunk,
      x: nat) {
    && c in free0 && c.numa == numa && Cuts(fs, c, x) && Front(c, x) in taken
    && AsSet(free) + AsSet(taken) == AsSet(free0) - {c} + Pieces(fs, c, x)
  }

  // Chunks of other nodes are where they were.
  ghost predicate OthersKept(free0: seq<Chunk>, free: seq<Chunk>, numa: int) {
    forall c: Chunk :: c.numa != numa ==> (c in free0 <==> c in free)
  }

  lemma MovedStep(free0: seq<Chunk>, free: seq<Chunk>, taken: seq<Chunk>, numa: int, i: nat)
    requires Moved(free0, free, taken, numa) && Sorted(free) && i < |free| && free[i].numa == numa
    ensures Moved(free0, Without(free, i), taken + [free[i]], numa)
    ensures AsSet(taken + [free[i]]) == AsSet(taken) + {free[i]}
    ensures Total(taken + [free[i]], numa) == Total(taken, numa) + free[i].size
  {
    hide Sorted; hide Without; hide Total;
    WithoutSet(free, i);
    WithoutTotal(free, i);
    TotalSplit(taken, [free[i]], numa);
    TotalOne(free[i], numa);
    AppendSet(taken, free[i]);
    WithoutLength(free, i);
    assert free[i] in AsSet(free) && free[i] !in AsSet(taken);
  }

  lemma WithoutLength(cs: seq<Chunk>, i: nat)
    requires i < |cs|
    ensures |Without(cs, i)| == |cs| - 1
  {
  }

  lemma AppendSet(cs: seq<Chunk>, c: Chunk)
    ensures AsSet(cs + [c]) == AsSet(cs) + {c}
  {
  }

  lemma MovedOthers(free0: seq<Chunk>, free: seq<Chunk>, taken: seq<Chunk>, numa: int)
    requires Moved(free0, free, taken, numa)
    ensures OthersKept(free0, free, numa)
  {
    hide Total;
    forall c: Chunk | c.numa != numa ensures c in free0 <==> c in free {
      assert c in AsSet(free) + AsSet(taken) <==> c in AsSet(free0);
    }
  }

  lemma CutReady(fs: Frames, free: seq<Chunk>, rest: set<Chunk>, i: nat, x: nat)
    requires Held(fs, free, rest) && i < |free| && free[i].addr < x < free[i].End()
    ensures ValidFrames(fs) && Aligned(fs) && Sound(fs, free[i]) && Cuts(fs, free[i], x) && Sorted(free)
      && AsSet(free) !! rest
    ensures x in fs && fs[x].head <= PageBase(x) <= fs[x].End() && free[i].addr % PAGE == 0 && free[i] in AsSet(free)
    ensures Front(free[i], x) !in AsSet(free) + rest
  {
    hide *;
    HeldParts(fs, free, rest);
    InSet(free);
    SoundOf(fs, AsSet(free) + rest);
    CutFrame(fs, free[i], x);
    HeadAligned(fs, free[i]);
    FrontNew(AsSet(free) + rest, free[i], x);
    CutsIntro(fs, free[i], x);
  }

  lemma CutsIntro(fs: Frames, c: Chunk, x: nat)
    requires c.addr < x < c.End() && x in fs
    ensures Cuts(fs, c, x)
  {
  }

  lemma HeadAligned(fs: Frames, c: Chunk)
    requires Sound(fs, c) && Aligned(fs)
    ensures c.addr % PAGE == 0
  {
    assert fs[c.addr].head % PAGE == 0;
  }

  lemma FrontNew(s: set<Chunk>, c: Chunk, x: nat)
    requires PairDisjoint(s) && c in s && c.addr < x < c.End()
    ensures Front(c, x) !in s
  {
    assert Front(c, x) != c && !Disjoint(Front(c, x), c);
  }

  lemma AfterCutIs(fs: Frames, free: seq<Chunk>, i: nat, x: nat)
    requires i < |free| && x in fs && fs[x].head <= PageBase(x) <= fs[x].End() && x <= free[i].End()
    ensures AfterCut(fs, free, i, x) ==
      var r := Leftover(fs, free[i], x); if r.Some? then Insert(Without(free, i), r.value) else Without(free, i)
  {
  }

  // A cut between pages, in terms of the lists: chunk c leaves the free list, its front goes to `taken`.
  lemma CutMoves(fs: Frames, free: seq<Chunk>, rest: set<Chunk>, i: nat, x: nat)
    requires Held(fs, free, rest) && i < |free| && free[i].addr < x < free[i].End() && x % PAGE == 0
    requires x in fs && fs[x].head <= PageBase(x) <= fs[x].End()
    ensures Held(fs, AfterCut(fs, free, i, x), rest + {Front(free[i], x)})
    ensures AsSet(AfterCut(fs, free, i, x)) + {Front(free[i], x)} == AsSet(free) - {free[i]} + Pieces(fs, free[i], x)
  {
    hide *;
    var c, front := free[i], Front(free[i], x);
    CutReady(fs, free, rest, i, x);
    AfterCutIs(fs, free, i, x);
    LeftoverIsRest(fs, c, x);
    TakeHeld(fs, free, rest, i);
    MemHeld.CutHeld(fs, Without(free, i), rest + {c}, c, x);
    PiecesAre(fs, c, x);
    WithoutSet(free, i);
    var y := RestStart(fs, x);
    assert rest + {c} - {c} == rest;
    if y < c.End() {
      PutHeld(fs, Without(free, i), rest + Pieces(fs, c, x), Rest(c, y));
      InsertSet(Without(free, i), Rest(c, y));
      assert rest + Pieces(fs, c, x) - {Rest(c, y)} == rest + {front};
    }
  }

  lemma PiecesAre(fs: Frames, c: Chunk, x: nat)
    requires Cuts(fs, c, x) && x <= RestStart(fs, x)
    ensures Pieces(fs, c, x) == if RestStart(fs, x) < c.End() then {Front(c, x), Rest(c, RestStart(fs, x))}
      else {Front(c, x)}
    ensures RestStart(fs, x) < c.End() ==> Front(c, x) != Rest(c, RestStart(fs, x))
  {
  }

  // The free list after a cut of its i-th chunk at x.
  function AfterCut(fs: Frames, free: seq<Chunk>, i: nat, x: nat): (r: seq<Chunk>)
    requires i < |free| && x in fs && fs[x].head <= PageBase(x) <= fs[x].End() && x <= free[i].End()
  {
    var leftover := Leftover(fs, free[i], x);
    if leftover.Some? then Insert(Without(free, i), leftover.value) else Without(free, i)
  }

  // The last chunk is cut at x = its address + left: its front is taken, what stays goes back.
  method CutLast(fs: Frames, ghost free0: seq<Chunk>, free: seq<Chunk>, taken: seq<Chunk>, numa: int, left: nat,
      i: nat, ghost rest: set<Chunk>)
    returns (free': seq<Chunk>, taken': seq<Chunk>)
    requires Held(fs, free, AsSet(taken) + rest) && AsSet(taken) !! rest && Moved(free0, free, taken, numa)
    requires i < |free| && free[i].numa == numa && 0 < left < free[i].size
    ensures OnNode(taken', numa) && Distinct(taken') && Total(taken', numa) == Total(taken, numa) + left
    ensures left % PAGE == 0 ==> Held(fs, free', AsSet(taken') + rest) && AsSet(taken') !! rest
    ensures left % PAGE == 0 ==> Carved(fs, free0, free', taken', numa)
    ensures OthersKept(free0, free', numa)
    ensures taken' == taken + [Front(free[i], free[i].addr + left)] && CutTo(fs, free, i, free[i].addr + left, free')
  {
    hide *;
    var c := free[i];
    var x: nat := c.addr + left;
    EndIs(c);
    CutReady(fs, free, AsSet(taken) + rest, i, x);
    free' := AfterCut(fs, free, i, x);
    taken' := taken + [Front(c, x)];
    CutOthers(fs, free0, free, taken, numa, i, x);
    CutTaken(free0, free, taken, numa, c, x, left);
    CutMaybeWhole(fs, free0, free, taken, numa, left, i, rest, x, free', taken');
    CutToIntro(fs, free, i, x);
  }

  // The i-th chunk was cut at x, and the list is what that leaves.
  ghost predicate CutTo(fs: Frames, free: seq<Chunk>, i: nat, x: nat, free': seq<Chunk>) {
    && i < |free| && x in fs && fs[x].head <= PageBase(x) <= fs[x].End() && x <= free[i].End()
    && free' == AfterCut(fs, free, i, x)
  }

  lemma CutToIntro(fs: Frames, free: seq<Chunk>, i: nat, x: nat)
    requires i < |free| && x in fs && fs[x].head <= PageBase(x) <= fs[x].End() && x <= free[i].End()
    ensures CutTo(fs, free, i, x, AfterCut(fs, free, i, x))
  {
  }

  lemma CutWhole(fs: Frames, free0: seq<Chunk>, free: seq<Chunk>, taken: seq<Chunk>, numa: int, left: nat, i: nat,
      rest: set<Chunk>, x: nat, free': seq<Chunk>, taken': seq<Chunk>)
    requires i < |free| && free[i].numa == numa && 0 < left < free[i].size && x == free[i].addr + left
      && left % PAGE == 0
    requires x in fs && fs[x].head <= PageBase(x) <= fs[x].End()
    requires free' == AfterCut(fs, free, i, x) && taken' == taken + [Front(free[i], x)]
    requires Held(fs, free, AsSet(taken) + rest) && AsSet(taken) !! rest && Moved(free0, free, taken, numa)
    ensures Held(fs, free', AsSet(taken') + rest) && AsSet(taken') !! rest && Carved(fs, free0, free', taken', numa)
  {
    hide *;
    var c := free[i];
    EndIs(c);
    CutReady(fs, free, AsSet(taken) + rest, i, x);
    MoreAligned(c.addr, left);
    CutMoves(fs, free, AsSet(taken) + rest, i, x);
    AppendSet(taken, Front(c, x));
    assert AsSet(taken) + rest + {Front(c, x)} == AsSet(taken') + rest;
    CutCarves(fs, free0, free, taken, numa, c, x, free', taken');
  }

  lemma CutMaybeWhole(fs: Frames, free0: seq<Chunk>, free: seq<Chunk>, taken: seq<Chunk>, numa: int, left: nat,
      i: nat, rest: set<Chunk>, x: nat, free': seq<Chunk>, taken': seq<Chunk>)
    requires i < |free| && free[i].numa == numa && 0 < left < free[i].size && x == free[i].addr + left
    requires x in fs && fs[x].head <= PageBase(x) <= fs[x].End()
    requires free' == AfterCut(fs, free, i, x) && taken' == taken + [Front(free[i], x)]
    requires Held(fs, free, AsSet(taken) + rest) && AsSet(taken) !! rest && Moved(free0, free, taken, numa)
    ensures left % PAGE == 0 ==>
      Held(fs, free', AsSet(taken') + rest) && AsSet(taken') !! rest && Carved(fs, free0, free', taken', numa)
  {
    hide AfterCut; hide Held; hide Moved; hide Carved; hide Front; hide AsSet; hide PageBase;
    if left % PAGE == 0 {
      CutWhole(fs, free0, free, taken, numa, left, i, rest, x, free', taken');
    }
  }

  lemma EndIs(c: Chunk)
    ensures c.End() == c.addr + c.size
  {
  }

  lemma MoreAligned(a: nat, left: nat)
    requires a % PAGE == 0 && left % PAGE == 0
    ensures (a + left) % PAGE == 0
  {
    AlignedSum(a, left);
  }

  lemma CutOthers(fs: Frames, free0: seq<Chunk>, free: seq<Chunk>, taken: seq<Chunk>, numa: int, i: nat, x: nat)
    requires Moved(free0, free, taken, numa) && Sorted(free) && i < |free| && free[i].numa == numa
    requires x in fs && fs[x].head <= PageBase(x) <= fs[x].End() && x <= free[i].End()
    ensures OthersKept(free0, AfterCut(fs, free, i, x), numa)
  {
    hide Moved; hide Sorted; hide Insert; hide Without; hide InTail; hide PageBase;
    MovedOthers(free0, free, taken, numa);
    WithoutSet(free, i);
    var r := Leftover(fs, free[i], x);
    if r.Some? { InsertSet(Without(free, i), r.value); }
    forall d: Chunk | d.numa != numa ensures d in free0 <==> d in AfterCut(fs, free, i, x) {
      assert d in AsSet(free) <==> d in AsSet(AfterCut(fs, free, i, x));
    }
  }

  lemma CutTaken(free0: seq<Chunk>, free: seq<Chunk>, taken: seq<Chunk>, numa: int, c: Chunk, x: nat, left: nat)
    requires Moved(free0, free, taken, numa) && c.numa == numa && x == c.addr + left && Front(c, x) !in AsSet(taken)
    ensures OnNode(taken + [Front(c, x)], numa) && Distinct(taken + [Front(c, x)])
    ensures Total(taken + [Front(c, x)], numa) == Total(taken, numa) + left
  {
    hide Total;
    TotalSplit(taken, [Front(c, x)], numa);
    TotalOne(Front(c, x), numa);
  }

  lemma CutCarves(fs: Frames, free0: seq<Chunk>, free: seq<Chunk>, taken: seq<Chunk>, numa: int, c: Chunk, x: nat,
      free': seq<Chunk>, taken': seq<Chunk>)
    requires Moved(free0, free, taken, numa) && c in free && c.numa == numa && Cuts(fs, c, x)
    requires taken' == taken + [Front(c, x)]
    requires AsSet(free') + {Front(c, x)} == AsSet(free) - {c} + Pieces(fs, c, x)
    ensures Carved(fs, free0, free', taken', numa)
  {
    hide Total; hide Pieces; hide Distinct; hide OnNode;
    AppendSet(taken, Front(c, x));
    assert c in AsSet(free) && c !in AsSet(taken);
    assert AsSet(free0) - {c} == AsSet(free) - {c} + AsSet(taken);
    assert AsSet(free') + AsSet(taken') == AsSet(free') + {Front(c, x)} + AsSet(taken);
    assert AsSet(free') + AsSet(taken') == AsSet(free0) - {c} + Pieces(fs, c, x);
    assert Front(c, x) in taken';
    assert CarvedAt(fs, free0, free', taken', numa, c, x);
  }

  // Before any cut: whole chunks have moved, and the invariant holds with them counted in.
  ghost predicate Moving(fs: Frames, free0: seq<Chunk>, free: seq<Chunk>, taken: seq<Chunk>, numa: int,
      rest: set<Chunk>) {
    Held(fs, free, AsSet(taken) + rest) && AsSet(taken) !! rest && Moved(free0, free, taken, numa)
  }

  lemma MovingStart(fs: Frames, free0: seq<Chunk>, numa: int, rest: set<Chunk>)
    requires Held(fs, free0, rest)
    ensures Moving(fs, free0, free0, [], numa, rest) && Total(free0, numa) < ALL && Total([], numa) == 0
  {
    hide Inv; hide Aligned;
    assert AsSet([]) == {};
    assert AsSet([]) + rest == rest;
    HeldBound(fs, free0, rest, numa);
  }

  lemma MovingStep(fs: Frames, free0: seq<Chunk>, free: seq<Chunk>, taken: seq<Chunk>, numa: int, rest: set<Chunk>,
      i: nat)
    requires Moving(fs, free0, free, taken, numa, rest) && i < |free| && free[i].numa == numa
    ensures Moving(fs, free0, Without(free, i), taken + [free[i]], numa, rest)
    ensures Total(taken + [free[i]], numa) == Total(taken, numa) + free[i].size
    ensures |Without(free, i)| == |free| - 1 && free[i].size > 0 && free[i].size % PAGE == 0
    ensures Total(taken, numa) + free[i].size <= Total(free0, numa)
  {
    hide *;
    MovingParts(fs, free0, free, taken, numa, rest);
    var c := free[i];
    TakeHeld(fs, free, AsSet(taken) + rest, i);
    HeldParts(fs, free, AsSet(taken) + rest);
    InSet(free);
    SoundOf(fs, AsSet(free) + (AsSet(taken) + rest));
    PlacedOf(AsSet(free) + (AsSet(taken) + rest), c);
    MovedStep(free0, free, taken, numa, i);
    WithoutLength(free, i);
    TotalAtLeast(free, numa, i);
    assert AsSet(taken) + rest + {c} == AsSet(taken + [c]) + rest;
    MovingIntro(fs, free0, Without(free, i), taken + [c], numa, rest);
  }

  lemma MovingParts(fs: Frames, free0: seq<Chunk>, free: seq<Chunk>, taken: seq<Chunk>, numa: int, rest: set<Chunk>)
    requires Moving(fs, free0, free, taken, numa, rest)
    ensures Held(fs, free, AsSet(taken) + rest) && AsSet(taken) !! rest && Moved(free0, free, taken, numa)
      && Sorted(free)
    ensures Total(free, numa) + Total(taken, numa) == Total(free0, numa) && |free| + |taken| == |free0|
    ensures OnNode(taken, numa) && Distinct(taken) && AsSet(free) + AsSet(taken) == AsSet(free0)
  {
  }

  lemma MovingIntro(fs: Frames, free0: seq<Chunk>, free: seq<Chunk>, taken: seq<Chunk>, numa: int, rest: set<Chunk>)
    requires Held(fs, free, AsSet(taken) + rest) && AsSet(taken) !! rest && Moved(free0, free, taken, numa)
    ensures Moving(fs, free0, free, taken, numa, rest)
  {
  }

  lemma NoneLeft(fs: Frames, free0: seq<Chunk>, free: seq<Chunk>, taken: seq<Chunk>, numa: int, rest: set<Chunk>)
    requires Moving(fs, free0, free, taken, numa, rest) && forall j :: 0 <= j < |free| ==> free[j].numa != numa
    ensures Total(taken, numa) == Total(free0, numa)
  {
    hide Inv; hide Moved;
    MovingParts(fs, free0, free, taken, numa, rest);
    TotalZero(free, numa);
  }

  // What a finished collection is: the request exactly, or everything on the node for ALL.
  ghost predicate Collected(free0: seq<Chunk>, free: seq<Chunk>, taken: seq<Chunk>, want: nat, numa: int) {
    && OnNode(taken, numa) && Distinct(taken) && OthersKept(free0, free, numa)
    && (want != ALL ==> Total(taken, numa) == want)
    && (want == ALL ==>
      Total(taken, numa) == Total(free0, numa) && forall j :: 0 <= j < |free| ==> free[j].numa != numa)
  }

  ghost predicate Kept(fs: Frames, free0: seq<Chunk>, free: seq<Chunk>, taken: seq<Chunk>, numa: int,
      rest: set<Chunk>) {
    Held(fs, free, AsSet(taken) + rest) && AsSet(taken) !! rest && Carved(fs, free0, free, taken, numa)
  }

  lemma FinishWhole(fs: Frames, free0: seq<Chunk>, free: seq<Chunk>, taken: seq<Chunk>, want: nat, numa: int,
      rest: set<Chunk>)
    requires Moving(fs, free0, free, taken, numa, rest) && (want != ALL ==> Total(taken, numa) == want)
    requires want == ALL ==>
      Total(taken, numa) == Total(free0, numa) && forall j :: 0 <= j < |free| ==> free[j].numa != numa
    ensures Collected(free0, free, taken, want, numa) && Kept(fs, free0, free, taken, numa, rest)
  {
    hide Held; hide Moving; hide Total; hide AsSet; hide Moved; hide OthersKept;
    MovingParts(fs, free0, free, taken, numa, rest);
    MovedOthers(free0, free, taken, numa);
  }

  lemma FinishCut(fs: Frames, free0: seq<Chunk>, free: seq<Chunk>, taken: seq<Chunk>, want: nat, numa: int,
      rest: set<Chunk>)
    requires OnNode(taken, numa) && Distinct(taken) && OthersKept(free0, free, numa) && Total(taken, numa) == want
      && want != ALL
    requires want % PAGE == 0 ==>
      Held(fs, free, AsSet(taken) + rest) && AsSet(taken) !! rest && Carved(fs, free0, free, taken, numa)
    ensures Collected(free0, free, taken, want, numa) && (Neat(want) ==> Kept(fs, free0, free, taken, numa, rest))
  {
    hide Held; hide Total; hide AsSet; hide OthersKept; hide OnNode; hide Distinct; hide Carved;
  }

  lemma BestIs(cs: seq<Chunk>, size: nat, numa: int, i: nat)
    requires Best(cs, size, numa, i)
    ensures i < |cs| && cs[i].numa == numa
  {
  }

  // ---------- Which chunks are taken ----------

  // With `left` bytes to go the best chunk of the list was chosen, and taken whole or as far as needed.
  ghost predicate ChosenAt(l: seq<Chunk>, i: nat, d: Chunk, left: int, numa: int) {
    && left > 0 && Best(l, left, numa, i)
    && d == if l[i].size <= left then l[i] else Front(l[i], l[i].addr + left)
  }

  ghost predicate Chosen(free0: seq<Chunk>, picks: seq<nat>, taken: seq<Chunk>, want: nat, numa: int) {
    && |picks| == |taken|
    && forall k :: 0 <= k < |picks| ==>
         ChosenAt(ListAfter(free0, picks[..k]), picks[k], taken[k], want - Total(taken[..k], numa), numa)
  }

  lemma ChosenNext(free0: seq<Chunk>, picks: seq<nat>, taken: seq<Chunk>, want: nat, numa: int, i: nat, d: Chunk)
    requires Chosen(free0, picks, taken, want, numa)
    requires ChosenAt(ListAfter(free0, picks), i, d, want - Total(taken, numa), numa)
    ensures Chosen(free0, picks + [i], taken + [d], want, numa)
    ensures ListAfter(free0, picks + [i]) == Without(ListAfter(free0, picks), i)
  {
    hide ChosenAt; hide Total; hide Without; hide Best; hide ListAfter;
    ChosenIndex(ListAfter(free0, picks), i, d, want - Total(taken, numa), numa);
    ListNext(free0, picks, i);
    var ps, ds := picks + [i], taken + [d];
    forall k | 0 <= k < |ps|
      ensures ChosenAt(ListAfter(free0, ps[..k]), ps[k], ds[k], want - Total(ds[..k], numa), numa) {
      FrontKept(picks, i, k);
      FrontKept(taken, d, k);
      if k == |picks| { assert picks[..k] == picks && taken[..k] == taken; }
    }
  }

  lemma FrontKept<T>(s: seq<T>, x: T, k: nat)
    requires k <= |s|
    ensures (s + [x])[..k] == s[..k]
  {
  }

  lemma ListNext(free0: seq<Chunk>, picks: seq<nat>, i: nat)
    requires i < |ListAfter(free0, picks)|
    ensures ListAfter(free0, picks + [i]) == Without(ListAfter(free0, picks), i)
  {
    hide Without;
    assert (picks + [i])[..|picks|] == picks;
  }

  lemma ChosenIndex(l: seq<Chunk>, i: nat, d: Chunk, left: int, numa: int)
    requires ChosenAt(l, i, d, left, numa)
    ensures i < |l|
  {
  }

  lemma ChosenIntro(l: seq<Chunk>, i: nat, d: Chunk, left: nat, numa: int)
    requires left > 0 && Best(l, left, numa, i) && i < |l|
    requires d == if l[i].size <= left then l[i] else Front(l[i], l[i].addr + left)
    ensures ChosenAt(l, i, d, left, numa)
  {
    hide Best;
  }

  lemma NoneChosen(free0: seq<Chunk>, want: nat, numa: int)
    ensures Chosen(free0, [], [], want, numa) && ListAfter(free0, []) == free0
  {
  }

  // What is left of the list: all chunks chosen are off it, and the last is cut if it was too big.
  ghost predicate Leaves(fs: Frames, free0: seq<Chunk>, picks: seq<nat>, taken: seq<Chunk>, free: seq<Chunk>) {
    || free == ListAfter(free0, picks)
    || (0 < |picks| == |taken| &&
        var n := |picks| - 1;
        CutTo(fs, ListAfter(free0, picks[..n]), picks[n], taken[n].End(), free))
  }

  lemma CutLeaves(fs: Frames, free0: seq<Chunk>, picks: seq<nat>, taken: seq<Chunk>, i: nat, d: Chunk, free: seq<Chunk>)
    requires |picks| == |taken| && CutTo(fs, ListAfter(free0, picks), i, d.End(), free)
    ensures Leaves(fs, free0, picks + [i], taken + [d], free)
  {
    hide CutTo;
    assert (picks + [i])[..|picks|] == picks;
  }

  // The collecting loop of __smp_ihk_os_assign_mem. `budget` is the number of descriptors that kmalloc
  // still gives out.
  method Take(fs: Frames, free0: seq<Chunk>, want: nat, numa: int, budget: nat, ghost rest: set<Chunk>)
    returns (ok: bool, free: seq<Chunk>, taken: seq<Chunk>, ghost picks: seq<nat>)
    requires want <= ALL
    requires Held(fs, free0, rest)
    ensures Chosen(free0, picks, taken, want, numa) && Leaves(fs, free0, picks, taken, free)
    ensures |taken| <= budget && (!ok ==> |taken| == budget || Total(free0, numa) < want)
    ensures ok ==> Collected(free0, free, taken, want, numa)
    ensures ok && Neat(want) ==> Kept(fs, free0, free, taken, numa, rest)
    ensures !ok ==> Moving(fs, free0, free, taken, numa, rest)
    ensures budget > |free0| ==> (ok <==> want == ALL || want <= Total(free0, numa))
    ensures (taken == [] ==> free == free0) && (taken == [] <==> Total(taken, numa) == 0)
  {
    hide Held; hide Moving; hide Kept; hide Collected; hide Total; hide AsSet; hide Best; hide Moved; hide Carved;
    hide OthersKept; hide OnNode; hide Distinct; hide Without; hide Chosen; hide ChosenAt; hide CutTo; hide ListAfter;
    MovingStart(fs, free0, numa, rest);
    free, taken, picks := free0, [], [];
    NoneChosen(free0, want, numa);
    var left: nat := want;
    while left > 0
      invariant Moving(fs, free0, free, taken, numa, rest) && left + Total(taken, numa) == want
        && |free| + |taken| == |free0|
      invariant want % PAGE == 0 ==> left % PAGE == 0
      invariant Chosen(free0, picks, taken, want, numa) && free == ListAfter(free0, picks) && |taken| <= budget
        && |picks| == |taken|
      invariant (taken == [] ==> free == free0) && (taken == [] <==> Total(taken, numa) == 0)
      decreases |free|
    {
      if |taken| == budget { return false, free, taken, picks; }
      var pick := Pick(free, left, numa);
      if pick.None? {
        NoneLeft(fs, free0, free, taken, numa, rest);
        if want == ALL {
          FinishWhole(fs, free0, free, taken, want, numa, rest);
          return true, free, taken, picks;
        }
        return false, free, taken, picks;
      }
      var i := pick.value;
      BestIs(free, left, numa, i);
      MovingStep(fs, free0, free, taken, numa, rest, i);
      ghost var d := if free[i].size <= left then free[i] else Front(free[i], free[i].addr + left);
      ChosenIntro(free, i, d, left, numa);
      ChosenNext(free0, picks, taken, want, numa, i, d);
      if left < free[i].size {
        MovingParts(fs, free0, free, taken, numa, rest);
        var free', taken' := CutLast(fs, free0, free, taken, numa, left, i, rest);
        FinishCut(fs, free0, free', taken', want, numa, rest);
        CutLeaves(fs, free0, picks, taken, i, d, free');
        return true, free', taken', picks + [i];
      }
      free, taken, left, picks := Without(free, i), taken + [free[i]], left - free[i].size, picks + [i];
    }
    MovingParts(fs, free0, free, taken, numa, rest);
    FinishWhole(fs, free0, free, taken, want, numa, rest);
    ok := true;
  }

  // ---------- Giving everything back ----------

  lemma InsertCovers(cs: seq<Chunk>, c: Chunk, n: int, b: nat)
    ensures CoveredOn(Insert(cs, c), n, b) <==> CoveredOn(cs, n, b) || (c.Holds(b) && c.numa == n)
  {
    hide Insert;
    InsertSet(cs, c);
    assert forall d :: d in Insert(cs, c) <==> d in AsSet(Insert(cs, c));
  }

  lemma AppendCovers(cs: seq<Chunk>, c: Chunk, n: int, b: nat)
    ensures CoveredOn(cs + [c], n, b) <==> CoveredOn(cs, n, b) || (c.Holds(b) && c.numa == n)
  {
    assert c in cs + [c];
  }

  // The error path: each chunk returns to the free list, which is then merged.
  method PutBack(fs: Frames, free0: seq<Chunk>, taken: seq<Chunk>, ghost rest: set<Chunk>) returns (free: seq<Chunk>)
    requires Distinct(taken) && AsSet(taken) !! rest
    requires Held(fs, free0, AsSet(taken) + rest)
    ensures Held(fs, free, rest)
    ensures forall n, b: nat :: CoveredOn(free, n, b) <==> CoveredOn(free0, n, b) || CoveredOn(taken, n, b)
    ensures if taken == [] then free == free0 else FullyMerged(free)
  {
    hide Held; hide AsSet; hide CoveredOn; hide Merged; hide Insert; hide FullyMerged;
    free := free0;
    assert taken[0..] == taken;
    NothingCovered();
    var k := 0;
    while k < |taken|
      invariant 0 <= k <= |taken| && Held(fs, free, AsSet(taken[k..]) + rest)
      invariant forall n, b: nat :: CoveredOn(free, n, b) <==> CoveredOn(free0, n, b) || CoveredOn(taken[..k], n, b)
      invariant if k == 0 then free == free0 else FullyMerged(free)
    {
      var c := taken[k];
      PutBackStep(fs, free, taken, rest, k);
      assert taken[..k + 1] == taken[..k] + [c];
      forall n, b: nat
        ensures CoveredOn(Merged(Insert(free, c)), n, b) <==>
          CoveredOn(free0, n, b) || CoveredOn(taken[..k + 1], n, b) {
        InsertCovers(free, c, n, b);
        MergedCovers(Insert(free, c), n, b);
        AppendCovers(taken[..k], c, n, b);
      }
      MergedIsFull(Insert(free, c));
      free := Merge(Insert(free, c));
      k := k + 1;
    }
    assert taken[..|taken|] == taken && taken[|taken|..] == [];
    assert AsSet([]) + rest == rest by { EmptySet(); }
  }

  lemma EmptySet()
    ensures AsSet([]) == {}
  {
  }

  lemma NothingCovered()
    ensures forall n, b: nat :: !CoveredOn([], n, b)
  {
  }

  lemma PutBackStep(fs: Frames, free: seq<Chunk>, taken: seq<Chunk>, rest: set<Chunk>, k: nat)
    requires Distinct(taken) && AsSet(taken) !! rest && k < |taken|
    requires Held(fs, free, AsSet(taken[k..]) + rest)
    ensures Held(fs, Merged(Insert(free, taken[k])), AsSet(taken[k + 1..]) + rest)
  {
    var c := taken[k];
    RestOfTaken(taken, rest, k);
    hide *;
    PutHeld(fs, free, AsSet(taken[k..]) + rest, c);
    MergedHeld(fs, Insert(free, c), AsSet(taken[k + 1..]) + rest);
  }

  lemma RestOfTaken(taken: seq<Chunk>, rest: set<Chunk>, k: nat)
    requires Distinct(taken) && AsSet(taken) !! rest && k < |taken|
    ensures taken[k] in AsSet(taken[k..]) && AsSet(taken[k..]) + rest - {taken[k]} == AsSet(taken[k + 1..]) + rest
  {
    var c := taken[k];
    assert taken[k..] == [c] + taken[k + 1..];
    assert c in AsSet(taken);
    assert AsSet(taken[k..]) == {c} + AsSet(taken[k + 1..]);
    assert c !in taken[k + 1..];
  }

  // ---------- What a cut costs ----------

  // Bytes that a cut leaves on neither list: the tail of the compound page that the cut at x goes through.
  ghost predicate Stranded(fs: Frames, taken: seq<Chunk>, b: nat) {
    exists t :: t in taken && t.End() in fs && fs[t.End()].head < t.End() <= b < fs[t.End()].End()
  }

  lemma CarvedBytes(fs: Frames, free0: seq<Chunk>, free: seq<Chunk>, taken: seq<Chunk>, numa: int, n: int, b: nat)
    requires ValidFrames(fs) && Carved(fs, free0, free, taken, numa)
    ensures CoveredOn(free, n, b) || CoveredOn(taken, n, b) ==> CoveredOn(free0, n, b)
    ensures CoveredOn(free0, n, b) ==>
      CoveredOn(free, n, b) || CoveredOn(taken, n, b) || (n == numa && Stranded(fs, taken, b))
  {
    InSet(free); InSet(taken); InSet(free0);
    if AsSet(free) + AsSet(taken) != AsSet(free0) {
      var c, x: nat :| CarvedAt(fs, free0, free, taken, numa, c, x);
      hide Carved; hide Whole;
      CarvedAtBytes(fs, free0, free, taken, numa, n, b, c, x);
    } else {
      hide ValidFrames;
      assert forall c :: c in free || c in taken <==> c in free0;
    }
  }

  lemma PieceInside(fs: Frames, c: Chunk, x: nat, d: Chunk, b: nat)
    requires Cuts(fs, c, x) && x <= RestStart(fs, x) && d in Pieces(fs, c, x) && d.Holds(b)
    ensures c.Holds(b) && d.numa == c.numa
  {
  }

  lemma CarvedAtBytes(fs: Frames, free0: seq<Chunk>, free: seq<Chunk>, taken: seq<Chunk>, numa: int, n: int, b: nat,
      c: Chunk, x: nat)
    requires CarvedAt(fs, free0, free, taken, numa, c, x) && fs[x].head <= x < fs[x].End()
    ensures CoveredOn(free, n, b) || CoveredOn(taken, n, b) ==> CoveredOn(free0, n, b)
    ensures CoveredOn(free0, n, b) ==>
      CoveredOn(free, n, b) || CoveredOn(taken, n, b) || (n == numa && Stranded(fs, taken, b))
  {
    var ps, y := Pieces(fs, c, x), RestStart(fs, x);
    PiecesAre(fs, c, x);
    assert forall d :: d in free || d in taken <==> d in AsSet(free) + AsSet(taken);
    if CoveredOn(free, n, b) || CoveredOn(taken, n, b) {
      var d :| (d in free || d in taken) && d.Holds(b) && d.numa == n;
      if d in ps {
        PieceInside(fs, c, x, d, b);
        assert c in free0 && c.Holds(b) && c.numa == n;
      } else {
        assert d in free0;
      }
    }
    if CoveredOn(free0, n, b) {
      var d :| d in free0 && d.Holds(b) && d.numa == n;
      if d != c {
        assert d in AsSet(free) + AsSet(taken);
      } else if b < x {
        assert Front(c, x) in taken && Front(c, x).Holds(b);
      } else if y <= b {
        assert Rest(c, y) in AsSet(free) + AsSet(taken) && Rest(c, y).Holds(b);
      } else {
        assert Front(c, x).End() == x;
      }
    }
  }
}
