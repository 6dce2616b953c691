// Trimming the free memory of a node: __ihk_smp_release_mem_partially.
module MemPartial {
  import opened Options
  import opened MemChunks
  import opened MemLayout
  import opened MemHeld
  import opened MemRelease
  import opened MemTree
  import MemReserve

  const GRANULE := 0x40_0000

  // ---------- Putting the free list in a tree ----------

  // Tree nodes are part of the list's own chunks, so a chunk that grows in the tree grows in the list.
  function Synced(cs: seq<Chunk>, runs: seq<Chunk>): (r: seq<Chunk>)
    ensures |r| == |cs|
  {
    seq(|cs|, i requires 0 <= i < |cs| => cs[i].(size := SizeIn(runs, cs[i])))
  }

  // The size that the tree gives to the chunk at this address, if it is a node there.
  function SizeIn(runs: seq<Chunk>, c: Chunk): (n: nat) {
    if runs == [] then c.size
    else if runs[|runs| - 1].addr == c.addr then runs[|runs| - 1].size
    else SizeIn(runs[..|runs| - 1], c)
  }

  lemma {:induction false} SizeInIs(runs: seq<Chunk>, c: Chunk, i: nat)
    requires Gapped(runs) && i < |runs| && runs[i].addr == c.addr
    ensures SizeIn(runs, c) == runs[i].size
  {
    var last := |runs| - 1;
    if i < last {
      assert runs[i].End() < runs[last].addr;
      SizeInIs(runs[..last], c, i);
    }
  }

  method BuildTree(cs: seq<Chunk>) returns (t: Tree, cs': seq<Chunk>)
    requires Sorted(cs)
    ensures Gapped(InOrder(t)) && (forall b: nat :: Covered(InOrder(t), b) <==> Covered(cs, b))
    ensures cs' == Synced(cs, InOrder(t))
    ensures Gapped(cs) ==> InOrder(t) == cs == cs'
  {
    hide Gapped; hide Covered; hide InOrder; hide Joined; hide DisjointFrom; hide TouchesLeft; hide TouchesRight;
    hide Synced;
    t := Empty;
    BuildStart(cs);
    for k := 0 to |cs|
      invariant Gapped(InOrder(t)) && (forall b: nat :: Covered(InOrder(t), b) <==> Covered(cs[..k], b))
      invariant Gapped(cs) ==> InOrder(t) == cs[..k]
    {
      NextApart(cs, k, InOrder(t));
      forall b: nat ensures Covered(cs[..k + 1], b) <==> Covered(cs[..k], b) || cs[k].Holds(b) {
        MemReserve.OneMore(cs, k, b);
      }
      NextPlain(cs, k);
      t := MemTree.Insert(t, cs[k]);
    }
    assert cs[..|cs|] == cs;
    cs' := Synced(cs, InOrder(t));
    SyncedSame(cs);
  }

  lemma BuildStart(cs: seq<Chunk>)
    ensures Gapped(InOrder(Empty)) && InOrder(Empty) == cs[..0]
      && forall b: nat :: Covered(InOrder(Empty), b) <==> Covered(cs[..0], b)
  {
  }

  lemma NextApart(cs: seq<Chunk>, k: nat, runs: seq<Chunk>)
    requires Sorted(cs) && k < |cs| && Gapped(runs) && forall b: nat :: Covered(runs, b) <==> Covered(cs[..k], b)
    ensures DisjointFrom(runs, cs[k]) && cs[k].size > 0
  {
    forall i | 0 <= i < |runs| ensures Disjoint(runs[i], cs[k]) {
      var last: nat := runs[i].End() - 1;
      assert runs[i].Holds(last);
      assert Covered(runs, last);
      MemReserve.BelowRun(cs, k);
    }
  }

  lemma NextPlain(cs: seq<Chunk>, k: nat)
    requires k < |cs|
    ensures Gapped(cs) ==>
      !TouchesLeft(cs[..k], cs[k]) && !TouchesRight(cs[..k], cs[k]) && Joined(cs[..k], cs[k]) == cs[..k + 1]
  {
    if Gapped(cs) {
      var front := cs[..k];
      assert forall i :: 0 <= i < k ==> front[i].End() < cs[k].addr;
      MemReserve.PlaceIs(front, cs[k].addr, k);
      MemReserve.JoinedPlain(front, cs[k], k);
      assert front[..k] + [cs[k]] + front[k..] == cs[..k + 1];
    }
  }

  lemma SyncedSame(cs: seq<Chunk>)
    ensures Gapped(cs) ==> Synced(cs, cs) == cs
  {
    if Gapped(cs) {
      forall i | 0 <= i < |cs| ensures Synced(cs, cs)[i] == cs[i] {
        SizeInIs(cs, cs[i], i);
      }
    }
  }

  // Building the tree leaves the list sorted exactly when no two of its chunks touch: otherwise the first
  // of them grows over the second.
  lemma ListSurvivesExactly(cs: seq<Chunk>, runs: seq<Chunk>)
    requires Sorted(cs) && Gapped(runs) && (forall b: nat :: Covered(runs, b) <==> Covered(cs, b))
      && (Gapped(cs) ==> runs == cs)
    ensures Sorted(Synced(cs, runs)) <==> Gapped(cs)
  {
    if Gapped(cs) {
      SyncedSame(cs);
    } else {
      var i, j :| 0 <= i < j < |cs| && cs[i].End() >= cs[j].addr;
      Overrun(cs, runs, i, j);
    }
  }

  lemma Overrun(cs: seq<Chunk>, runs: seq<Chunk>, i: nat, j: nat)
    requires Sorted(cs) && Gapped(runs) && (forall b: nat :: Covered(runs, b) <==> Covered(cs, b))
    requires i < j < |cs| && cs[i].End() == cs[j].addr
    ensures !Sorted(Synced(cs, runs))
  {
    var a: nat := cs[j].addr;
    assert cs[j].Holds(a) && cs[i].Holds(a - 1);
    assert Covered(cs, a) && Covered(cs, a - 1);
    var r: nat :| r < |runs| && runs[r].Holds(a);
    MemReserve.GapAt(runs, r);
    assert runs[r].addr < a;
    var h := StartsAt(cs, runs, r);
    SizeInIs(runs, cs[h], r);
    assert cs[h].addr < a && h < j;
    assert Synced(cs, runs)[h].End() == runs[r].End() > a == Synced(cs, runs)[j].addr;
  }

  lemma StartsAt(cs: seq<Chunk>, runs: seq<Chunk>, r: nat) returns (h: nat)
    requires Gapped(runs) && (forall b: nat :: Covered(runs, b) <==> Covered(cs, b)) && r < |runs|
    ensures h < |cs| && cs[h].addr == runs[r].addr
  {
    var a: nat := runs[r].addr;
    assert runs[r].Holds(a);
    assert Covered(runs, a);
    var k: nat :| k < |cs| && cs[k].Holds(a);
    h := k;
    MemReserve.GapAt(runs, r);
    assert a > 0 ==> !Covered(cs, a - 1);
    assert cs[k].addr == a;
  }

  // Two pages next to each other: the tree joins them, and the first then claims the second as well.
  lemma TouchingPagesOverrun()
    ensures var first, second, both := Chunk(0, PAGE, 0), Chunk(PAGE, PAGE, 0), Chunk(0, 2 * PAGE, 0);
      Sorted([first, second]) && Joined([first], second) == [both] && !Sorted(Synced([first, second], [both]))
  {
    var first, second, both := Chunk(0, PAGE, 0), Chunk(PAGE, PAGE, 0), Chunk(0, 2 * PAGE, 0);
    SizeInIs([both], first, 0);
    assert Synced([first, second], [both])[0].End() > Synced([first, second], [both])[1].addr;
    TouchingJoined(first, second);
  }

  lemma TouchingJoined(first: Chunk, second: Chunk)
    requires first.End() == second.addr && first.numa == second.numa && first.size > 0
    ensures Joined([first], second) == [first.(size := first.size + second.size)]
  {
    MemReserve.PlaceIs([first], second.addr, 1);
    hide Place;
    assert Union([first], second) == first.(size := first.size + second.size);
    assert Lo([first], second) == 0 && Hi([first], second) == 1;
  }

  // ---------- Shrinking one chunk from its start ----------

  // Why a shrink stops short: the next compound page is bigger than what is left to free, or stopping here
  // leaves the chunk better aligned.
  ghost predicate StopsShort(fs: Frames, va: nat, left: nat)
    requires va in fs
  {
    left < fs[va].size || (left < 0x40_0000 && va % 0x40_0000 == 0)
  }

  // Whether the shrinking stops at a head with so much to go. It never does at a single page.
  ghost predicate Stops(fs: Frames, va: nat, left: int) {
    left <= 0 || (va in fs && fs[va].size != PAGE && StopsShort(fs, va, left))
  }

  // The first head of the chunk at which it stops.
  ghost predicate FirstStop(fs: Frames, c: Chunk, left: nat, cut: nat) {
    && c.addr <= cut <= c.addr + left && Stops(fs, cut, c.addr + left - cut)
    && forall h: nat :: c.addr <= h < cut && IsHead(fs, h) ==> !Stops(fs, h, c.addr + left - h)
  }

  ghost predicate NoStopBefore(fs: Frames, c: Chunk, left: nat, cut: nat) {
    forall h: nat :: c.addr <= h < cut && IsHead(fs, h) ==> !Stops(fs, h, c.addr + left - h)
  }

  lemma NoStopNext(fs: Frames, c: Chunk, left: nat, cut: nat)
    requires NoStopBefore(fs, c, left, cut) && ValidFrames(fs) && IsHead(fs, cut)
      && !Stops(fs, cut, c.addr + left - cut)
    ensures NoStopBefore(fs, c, left, cut + fs[cut].size)
  {
    hide Stops;
    assert Whole(fs, fs[cut]);
  }

  method Shrink(fs: Frames, c: Chunk, left: nat) returns (cut: nat, freed: seq<nat>)
    requires ValidFrames(fs) && Aligned(fs) && Sound(fs, c) && 0 < left < c.size && left % PAGE == 0
    ensures c.addr <= cut <= c.addr + left && IsHead(fs, cut) && cut % PAGE == 0
    ensures FreedTo(fs, c, cut, freed)
    ensures cut < c.addr + left ==> StopsShort(fs, cut, c.addr + left - cut)
    ensures FirstStop(fs, c, left, cut)
  {
    hide ValidFrames; hide Aligned; hide Sound; hide FreedTo; hide IsHead; hide NoStopBefore;
    NoStopStart(fs, c, left);
    freed, cut := [], c.addr;
    Start(fs, c);
    ShrinkNext(fs, c, cut);
    var remaining: nat := left;
    while remaining > 0
      invariant c.addr <= cut && cut + remaining == c.addr + left && IsHead(fs, cut) && cut in fs && cut % PAGE == 0
        && remaining % PAGE == 0
      invariant FreedTo(fs, c, cut, freed) && NoStopBefore(fs, c, left, cut)
      decreases remaining
    {
      FirstStopIntro(fs, c, left, cut);
      ShrinkNext(fs, c, cut);
      var f := fs[cut];
      if f.size != PAGE {
        if remaining < f.size { return; }
        if remaining < GRANULE && cut % GRANULE == 0 { return; }
      }
      AlignedDifference(remaining, f.size);
      AlignedSum(cut, f.size);
      FreedStep(fs, c, cut, freed);
      NoStopNext(fs, c, left, cut);
      freed := freed + [cut];
      remaining, cut := remaining - f.size, cut + f.size;
    }
    FirstStopIntro(fs, c, left, cut);
  }

  lemma NoStopStart(fs: Frames, c: Chunk, left: nat)
    ensures NoStopBefore(fs, c, left, c.addr)
  {
  }

  lemma FirstStopIntro(fs: Frames, c: Chunk, left: nat, cut: nat)
    requires NoStopBefore(fs, c, left, cut) && c.addr <= cut <= c.addr + left
    ensures Stops(fs, cut, c.addr + left - cut) ==> FirstStop(fs, c, left, cut)
  {
  }

  // Where it stops does not depend on what has been given back elsewhere.
  lemma FirstStopBefore(fs0: Frames, fs: Frames, freed: seq<nat>, c: Chunk, left: nat, cut: nat)
    requires fs == Less(fs0, freed) && Sound(fs, c) && left < c.size && FirstStop(fs, c, left, cut)
    ensures FirstStop(fs0, c, left, cut)
  {
    assert c.Holds(cut);
    forall h: nat | c.addr <= h < cut && IsHead(fs0, h) ensures !Stops(fs0, h, c.addr + left - h) {
      assert c.Holds(h);
      assert fs[h] == fs0[h] && IsHead(fs, h);
    }
  }

  lemma ShrinkNext(fs: Frames, c: Chunk, va: nat)
    requires ValidFrames(fs) && Aligned(fs) && Sound(fs, c) && c.Holds(va) && IsHead(fs, va)
    ensures va in fs && fs[va].End() == va + fs[va].size && PAGE <= fs[va].size && fs[va].size % PAGE == 0
      && va % PAGE == 0
    ensures va + fs[va].size < c.End() ==> IsHead(fs, va + fs[va].size) && va + fs[va].size in fs
  {
    NextHead(fs, c, va);
    assert fs[va].head % PAGE == 0;
  }

  // ---------- Picking the smallest ----------

  // The first among the smallest on the node.
  ghost predicate Smallest(cs: seq<Chunk>, numa: int, i: nat) {
    && i < |cs| && cs[i].numa == numa
    && forall j :: 0 <= j < |cs| && cs[j].numa == numa ==>
      if j < i then cs[i].size < cs[j].size else cs[i].size <= cs[j].size
  }

  method PickSmallest(cs: seq<Chunk>, numa: int) returns (r: Option<nat>)
    requires forall i :: 0 <= i < |cs| ==> cs[i].size < ALL
    ensures r.None? ==> forall j :: 0 <= j < |cs| ==> cs[j].numa != numa
    ensures r.Some? ==> Smallest(cs, numa, r.value)
  {
    r := None;
    var min := ALL;
    for k := 0 to |cs|
      invariant r.None? ==> min == ALL && forall j :: 0 <= j < k ==> cs[j].numa != numa
      invariant r.Some? ==> r.value < k && cs[r.value].numa == numa && cs[r.value].size == min
      invariant r.Some? ==>
        forall j :: 0 <= j < k && cs[j].numa == numa ==> if j < r.value then min < cs[j].size else min <= cs[j].size
    {
      if cs[k].numa == numa && cs[k].size < min { r, min := Some(k), cs[k].size; }
    }
  }

  // ---------- The whole trim ----------

  // Compound pages that were freed, each once; the other frames are as before.
  ghost predicate FreedOnce(fs0: Frames, fs: Frames, freed: seq<nat>) {
    && (forall i, j :: 0 <= i < j < |freed| ==> freed[i] != freed[j])
    && (forall h: nat :: h in freed ==> IsHead(fs0, h)) && fs == Less(fs0, freed)
  }

  lemma FreedOnceStep(fs0: Frames, fs: Frames, c: Chunk, freed: seq<nat>, more: seq<nat>)
    requires FreedOnce(fs0, fs, freed) && ValidFrames(fs) && Ascending(more)
    requires forall h: nat :: h in more <==> IsHead(fs, h) && c.Holds(h)
    ensures FreedOnce(fs0, GivenBack(fs, c), freed + more)
  {
    GiveBackLess(fs0, fs, c, freed, more);
    var all := freed + more;
    forall i, j | 0 <= i < j < |all| ensures all[i] != all[j] {
      if i < |freed| <= j { assert more[j - |freed|] in more; }
    }
  }

  // Only chunks of the node have changed, and none has grown or become empty.
  ghost predicate OnlyTrimmed(free0: seq<Chunk>, free: seq<Chunk>, numa: int) {
    && (forall d :: d in free ==> d in free0 || SuffixOfOne(free0, d, numa))
    && (forall c :: c in free0 && c.numa != numa ==> c in free)
  }

  ghost predicate SuffixOfOne(free0: seq<Chunk>, d: Chunk, numa: int) {
    d.numa == numa && d.size > 0 && exists c :: c in free0 && c.numa == numa && c.End() == d.End() && c.addr < d.addr
  }

  // While whole chunks are released.
  ghost predicate Trimming(fs0: Frames, free0: seq<Chunk>, fs: Frames, free: seq<Chunk>, numa: int, rest: set<Chunk>,
      freed: seq<nat>, gone: nat) {
    && Held(fs, free, rest) && Gapped(free) && AsSet(free) <= AsSet(free0)
    && (forall c :: c in AsSet(free0) && c.numa != numa ==> c in AsSet(free))
    && Total(free, numa) + gone == Total(free0, numa) && FreedOnce(fs0, fs, freed)
  }

  lemma TrimmingStart(fs0: Frames, free0: seq<Chunk>, numa: int, rest: set<Chunk>)
    requires Held(fs0, free0, rest) && Gapped(free0)
    ensures Trimming(fs0, free0, fs0, free0, numa, rest, [], 0) && Sorted(free0)
  {
    hide Inv; hide Aligned; hide Placed; hide Gapped; hide AsSet;
    assert Less(fs0, []) == fs0;
  }

  lemma TrimmingParts(fs0: Frames, free0: seq<Chunk>, fs: Frames, free: seq<Chunk>, numa: int, rest: set<Chunk>,
      freed: seq<nat>, gone: nat, i: nat)
    requires Trimming(fs0, free0, fs, free, numa, rest, freed, gone) && i < |free|
    ensures ValidFrames(fs) && Aligned(fs) && Sound(fs, free[i]) && free[i].size % PAGE == 0 && 0 < free[i].size
    ensures free[i].numa == numa ==> free[i].size + gone <= Total(free0, numa)
  {
    hide *;
    TrimmingIs(fs0, free0, fs, free, numa, rest, freed, gone);
    HeldParts(fs, free, rest);
    InSet(free);
    SoundOf(fs, AsSet(free) + rest);
    PlacedOf(AsSet(free) + rest, free[i]);
    if free[i].numa == numa { TotalAtLeast(free, numa, i); }
  }

  lemma TrimmingIs(fs0: Frames, free0: seq<Chunk>, fs: Frames, free: seq<Chunk>, numa: int, rest: set<Chunk>,
      freed: seq<nat>, gone: nat)
    requires Trimming(fs0, free0, fs, free, numa, rest, freed, gone)
    ensures Held(fs, free, rest) && Gapped(free) && Sorted(free) && AsSet(free) <= AsSet(free0)
    ensures forall c :: c in AsSet(free0) && c.numa != numa ==> c in AsSet(free)
    ensures Total(free, numa) + gone == Total(free0, numa) && FreedOnce(fs0, fs, freed)
    ensures forall i :: 0 <= i < |free| ==> free[i].size < ALL
  {
    hide Inv; hide FreedOnce; hide Total;
    assert forall i :: 0 <= i < |free| ==> free[i] in AsSet(free) + rest;
  }

  lemma TrimWhole(fs0: Frames, free0: seq<Chunk>, fs: Frames, free: seq<Chunk>, numa: int, rest: set<Chunk>,
      freed: seq<nat>, gone: nat, i: nat, more: seq<nat>)
    requires Trimming(fs0, free0, fs, free, numa, rest, freed, gone) && i < |free| && free[i].numa == numa
    requires Ascending(more) && forall h: nat :: h in more <==> IsHead(fs, h) && free[i].Holds(h)
    ensures Trimming(fs0, free0, GivenBack(fs, free[i]), Without(free, i), numa, rest, freed + more, gone +
      free[i].size)
  {
    hide *;
    var c := free[i];
    TrimmingIs(fs0, free0, fs, free, numa, rest, freed, gone);
    HeldParts(fs, free, rest);
    TakeHeld(fs, free, rest, i);
    GiveBackHeld(fs, Without(free, i), rest + {c}, c);
    assert rest + {c} - {c} == rest;
    GappedWithout(free, i);
    WithoutSet(free, i);
    WithoutTotal(free, i);
    FreedOnceStep(fs0, fs, c, freed, more);
    TrimmingIntro(fs0, free0, GivenBack(fs, c), Without(free, i), numa, rest, freed + more, gone + c.size);
  }

  lemma GappedWithout(cs: seq<Chunk>, i: nat)
    requires Gapped(cs) && i < |cs|
    ensures Gapped(Without(cs, i))
  {
    var r := Without(cs, i);
    assert forall j {:trigger r[j]} :: 0 <= j < |r| ==> r[j] == cs[if j < i then j else j + 1];
  }

  lemma TrimmingIntro(fs0: Frames, free0: seq<Chunk>, fs: Frames, free: seq<Chunk>, numa: int, rest: set<Chunk>,
      freed: seq<nat>, gone: nat)
    requires Held(fs, free, rest) && Gapped(free) && AsSet(free) <= AsSet(free0)
    requires forall c :: c in AsSet(free0) && c.numa != numa ==> c in AsSet(free)
    requires Total(free, numa) + gone == Total(free0, numa) && FreedOnce(fs0, fs, freed)
    ensures Trimming(fs0, free0, fs, free, numa, rest, freed, gone)
  {
  }

  // What a trim leaves: `gone` bytes fewer on the node, at most the request; short of it only by less than
  // the compound page at the start of the chunk where it stopped, or the granule; the invariant, and every
  // freed page freed once.
  ghost predicate Trimmed(fs0: Frames, free0: seq<Chunk>, fs: Frames, free: seq<Chunk>, numa: int, rest: set<Chunk>,
      freed: seq<nat>, want: nat, gone: nat) {
    && Held(fs, free, rest) && Gapped(free) && OnlyTrimmed(free0, free, numa) && FreedOnce(fs0, fs, freed)
    && Total(free, numa) + gone == Total(free0, numa) && gone <= want
    && (gone == want || exists d :: d in free && StoppedAt(fs0, d, numa, want - gone))
  }

  // The chunk at whose start a trim stopped, `left` bytes short.
  ghost predicate StoppedAt(fs: Frames, d: Chunk, numa: int, left: nat) {
    d.numa == numa && d.addr in fs && StopsShort(fs, d.addr, left)
  }

  lemma TrimDone(fs0: Frames, free0: seq<Chunk>, fs: Frames, free: seq<Chunk>, numa: int, rest: set<Chunk>,
      freed: seq<nat>, want: nat, gone: nat)
    requires Trimming(fs0, free0, fs, free, numa, rest, freed, gone) && gone <= want
    requires gone == want || exists d :: d in free && StoppedAt(fs, d, numa, want - gone)
    ensures Trimmed(fs0, free0, fs, free, numa, rest, freed, want, gone)
  {
    hide Held; hide Gapped; hide Total;
    assert forall d :: d in free ==> d in AsSet(free0);
    if gone < want {
      var d :| d in free && StoppedAt(fs, d, numa, want - gone);
      assert StoppedAt(fs0, d, numa, want - gone);
    }
  }

  lemma ShrinkHeld(fs: Frames, free: seq<Chunk>, rest: set<Chunk>, i: nat, cut: nat)
    requires Held(fs, free, rest) && Gapped(free) && i < |free| && free[i].addr < cut < free[i].End()
      && IsHead(fs, cut) && cut % PAGE == 0
    ensures Held(GivenBack(fs, Front(free[i], cut)), free[i := Rest(free[i], cut)], rest)
      && Gapped(free[i := Rest(free[i], cut)])
  {
    hide *;
    var c, front, back := free[i], Front(free[i], cut), Rest(free[i], cut);
    TakeHeld(fs, free, rest, i);
    MemReserve.CutAtHead(fs, c, cut);
    MemHeld.CutHeld(fs, Without(free, i), rest + {c}, c, cut);
    assert rest + {c} - {c} + {front, back} == rest + {front, back};
    GiveBackHeld(fs, Without(free, i), rest + {front, back}, front);
    assert rest + {front, back} - {front} == rest + {back};
    PutHeld(GivenBack(fs, front), Without(free, i), rest + {back}, back);
    assert rest + {back} - {back} == rest;
    PutRest(free, i, cut);
  }

  lemma PutRest(free: seq<Chunk>, i: nat, cut: nat)
    requires Gapped(free) && i < |free| && free[i].addr < cut < free[i].End()
    ensures MemChunks.Insert(Without(free, i), Rest(free[i], cut)) == free[i := Rest(free[i], cut)]
      && Gapped(free[i := Rest(free[i], cut)])
  {
    MemReserve.RestPlace(free, i, cut);
    RestGapped(free, i, cut);
    hide Gapped; hide Place;
    var r := Without(free, i);
    assert r[..i] == free[..i] && r[i..] == free[i + 1..];
  }

  lemma RestGapped(free: seq<Chunk>, i: nat, cut: nat)
    requires Gapped(free) && i < |free| && free[i].addr < cut < free[i].End()
    ensures Gapped(free[i := Rest(free[i], cut)])
  {
  }

  lemma TrimFront(fs0: Frames, free0: seq<Chunk>, fs: Frames, free: seq<Chunk>, numa: int, rest: set<Chunk>,
      freed: seq<nat>, want: nat, gone: nat, i: nat, cut: nat, more: seq<nat>)
    requires i < |free| && free[i].numa == numa && free[i].addr < cut < free[i].End() && IsHead(fs, cut)
      && cut % PAGE == 0 && cut in fs
    requires gone + (cut - free[i].addr) <= want
    requires gone + (cut - free[i].addr) < want ==> StopsShort(fs, cut, want - gone - (cut - free[i].addr))
    requires FreedTo(fs, free[i], cut, more)
    requires Trimming(fs0, free0, fs, free, numa, rest, freed, gone)
    ensures Trimmed(fs0, free0, GivenBack(fs, Front(free[i], cut)), free[i := Rest(free[i], cut)], numa, rest, freed +
      more, want, gone + (cut - free[i].addr))
  {
    hide *;
    var c := free[i];
    TrimmingIs(fs0, free0, fs, free, numa, rest, freed, gone);
    HeldParts(fs, free, rest);
    ShrinkHeld(fs, free, rest, i, cut);
    FrontFreed(fs, c, cut, more);
    FreedOnceStep(fs0, fs, Front(c, cut), freed, more);
    TrimTotal(free, i, cut, numa);
    TrimOnly(free0, free, i, cut, numa);
    if gone + (cut - c.addr) < want { RestStops(fs, free, i, cut, numa, want - gone - (cut - c.addr)); }
    TrimmedIntro(fs0, free0, fs, freed, GivenBack(fs, Front(c, cut)), free[i := Rest(c, cut)], numa, rest, freed +
      more, want, gone + (cut - c.addr));
  }

  lemma RestStops(fs: Frames, free: seq<Chunk>, i: nat, cut: nat, numa: int, left: nat)
    requires i < |free| && free[i].numa == numa && cut <= free[i].End() && cut in fs && StopsShort(fs, cut, left)
    ensures exists d :: d in free[i := Rest(free[i], cut)] && StoppedAt(fs, d, numa, left)
  {
    var r := free[i := Rest(free[i], cut)];
    assert r[i] in r && StoppedAt(fs, r[i], numa, left);
  }

  lemma FrontFreed(fs: Frames, c: Chunk, cut: nat, more: seq<nat>)
    requires FreedTo(fs, c, cut, more) && c.addr < cut < c.End()
    ensures Ascending(more) && forall h: nat :: h in more <==> IsHead(fs, h) && Front(c, cut).Holds(h)
  {
  }

  lemma TrimTotal(free: seq<Chunk>, i: nat, cut: nat, numa: int)
    requires i < |free| && free[i].numa == numa && free[i].addr < cut < free[i].End()
    ensures Total(free[i := Rest(free[i], cut)], numa) + (cut - free[i].addr) == Total(free, numa)
  {
    var r := free[i := Rest(free[i], cut)];
    TotalWithout(free, i, numa);
    TotalWithout(r, i, numa);
    assert Without(r, i) == Without(free, i);
  }

  lemma TrimOnly(free0: seq<Chunk>, free: seq<Chunk>, i: nat, cut: nat, numa: int)
    requires i < |free| && free[i].numa == numa && free[i].addr < cut < free[i].End() && AsSet(free) <= AsSet(free0)
    requires forall c :: c in AsSet(free0) && c.numa != numa ==> c in AsSet(free)
    ensures OnlyTrimmed(free0, free[i := Rest(free[i], cut)], numa)
  {
    var r := free[i := Rest(free[i], cut)];
    assert free[i] in AsSet(free);
    forall d | d in r ensures d in free0 || SuffixOfOne(free0, d, numa) {
      var k :| 0 <= k < |r| && r[k] == d;
      if k != i { assert free[k] in AsSet(free0); } else { assert free[i] in free0; }
    }
    forall c | c in free0 && c.numa != numa ensures c in r {
      assert c in AsSet(free0);
      var k :| 0 <= k < |free| && free[k] == c;
      assert r[k] == c;
    }
  }

  lemma TrimmedIntro(fs0: Frames, free0: seq<Chunk>, mid: Frames, midFreed: seq<nat>, fs: Frames, free: seq<Chunk>,
      numa: int, rest: set<Chunk>, freed: seq<nat>, want: nat, gone: nat)
    requires Held(fs, free, rest) && Gapped(free) && OnlyTrimmed(free0, free, numa) && FreedOnce(fs0, fs, freed)
    requires Total(free, numa) + gone == Total(free0, numa) && gone <= want && FreedOnce(fs0, mid, midFreed)
    requires gone < want ==> exists d :: d in free && StoppedAt(mid, d, numa, want - gone)
    ensures Trimmed(fs0, free0, fs, free, numa, rest, freed, want, gone)
  {
    hide Held; hide Gapped; hide OnlyTrimmed; hide Total;
    if gone < want {
      var d :| d in free && StoppedAt(mid, d, numa, want - gone);
      assert d.addr in fs0 && fs0[d.addr] == mid[d.addr];
      assert StoppedAt(fs0, d, numa, want - gone);
    }
  }

  // ---------- Which chunks go ----------

  // How much is left to free when the list has come down to l.
  ghost function Left(free0: seq<Chunk>, l: seq<Chunk>, want: nat, numa: int): int {
    want - (Total(free0, numa) - Total(l, numa))
  }

  ghost predicate WholeAt(free0: seq<Chunk>, l: seq<Chunk>, i: nat, want: nat, numa: int) {
    Smallest(l, numa, i) && l[i].size <= Left(free0, l, want, numa)
  }

  // Whole chunks go smallest first, as long as they are no bigger than what is left to free.
  ghost predicate SmallestOrder(free0: seq<Chunk>, picks: seq<nat>, want: nat, numa: int) {
    forall k :: 0 <= k < |picks| ==> WholeAt(free0, ListAfter(free0, picks[..k]), picks[k], want, numa)
  }

  // The next smallest chunk is shrunk to where the shrinking first stops.
  ghost predicate ShrunkAt(fs: Frames, l: seq<Chunk>, free: seq<Chunk>, numa: int, left: int, i: nat, cut: nat) {
    && Smallest(l, numa, i) && 0 < left < l[i].size && FirstStop(fs, l[i], left, cut)
    && l[i].addr <= cut <= l[i].End() && free == if cut == l[i].addr then l else l[i := Rest(l[i], cut)]
  }

  ghost predicate SmallestFirst(fs: Frames, free0: seq<Chunk>, free: seq<Chunk>, want: nat, numa: int) {
    exists picks :: SmallestOrder(free0, picks, want, numa)
      && LastShrunk(fs, free0, ListAfter(free0, picks), free, want, numa)
  }

  ghost predicate LastShrunk(fs: Frames, free0: seq<Chunk>, l: seq<Chunk>, free: seq<Chunk>, want: nat, numa: int) {
    || (Left(free0, l, want, numa) == 0 && free == l)
    || (exists i: nat, cut: nat :: ShrunkAt(fs, l, free, numa, Left(free0, l, want, numa), i, cut))
  }

  lemma OrderNext(free0: seq<Chunk>, picks: seq<nat>, want: nat, numa: int, i: nat)
    requires SmallestOrder(free0, picks, want, numa) && WholeAt(free0, ListAfter(free0, picks), i, want, numa)
    ensures SmallestOrder(free0, picks + [i], want, numa)
    ensures ListAfter(free0, picks + [i]) == Without(ListAfter(free0, picks), i)
  {
    hide WholeAt; hide Without;
    WholeIndex(free0, ListAfter(free0, picks), i, want, numa);
    var ps := picks + [i];
    assert ps[..|picks|] == picks;
    forall k | 0 <= k < |ps| ensures WholeAt(free0, ListAfter(free0, ps[..k]), ps[k], want, numa) {
      if k < |picks| { assert ps[..k] == picks[..k]; }
    }
  }

  lemma WholeIndex(free0: seq<Chunk>, l: seq<Chunk>, i: nat, want: nat, numa: int)
    requires WholeAt(free0, l, i, want, numa)
    ensures i < |l|
  {
  }

  lemma OrderStart(free0: seq<Chunk>, want: nat, numa: int)
    ensures SmallestOrder(free0, [], want, numa) && ListAfter(free0, []) == free0
  {
  }

  lemma OrderDone(fs: Frames, free0: seq<Chunk>, picks: seq<nat>, want: nat, numa: int)
    requires SmallestOrder(free0, picks, want, numa) && Left(free0, ListAfter(free0, picks), want, numa) == 0
    ensures SmallestFirst(fs, free0, ListAfter(free0, picks), want, numa)
  {
    hide SmallestOrder; hide ListAfter; hide Total;
    assert LastShrunk(fs, free0, ListAfter(free0, picks), ListAfter(free0, picks), want, numa);
  }

  lemma OrderShrunk(fs: Frames, free0: seq<Chunk>, picks: seq<nat>, free: seq<Chunk>, want: nat, numa: int, i: nat,
      cut: nat)
    requires SmallestOrder(free0, picks, want, numa)
    requires var l := ListAfter(free0, picks); ShrunkAt(fs, l, free, numa, Left(free0, l, want, numa), i, cut)
    ensures SmallestFirst(fs, free0, free, want, numa)
  {
    hide SmallestOrder; hide ListAfter; hide Total; hide ShrunkAt;
    assert LastShrunk(fs, free0, ListAfter(free0, picks), free, want, numa);
  }

  method ReleasePartially(fs0: Frames, free0: seq<Chunk>, want: nat, numa: int, ghost rest: set<Chunk>)
    returns (r: int, fs: Frames, free: seq<Chunk>, freed: seq<nat>, gone: nat)
    requires Held(fs0, free0, rest) && Gapped(free0) && want > 0 && want % PAGE == 0
    ensures r == 0 || r == -1
    ensures r == 0 <==> want <= Total(free0, numa)
    ensures r == 0 ==> Trimmed(fs0, free0, fs, free, numa, rest, freed, want, gone)
    ensures r == 0 ==> SmallestFirst(fs0, free0, free, want, numa)
    ensures r != 0 ==>
      Trimming(fs0, free0, fs, free, numa, rest, freed, gone) && forall i :: 0 <= i < |free| ==> free[i].numa != numa
  {
    hide Held; hide Gapped; hide Sorted; hide Total; hide AsSet; hide Trimming; hide Trimmed; hide InOrder;
    hide Smallest; hide StopsShort; hide FreedTo; hide ValidFrames; hide Aligned; hide Sound; hide Without; hide IsHead;
    hide GivenBack; hide SmallestOrder; hide SmallestFirst; hide ListAfter; hide WholeAt; hide Left;
    ghost var picks: seq<nat> := [];
    OrderStart(free0, want, numa);
    TrimmingStart(fs0, free0, numa, rest);
    var t;
    t, free := BuildTree(free0);
    fs, freed, gone := fs0, [], 0;
    while true
      invariant Trimming(fs0, free0, fs, free, numa, rest, freed, gone) && InOrder(t) == free && gone < want
        && gone % PAGE == 0
      invariant SmallestOrder(free0, picks, want, numa) && free == ListAfter(free0, picks)
      decreases |free|
    {
      TrimmingIs(fs0, free0, fs, free, numa, rest, freed, gone);
      var pick := PickSmallest(InOrder(t), numa);
      if pick.None? {
        TotalNone(free, numa);
        return -1, fs, free, freed, gone;
      }
      var i := pick.value;
      SmallestIs(free, numa, i);
      TrimmingParts(fs0, free0, fs, free, numa, rest, freed, gone, i);
      var c := free[i];
      LeftIs(free0, free, want, numa, gone);
      if want - gone < c.size {
        ghost var l, cut := free, 0;
        fs, free, freed, gone, cut := ShrinkLast(fs0, free0, fs, free, numa, rest, freed, want, gone, i);
        OrderShrunk(fs0, free0, picks, free, want, numa, i, cut);
        return 0, fs, free, freed, gone;
      }
      WholeIntro(free0, free, i, want, numa);
      OrderNext(free0, picks, want, numa, i);
      picks := picks + [i];
      var more := ReleaseChunk(fs, c);
      TrimWhole(fs0, free0, fs, free, numa, rest, freed, gone, i, more);
      WithoutShorter(free, i);
      AlignedSum(gone, c.size);
      fs, free, freed, gone := GivenBack(fs, c), Without(free, i), freed + more, gone + c.size;
      t := EraseAt(t, i);
      if gone == want {
        TrimDone(fs0, free0, fs, free, numa, rest, freed, want, gone);
        TrimmingIs(fs0, free0, fs, free, numa, rest, freed, gone);
        LeftIs(free0, free, want, numa, gone);
        OrderDone(fs0, free0, picks, want, numa);
        return 0, fs, free, freed, gone;
      }
    }
  }

  lemma LeftIs(free0: seq<Chunk>, l: seq<Chunk>, want: nat, numa: int, gone: nat)
    requires Total(l, numa) + gone == Total(free0, numa)
    ensures Left(free0, l, want, numa) == want - gone
  {
  }

  lemma WholeIntro(free0: seq<Chunk>, l: seq<Chunk>, i: nat, want: nat, numa: int)
    requires i < |l| && Smallest(l, numa, i) && l[i].size <= Left(free0, l, want, numa)
    ensures WholeAt(free0, l, i, want, numa)
  {
  }

  // The chunk that is bigger than what is left to free gives up its first compound pages.
  method ShrinkLast(ghost fs0: Frames, ghost free0: seq<Chunk>, fs: Frames, free: seq<Chunk>, numa: int,
      ghost rest: set<Chunk>, freed: seq<nat>, want: nat, gone: nat, i: nat)
    returns (fs': Frames, free': seq<Chunk>, freed': seq<nat>, gone': nat, ghost cut': nat)
    requires Smallest(free, numa, i)
    requires want % PAGE == 0 && gone % PAGE == 0 && gone < want && i < |free| && free[i].numa == numa
      && want - gone < free[i].size
    requires Trimming(fs0, free0, fs, free, numa, rest, freed, gone)
    ensures Trimmed(fs0, free0, fs', free', numa, rest, freed', want, gone')
    ensures ShrunkAt(fs0, free, free', numa, want - gone, i, cut')
  {
    hide FirstStop; hide Smallest; hide Less; hide Held; hide Gapped; hide Sorted; hide Total; hide AsSet;
    hide Trimming; hide Trimmed; hide StopsShort; hide FreedTo; hide ValidFrames; hide Aligned; hide Sound; hide IsHead;
    hide GivenBack;
    TrimmingParts(fs0, free0, fs, free, numa, rest, freed, gone, i);
    var c := free[i];
    AlignedDifference(want, gone);
    var cut, more := Shrink(fs, c, want - gone);
    HeadKnown(fs, cut);
    TrimmingIs(fs0, free0, fs, free, numa, rest, freed, gone);
    FirstStopBefore(fs0, fs, freed, c, want - gone, cut);
    cut' := cut;
    if cut == c.addr {
      assert c in free && StoppedAt(fs, c, numa, want - gone);
      TrimDone(fs0, free0, fs, free, numa, rest, freed, want, gone);
      return fs, free, freed, gone, cut;
    }
    TrimFront(fs0, free0, fs, free, numa, rest, freed, want, gone, i, cut, more);
    return GivenBack(fs, Front(c, cut)), free[i := Rest(c, cut)], freed + more, gone + (cut - c.addr), cut;
  }

  lemma HeadKnown(fs: Frames, p: nat)
    requires IsHead(fs, p)
    ensures p in fs
  {
  }

  lemma TotalNone(cs: seq<Chunk>, numa: int)
    requires Sorted(cs) && forall j :: 0 <= j < |cs| ==> cs[j].numa != numa
    ensures Total(cs, numa) == 0
  {
    TotalZero(cs, numa);
  }

  lemma SmallestIs(cs: seq<Chunk>, numa: int, i: nat)
    requires Smallest(cs, numa, i)
    ensures i < |cs| && cs[i].numa == numa
  {
  }

  lemma WithoutShorter(cs: seq<Chunk>, i: nat)
    requires i < |cs|
    ensures |Without(cs, i)| == |cs| - 1
  {
  }
}
