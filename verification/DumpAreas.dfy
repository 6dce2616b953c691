/**
 Turning the dump bitmaps of a kernel into memory areas: the pass that counts the areas and
 the pass that emits them, both scanning bit by bit with a running length.
 */
module DumpAreas {

  const PAGE_SIZE := 4096
  const WORD_BITS := 64

  // The bitmap of one chunk of memory that begins at `start`.
  datatype DumpPage = DumpPage(start: nat, map_: seq<bv64>)

  datatype Area = Area(addr: nat, size: nat)

  // A run of set bits: `len` of them from bit `first`.
  datatype Run = Run(first: nat, len: nat)

  predicate BitAt(w: bv64, k: nat)
    requires k < WORD_BITS
  {
    (w >> k) & 1 == 1
  }

  // Bit k is the one worth 2 to the k.
  lemma BitOrder(k: nat, j: nat)
    requires k < WORD_BITS && j < WORD_BITS
    ensures (BitAt(1 << k, j) <==> j == k) && !BitAt(0, j)
  {
    hide BitAt;
    NoBit(j);
    if j == k { OwnBit(k); } else if j < k { LowerBit(k, j); } else { UpperBit(k, j); }
  }

  lemma NoBit(j: nat)
    requires j < WORD_BITS
    ensures !BitAt(0, j)
  {
  }

  lemma OwnBit(k: nat)
    requires k < WORD_BITS
    ensures BitAt(1 << k, k)
  {
  }

  lemma LowerBit(k: nat, j: nat)
    requires j < k < WORD_BITS
    ensures !BitAt(1 << k, j)
  {
  }

  lemma UpperBit(k: nat, j: nat)
    requires k < j < WORD_BITS
    ensures !BitAt(1 << k, j)
  {
  }

  function Bits(words: seq<bv64>): (bits: seq<bool>)
    ensures |bits| == WORD_BITS * |words|
  {
    seq(WORD_BITS * |words|, i requires 0 <= i < WORD_BITS * |words| => BitAt(words[i / WORD_BITS], i % WORD_BITS))
  }

  // ---------- What a scan has seen after a prefix ----------

  // The length of the run that reaches the end.
  function Open(bits: seq<bool>): (n: nat)
    ensures n <= |bits|
  {
    if bits == [] || !bits[|bits| - 1] then 0 else Open(bits[..|bits| - 1]) + 1
  }

  // The runs that ended before the end.
  function Closed(bits: seq<bool>): seq<Run> {
    if bits == [] then [] else
    var before := bits[..|bits| - 1];
    if !bits[|bits| - 1] && Open(before) > 0
    then Closed(before) + [Run(|before| - Open(before), Open(before))] else Closed(before)
  }

  function Runs(bits: seq<bool>): seq<Run> {
    if Open(bits) > 0 then Closed(bits) + [Run(|bits| - Open(bits), Open(bits))] else Closed(bits)
  }

  function AreaOf(start: nat, r: Run): Area { Area(start + r.first * PAGE_SIZE, r.len * PAGE_SIZE) }

  function AreasOf(start: nat, runs: seq<Run>): (areas: seq<Area>)
    ensures |areas| == |runs|
  {
    seq(|runs|, i requires 0 <= i < |runs| => AreaOf(start, runs[i]))
  }

  // The areas of the first n chunks, in order.
  function AllAreas(pages: seq<DumpPage>): seq<Area> {
    if pages == [] then [] else
    var last := pages[|pages| - 1];
    AllAreas(pages[..|pages| - 1]) + AreasOf(last.start, Runs(Bits(last.map_)))
  }

  // ---------- The runs are exactly the maximal ones ----------

  ghost predicate Maximal(bits: seq<bool>, r: Run) {
    && r.len >= 1 && r.first + r.len <= |bits|
    && (forall i :: r.first <= i < r.first + r.len ==> bits[i])
    && (r.first > 0 ==> !bits[r.first - 1])
    && (r.first + r.len < |bits| ==> !bits[r.first + r.len])
  }

  lemma {:induction false} OpenIsTail(bits: seq<bool>)
    ensures forall i :: |bits| - Open(bits) <= i < |bits| ==> bits[i]
    ensures Open(bits) < |bits| ==> !bits[|bits| - Open(bits) - 1]
  {
    if bits != [] && bits[|bits| - 1] {
      OpenIsTail(bits[..|bits| - 1]);
    }
  }

  // Closed runs are maximal, end before the last bit, and come in order with a gap between them.
  lemma {:induction false} ClosedAreMaximal(bits: seq<bool>)
    ensures forall k :: 0 <= k < |Closed(bits)| ==> Maximal(bits, Closed(bits)[k])
    ensures forall k :: 0 <= k < |Closed(bits)| ==> Closed(bits)[k].first + Closed(bits)[k].len < |bits| - Open(bits)
    ensures forall k, m :: 0 <= k < m < |Closed(bits)| ==>
      Closed(bits)[k].first + Closed(bits)[k].len < Closed(bits)[m].first
  {
    if bits != [] {
      var before := bits[..|bits| - 1];
      ClosedAreMaximal(before);
      OpenIsTail(before);
      forall k | 0 <= k < |Closed(before)| ensures Maximal(bits, Closed(before)[k]) {
        assert Maximal(before, Closed(before)[k]);
      }
      if !bits[|bits| - 1] && Open(before) > 0 {
        assert Maximal(bits, Run(|before| - Open(before), Open(before)));
      }
    }
  }

  // The runs found are maximal, in order and apart, and every set bit lies in one of them.
  lemma RunsAreMaximal(bits: seq<bool>)
    ensures forall k :: 0 <= k < |Runs(bits)| ==> Maximal(bits, Runs(bits)[k])
    ensures forall k, m :: 0 <= k < m < |Runs(bits)| ==> Runs(bits)[k].first + Runs(bits)[k].len < Runs(bits)[m].first
  {
    ClosedAreMaximal(bits);
    OpenIsTail(bits);
  }

  ghost predicate Covered(runs: seq<Run>, i: nat) {
    exists k :: 0 <= k < |runs| && runs[k].first <= i < runs[k].first + runs[k].len
  }

  lemma {:induction false} ClosedCover(bits: seq<bool>, i: nat)
    requires i < |bits| - Open(bits) && bits[i]
    ensures Covered(Closed(bits), i)
  {
    var before := bits[..|bits| - 1];
    OpenIsTail(before);
    OpenIsTail(bits);
    if i < |before| - Open(before) {
      ClosedCover(before, i);
      var k :| 0 <= k < |Closed(before)|
        && Closed(before)[k].first <= i < Closed(before)[k].first + Closed(before)[k].len;
      assert Closed(bits)[k] == Closed(before)[k];
    } else {
      assert Closed(bits)[|Closed(before)|] == Run(|before| - Open(before), Open(before));
    }
  }

  lemma RunsCover(bits: seq<bool>, i: nat)
    requires i < |bits| && bits[i]
    ensures Covered(Runs(bits), i)
  {
    OpenIsTail(bits);
    if i < |bits| - Open(bits) {
      ClosedCover(bits, i);
      var k :| 0 <= k < |Closed(bits)| && Closed(bits)[k].first <= i < Closed(bits)[k].first + Closed(bits)[k].len;
      assert Runs(bits)[k] == Closed(bits)[k];
    } else {
      assert Runs(bits)[|Closed(bits)|] == Run(|bits| - Open(bits), Open(bits));
    }
  }

  lemma OneRun(bits: seq<bool>, q: Run, r: Run)
    requires Maximal(bits, q) && Maximal(bits, r) && q.first <= r.first < q.first + q.len
    ensures q == r
  {
    assert q.first == r.first;
    assert q.first + q.len >= |bits| || q.first + q.len >= r.first + r.len;
    assert r.first + r.len >= |bits| || r.first + r.len >= q.first + q.len;
  }

  // A run is reported exactly when it is maximal.
  lemma ReportedExactly(bits: seq<bool>, r: Run)
    ensures r in Runs(bits) <==> Maximal(bits, r)
  {
    RunsAreMaximal(bits);
    if Maximal(bits, r) {
      RunsCover(bits, r.first);
      var k :| 0 <= k < |Runs(bits)| && Runs(bits)[k].first <= r.first < Runs(bits)[k].first + Runs(bits)[k].len;
      var q := Runs(bits)[k];
      OneRun(bits, q, r);
    }
  }

  function SetBits(bits: seq<bool>): nat {
    if bits == [] then 0 else SetBits(bits[..|bits| - 1]) + if bits[|bits| - 1] then 1 else 0
  }

  function TotalLen(runs: seq<Run>): nat {
    if runs == [] then 0 else TotalLen(runs[..|runs| - 1]) + runs[|runs| - 1].len
  }

  function TotalSize(areas: seq<Area>): nat {
    if areas == [] then 0 else TotalSize(areas[..|areas| - 1]) + areas[|areas| - 1].size
  }

  lemma {:induction false} ClosedTotal(bits: seq<bool>)
    ensures TotalLen(Closed(bits)) + Open(bits) == SetBits(bits)
  {
    if bits != [] {
      var before := bits[..|bits| - 1];
      ClosedTotal(before);
      OpenIsTail(before);
      if !bits[|bits| - 1] && Open(before) > 0 {
        assert Closed(bits)[..|Closed(before)|] == Closed(before);
      }
    }
  }

  lemma {:induction false} SizesScale(start: nat, runs: seq<Run>)
    ensures TotalSize(AreasOf(start, runs)) == TotalLen(runs) * PAGE_SIZE
  {
    if runs != [] {
      var before := runs[..|runs| - 1];
      SizesScale(start, before);
      assert AreasOf(start, runs)[..|runs| - 1] == AreasOf(start, before);
    }
  }

  // The areas of a chunk hold exactly one page for every set bit.
  lemma SizeIsSetBits(p: DumpPage)
    ensures TotalSize(AreasOf(p.start, Runs(Bits(p.map_)))) == SetBits(Bits(p.map_)) * PAGE_SIZE
  {
    var bits := Bits(p.map_);
    ClosedTotal(bits);
    OpenIsTail(bits);
    SizesScale(p.start, Runs(bits));
    if Open(bits) > 0 { assert Runs(bits)[..|Closed(bits)|] == Closed(bits); }
  }

  // ---------- The two passes ----------

  lemma ScanBit(bits: seq<bool>, n: nat)
    requires n < |bits|
    ensures Open(bits[..n + 1]) == if bits[n] then Open(bits[..n]) + 1 else 0
    ensures Closed(bits[..n + 1]) ==
            if !bits[n] && Open(bits[..n]) > 0 then Closed(bits[..n]) + [Run(n - Open(bits[..n]), Open(bits[..n]))]
            else Closed(bits[..n])
  {
    assert bits[..n + 1][..n] == bits[..n];
    OpenIsTail(bits[..n]);
  }

  lemma BitIndex(words: seq<bv64>, j: nat, k: nat)
    requires j < |words| && k < WORD_BITS
    ensures Bits(words)[WORD_BITS * j + k] == BitAt(words[j], k)
  {
    hide BitAt;
    var i := WORD_BITS * j + k;
    assert i / WORD_BITS == j && i % WORD_BITS == k;
  }

  lemma ScanNone()
    ensures Open([]) == 0 && Closed([]) == []
  {
  }

  method CountChunk(words: seq<bv64>) returns (memNum: nat)
    ensures memNum == |Runs(Bits(words))|
  {
    hide Open; hide Closed; hide Bits; hide BitAt;
    ghost var bits := Bits(words);
    memNum := 0;
    ScanNone();
    assert bits[..0] == [];
    var bitCount, j := 0, 0;
    while j < |words|
      invariant j <= |words|
      invariant bitCount == Open(bits[..WORD_BITS * j]) && memNum == |Closed(bits[..WORD_BITS * j])|
    {
      var k := 0;
      while k < WORD_BITS
        invariant k <= WORD_BITS
        invariant bitCount == Open(bits[..WORD_BITS * j + k]) && memNum == |Closed(bits[..WORD_BITS * j + k])|
      {
        ScanBit(bits, WORD_BITS * j + k);
        BitIndex(words, j, k);
        if BitAt(words[j], k) {
          bitCount := bitCount + 1;
        } else if bitCount > 0 {
          memNum := memNum + 1;
          bitCount := 0;
        }
        k := k + 1;
      }
      j := j + 1;
    }
    assert bits[..WORD_BITS * j] == bits;
    if bitCount > 0 { memNum := memNum + 1; }
  }

  // The number of areas, which the caller asks for first to size its buffer.
  method CountAreas(pages: seq<DumpPage>) returns (memNum: nat)
    ensures memNum == |AllAreas(pages)|
  {
    hide Bits; hide Runs;
    memNum := 0;
    var i := 0;
    assert pages[..0] == [];
    while i < |pages|
      invariant i <= |pages| && memNum == |AllAreas(pages[..i])|
    {
      var n := CountChunk(pages[i].map_);
      memNum := memNum + n;
      assert pages[..i + 1][..i] == pages[..i];
      i := i + 1;
    }
    assert pages[..i] == pages;
  }

  lemma ScanStep(start: nat, bits: seq<bool>, n: nat, areas: seq<Area>, bitCount: nat, mapStart: nat)
    requires n < |bits| && Scanned(start, bits[..n], areas, bitCount, mapStart)
    ensures bits[n] ==>
      Scanned(start, bits[..n + 1], areas, bitCount + 1, if bitCount == 0 then start + n * PAGE_SIZE else mapStart)
    ensures !bits[n] && bitCount == 0 ==> Scanned(start, bits[..n + 1], areas, 0, mapStart)
    ensures !bits[n] && bitCount > 0 ==>
      Scanned(start, bits[..n + 1], areas + [Area(mapStart, bitCount * PAGE_SIZE)], 0, mapStart)
  {
    ScanBit(bits, n);
  }

  method EmitChunk(p: DumpPage) returns (areas: seq<Area>)
    ensures areas == AreasOf(p.start, Runs(Bits(p.map_)))
  {
    hide Scanned; hide AreasOf; hide Runs;
    ghost var bits := Bits(p.map_);
    areas := [];
    StartScan(p.start);
    assert bits[..0] == [];
    var bitCount: nat, mapStart: nat, j: nat := 0, 0, 0;
    while j < |p.map_|
      invariant j <= |p.map_|
      invariant Scanned(p.start, bits[..WORD_BITS * j], areas, bitCount, mapStart)
    {
      var k := 0;
      while k < WORD_BITS
        invariant k <= WORD_BITS
        invariant Scanned(p.start, bits[..WORD_BITS * j + k], areas, bitCount, mapStart)
      {
        ScanStep(p.start, bits, WORD_BITS * j + k, areas, bitCount, mapStart);
        BitIndex(p.map_, j, k);
        if BitAt(p.map_[j], k) {
          if bitCount == 0 { mapStart := p.start + j * (WORD_BITS * PAGE_SIZE) + k * PAGE_SIZE; }
          bitCount := bitCount + 1;
        } else if bitCount > 0 {
          areas := areas + [Area(mapStart, bitCount * PAGE_SIZE)];
          bitCount := 0;
        }
        k := k + 1;
      }
      j := j + 1;
    }
    assert bits[..WORD_BITS * j] == bits;
    EndScan(p.start, bits, areas, bitCount, mapStart);
    if bitCount > 0 { areas := areas + [Area(mapStart, bitCount * PAGE_SIZE)]; }
  }

  lemma StartScan(start: nat)
    ensures Scanned(start, [], [], 0, 0)
  {
  }

  lemma EndScan(start: nat, bits: seq<bool>, areas: seq<Area>, bitCount: nat, mapStart: nat)
    requires Scanned(start, bits, areas, bitCount, mapStart)
    ensures AreasOf(start, Runs(bits)) == if bitCount > 0 then areas + [Area(mapStart, bitCount * PAGE_SIZE)] else areas
  {
  }

  ghost predicate Scanned(start: nat, bits: seq<bool>, areas: seq<Area>, bitCount: nat, mapStart: nat) {
    && bitCount == Open(bits)
    && areas == AreasOf(start, Closed(bits))
    && (bitCount > 0 ==> mapStart == start + (|bits| - bitCount) * PAGE_SIZE)
  }

  lemma {:induction false} MoreChunksMoreAreas(pages: seq<DumpPage>, i: nat, j: nat)
    requires i <= j <= |pages|
    ensures AllAreas(pages[..i]) <= AllAreas(pages[..j])
  {
    if i < j {
      MoreChunksMoreAreas(pages, i, j - 1);
      assert pages[..j][..j - 1] == pages[..j - 1];
    }
  }

  // What the caller finds in a buffer for `room` areas: every area when there is room for all, otherwise the
  // areas of the leading chunks up to the first that fills the buffer, which fit exactly when some number of
  // leading chunks has just as many areas as there is room for.
  ghost predicate Answers(pages: seq<DumpPage>, room: nat, areas: seq<Area>) {
    && areas <= AllAreas(pages)
    && (|AllAreas(pages)| <= room || |areas| < room ==> areas == AllAreas(pages))
    && (|areas| <= room <==> |AllAreas(pages)| <= room || SomeChunksFill(pages, room))
  }

  ghost predicate SomeChunksFill(pages: seq<DumpPage>, room: nat) {
    exists n :: 0 <= n <= |pages| && |AllAreas(pages[..n])| == room
  }

  lemma StopsRight(pages: seq<DumpPage>, room: nat, i: nat)
    requires i <= |pages| && (forall n :: 0 <= n < i ==> |AllAreas(pages[..n])| < room)
    requires i < |pages| ==> |AllAreas(pages[..i])| >= room
    ensures Answers(pages, room, AllAreas(pages[..i]))
  {
    assert pages[..|pages|] == pages;
    MoreChunksMoreAreas(pages, i, |pages|);
    forall n | i <= n <= |pages| ensures |AllAreas(pages[..n])| >= |AllAreas(pages[..i])| {
      MoreChunksMoreAreas(pages, i, n);
    }
  }

  // Emits the areas chunk by chunk, looking only between chunks whether `room` areas have been written.
  method EmitAreas(pages: seq<DumpPage>, room: nat) returns (areas: seq<Area>)
    ensures Answers(pages, room, areas)
  {
    hide AreasOf; hide Runs; hide Answers;
    areas := [];
    var i := 0;
    assert pages[..0] == [];
    while i < |pages| && |areas| + 1 <= room
      invariant i <= |pages| && areas == AllAreas(pages[..i])
      invariant forall n :: 0 <= n < i ==> |AllAreas(pages[..n])| < room
    {
      var more := EmitChunk(pages[i]);
      areas := areas + more;
      assert pages[..i + 1][..i] == pages[..i];
      i := i + 1;
    }
    StopsRight(pages, room, i);
  }
}
