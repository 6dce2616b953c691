// Runs of physical memory and the address-sorted lists that hold them.
module MemChunks {
  // `numa` is the NUMA node of the memory.
  datatype Chunk = Chunk(addr: nat, size: nat, numa: int) {
    function End(): nat { addr + size }
    predicate Holds(b: nat) { addr <= b < End() }
  }

  // Sorted by address, no overlap, nothing empty.
  ghost predicate Sorted(cs: seq<Chunk>) {
    && (forall i :: 0 <= i < |cs| ==> cs[i].size > 0)
    && (forall i, j :: 0 <= i < j < |cs| ==> cs[i].End() <= cs[j].addr)
  }

  // Sorted with a gap between any two neighbours.
  predicate Gapped(cs: seq<Chunk>) {
    && (forall i :: 0 <= i < |cs| ==> cs[i].size > 0)
    && (forall i, j :: 0 <= i < j < |cs| ==> cs[i].End() < cs[j].addr)
  }

  ghost predicate Disjoint(c: Chunk, d: Chunk) { c.End() <= d.addr || d.End() <= c.addr }

  ghost predicate DisjointFrom(cs: seq<Chunk>, c: Chunk) {
    forall i :: 0 <= i < |cs| ==> Disjoint(cs[i], c)
  }

  // Byte b is in one of the chunks.
  ghost predicate Covered(cs: seq<Chunk>, b: nat) {
    exists i :: 0 <= i < |cs| && cs[i].Holds(b)
  }

  // Byte b of node n is in one of the chunks.
  ghost predicate CoveredOn(cs: seq<Chunk>, n: int, b: nat) {
    exists c :: c in cs && c.Holds(b) && c.numa == n
  }

  ghost function AsSet(cs: seq<Chunk>): set<Chunk> { set c | c in cs }

  function Without(cs: seq<Chunk>, i: nat): (r: seq<Chunk>)
    requires i < |cs|
  {
    cs[..i] + cs[i + 1..]
  }

  // How many bytes lie on a node.
  ghost function Total(cs: seq<Chunk>, n: int): nat {
    if cs == [] then 0 else Total(cs[..|cs| - 1], n) + if cs[|cs| - 1].numa == n then cs[|cs| - 1].size else 0
  }

  lemma {:induction false} TotalSplit(a: seq<Chunk>, b: seq<Chunk>, n: int)
    ensures Total(a + b, n) == Total(a, n) + Total(b, n)
  {
    if b == [] {
      assert a + b == a;
    } else {
      assert (a + b)[..|a + b| - 1] == a + b[..|b| - 1];
      TotalSplit(a, b[..|b| - 1], n);
    }
  }

  lemma TotalOne(c: Chunk, n: int)
    ensures Total([c], n) == if c.numa == n then c.size else 0
  {
    assert [c][..0] == [];
  }

  lemma TotalWithout(cs: seq<Chunk>, i: nat, n: int)
    requires i < |cs|
    ensures Total(cs, n) == Total(Without(cs, i), n) + if cs[i].numa == n then cs[i].size else 0
  {
    assert cs == cs[..i] + ([cs[i]] + cs[i + 1..]);
    TotalSplit(cs[..i], [cs[i]] + cs[i + 1..], n);
    TotalSplit([cs[i]], cs[i + 1..], n);
    TotalSplit(cs[..i], cs[i + 1..], n);
    TotalOne(cs[i], n);
  }

  lemma TotalPut(cs: seq<Chunk>, k: nat, c: Chunk, n: int)
    requires k <= |cs|
    ensures Total(cs[..k] + [c] + cs[k..], n) == Total(cs, n) + if c.numa == n then c.size else 0
  {
    var r := cs[..k] + [c] + cs[k..];
    TotalWithout(r, k, n);
    assert Without(r, k) == cs;
  }

  lemma {:induction false} TotalZero(cs: seq<Chunk>, n: int)
    requires forall i :: 0 <= i < |cs| ==> cs[i].size > 0
    ensures Total(cs, n) == 0 <==> forall i :: 0 <= i < |cs| ==> cs[i].numa != n
  {
    if cs != [] {
      var last := |cs| - 1;
      TotalZero(cs[..last], n);
      if forall i :: 0 <= i < |cs| ==> cs[i].numa != n {
        assert forall i :: 0 <= i < last ==> cs[..last][i].numa != n;
      } else if Total(cs, n) == 0 {
        assert forall i :: 0 <= i < last ==> cs[..last][i] == cs[i];
      }
    }
  }

  lemma {:induction false} TotalAtLeast(cs: seq<Chunk>, n: int, i: nat)
    requires i < |cs| && cs[i].numa == n
    ensures cs[i].size <= Total(cs, n)
  {
    TotalWithout(cs, i, n);
  }

  // ---------- Sorted insertion ----------

  // The number of leading chunks that start at or below `addr`.
  function Place(cs: seq<Chunk>, addr: nat): (k: nat)
    ensures k <= |cs| && (k < |cs| ==> cs[k].addr > addr) && forall i :: 0 <= i < k ==> cs[i].addr <= addr
  {
    if cs == [] || cs[0].addr > addr then 0 else 1 + Place(cs[1..], addr)
  }

  function Insert(cs: seq<Chunk>, c: Chunk): (r: seq<Chunk>) {
    cs[..Place(cs, c.addr)] + [c] + cs[Place(cs, c.addr)..]
  }

  lemma PlaceSplits(cs: seq<Chunk>, c: Chunk)
    requires Sorted(cs) && DisjointFrom(cs, c) && c.size > 0
    ensures forall i :: 0 <= i < Place(cs, c.addr) ==> cs[i].End() <= c.addr
    ensures forall i :: Place(cs, c.addr) <= i < |cs| ==> c.End() <= cs[i].addr
  {
    var k := Place(cs, c.addr);
    forall i | 0 <= i < |cs| ensures if i < k then cs[i].End() <= c.addr else c.End() <= cs[i].addr {
      assert Disjoint(cs[i], c);
      if i >= k { assert cs[k].addr <= cs[i].addr; }
    }
  }

  lemma InsertSorted(cs: seq<Chunk>, c: Chunk)
    requires Sorted(cs) && DisjointFrom(cs, c) && c.size > 0
    ensures Sorted(Insert(cs, c))
  {
    PlaceSplits(cs, c);
    hide Place; hide DisjointFrom;
  }

  lemma InsertTotal(cs: seq<Chunk>, c: Chunk)
    ensures forall n :: Total(Insert(cs, c), n) == Total(cs, n) + if c.numa == n then c.size else 0
  {
    forall n { TotalPut(cs, Place(cs, c.addr), c, n); }
  }

  lemma InsertSet(cs: seq<Chunk>, c: Chunk)
    ensures AsSet(Insert(cs, c)) == AsSet(cs) + {c} && |Insert(cs, c)| == |cs| + 1
  {
    var k := Place(cs, c.addr);
    var r := Insert(cs, c);
    assert cs == cs[..k] + cs[k..];
    assert c == r[k];
  }

  lemma WithoutSorted(cs: seq<Chunk>, i: nat)
    requires Sorted(cs) && i < |cs|
    ensures Sorted(Without(cs, i)) && DisjointFrom(Without(cs, i), cs[i])
  {
    var r := Without(cs, i);
    assert forall j {:trigger r[j]} :: 0 <= j < |r| ==> r[j] == cs[if j < i then j else j + 1];
  }

  lemma AsSetConcat(a: seq<Chunk>, b: seq<Chunk>)
    ensures AsSet(a + b) == AsSet(a) + AsSet(b)
  {
  }

  lemma WithoutSet(cs: seq<Chunk>, i: nat)
    requires Sorted(cs) && i < |cs|
    ensures AsSet(Without(cs, i)) == AsSet(cs) - {cs[i]}
  {
    var c, front, back := cs[i], cs[..i], cs[i + 1..];
    assert c !in front && c !in back;
    hide Sorted;
    assert cs == front + ([c] + back);
    AsSetConcat(front, [c] + back);
    AsSetConcat([c], back);
    AsSetConcat(front, back);
    assert AsSet([c]) == {c};
  }

  lemma WithoutTotal(cs: seq<Chunk>, i: nat)
    requires i < |cs|
    ensures forall n :: Total(cs, n) == Total(Without(cs, i), n) + if cs[i].numa == n then cs[i].size else 0
  {
    forall n { TotalWithout(cs, i, n); }
  }

  // The list when the chunks at some places have been taken off it, one after the other.
  function ListAfter(free0: seq<Chunk>, picks: seq<nat>): (free: seq<Chunk>) {
    if picks == [] then free0
    else
      var l, i := ListAfter(free0, picks[..|picks| - 1]), picks[|picks| - 1];
      if i < |l| then Without(l, i) else l
  }

  // ---------- Merging neighbours ----------

  predicate Joins(c: Chunk, d: Chunk) { d.addr == c.End() && d.numa == c.numa }

  function Join(c: Chunk, d: Chunk): Chunk { c.(size := c.size + d.size) }

  // All neighbours on the same node that touch become one chunk.
  function Merged(cs: seq<Chunk>): (r: seq<Chunk>)
    ensures |r| <= |cs| && (cs != [] ==> r != [] && r[0].addr == cs[0].addr && r[0].numa == cs[0].numa)
  {
    if |cs| <= 1 then cs
    else
      var rest := Merged(cs[1..]);
      if Joins(cs[0], rest[0]) then [Join(cs[0], rest[0])] + rest[1..] else [cs[0]] + rest
  }

  ghost predicate FullyMerged(cs: seq<Chunk>) {
    forall i, j :: 0 <= i < j < |cs| && j == i + 1 ==> !Joins(cs[i], cs[j])
  }

  lemma {:induction false} MergedIsFull(cs: seq<Chunk>)
    ensures FullyMerged(Merged(cs))
  {
    if |cs| > 1 { MergedIsFull(cs[1..]); }
  }

  lemma {:induction false} FullIsMerged(cs: seq<Chunk>)
    requires FullyMerged(cs)
    ensures Merged(cs) == cs
  {
    if |cs| > 1 {
      FullIsMerged(cs[1..]);
      assert !Joins(cs[0], cs[1]);
    }
  }

  function MergeAt(cs: seq<Chunk>, i: nat): (r: seq<Chunk>)
    requires i + 1 < |cs|
  {
    cs[..i] + [Join(cs[i], cs[i + 1])] + cs[i + 2..]
  }

  // Whichever pair is merged first, the end result is the same.
  lemma {:induction false} MergeAtMerged(cs: seq<Chunk>, i: nat)
    requires i + 1 < |cs| && Joins(cs[i], cs[i + 1])
    ensures Merged(MergeAt(cs, i)) == Merged(cs)
  {
    var m := MergeAt(cs, i);
    if i > 0 {
      assert m[0] == cs[0] && m[1..] == MergeAt(cs[1..], i - 1);
      MergeAtMerged(cs[1..], i - 1);
    } else if |cs| > 2 {
      assert m[1..] == cs[2..] == cs[1..][1..];
    } else {
      assert m == [Join(cs[0], cs[1])];
      assert Merged(cs[1..]) == cs[1..];
    }
  }
}
