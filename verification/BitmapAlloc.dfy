/**
 The bitmap block allocator.  A map word is the set of its one bits; block b is bit b % 64 of
 word b / 64.  Addresses are computed in 32 bits, as the source computes them.
 */
module BitmapAlloc {
  import opened RingMath

  const WORD := 64
  const TWO_32 := 0x1_0000_0000

  function Pow2(n: nat): (p: nat)
    ensures p >= 1
  {
    if n == 0 then 1 else 2 * Pow2(n - 1)
  }

  // Position of the highest one bit, counted from 1; 0 for 0.
  function Fls(x: nat): (n: nat)
    ensures n >= 1 <==> x >= 1
  {
    if x == 0 then 0 else 1 + Fls(x / 2)
  }

  // fls(unit) - 1 is the exponent of the largest power of two that is at most the unit.
  lemma {:induction false} FlsRoundsDown(x: nat)
    requires x >= 1
    ensures Pow2(Fls(x) - 1) <= x < 2 * Pow2(Fls(x) - 1)
  {
    if x >= 2 { FlsRoundsDown(x / 2); }
  }

  predicate Within(first: nat, len: nat, b: int) { first <= b < first + len }

  function Span(first: nat, len: nat): set<nat> { set b: nat | first <= b < first + len && Within(first, len, b) }

  const FULL := Span(0, WORD)

  // Below 32 blocks a request is met inside one word; from 32 on it takes whole words.
  function Words(npages: nat): nat { (npages + 63) / WORD }

  // The blocks a request takes out of the map.
  function Taken(npages: nat): nat { if npages >= 32 then WORD * Words(npages) else npages }

  // The request takes exactly the blocks it will give back.
  predicate GoodSize(npages: nat) { npages < 32 || npages % WORD == 0 }

  lemma TakenExactly(npages: nat)
    ensures npages <= Taken(npages) && (Taken(npages) == npages <==> GoodSize(npages))
  {
  }

  // Somewhere in word mi, which is not full, n blocks from bit j are free.
  ghost predicate SmallFit(words: seq<set<nat>>, n: nat, mi: nat, j: nat) {
    mi < |words| && j + n <= WORD && words[mi] != FULL && words[mi] * Span(j, n) == {}
  }

  // The nb words from mi are free, and the last word of the map is not among them.
  ghost predicate LargeFit(words: seq<set<nat>>, nb: nat, mi: nat) {
    mi + nb < |words| && forall i :: mi <= i < mi + nb ==> words[i] == {}
  }

  ghost predicate Fits(words: seq<set<nat>>, n: nat, b: nat) {
    if n >= 32 then b % WORD == 0 && LargeFit(words, Words(n), b / WORD)
    else SmallFit(words, n, b / WORD, b % WORD)
  }

  // The blocks marked in a map.
  ghost function Marked(words: seq<set<nat>>): set<nat> {
    set b | 0 <= b < WORD * |words| && b % WORD in words[b / WORD]
  }

  ghost predicate WellFormed(words: seq<set<nat>>) {
    forall i :: 0 <= i < |words| ==> words[i] <= FULL
  }

  lemma SmallMarks(words: seq<set<nat>>, n: nat, mi: nat, j: nat)
    requires WellFormed(words) && SmallFit(words, n, mi, j)
    ensures var words' := words[mi := words[mi] + Span(j, n)];
      WellFormed(words') && Marked(words') == Marked(words) + Span(WORD * mi + j, n)
      && Marked(words) !! Span(WORD * mi + j, n) && WORD * mi + j + n <= WORD * |words|
  {
    var words' := words[mi := words[mi] + Span(j, n)];
    forall b | b in Span(WORD * mi + j, n) ensures b / WORD == mi && b % WORD == b - WORD * mi && b !in Marked(words) {
      assert b % WORD in Span(j, n);
      assert b % WORD !in words[mi] * Span(j, n);
    }
    forall b ensures b in Marked(words') <==> b in Marked(words) || b in Span(WORD * mi + j, n) {
      if 0 <= b < WORD * |words| && b / WORD == mi { assert b % WORD in Span(j, n) <==> Within(WORD * mi + j, n, b); }
    }
  }

  ghost function FillWords(words: seq<set<nat>>, mi: nat, nb: nat): (words': seq<set<nat>>)
    requires mi + nb <= |words|
    ensures |words'| == |words|
  {
    seq(|words|, i requires 0 <= i < |words| => if mi <= i < mi + nb then FULL else words[i])
  }

  lemma LargeMarks(words: seq<set<nat>>, mi: nat, nb: nat)
    requires WellFormed(words) && LargeFit(words, nb, mi)
    ensures var words' := FillWords(words, mi, nb);
      WellFormed(words') && Marked(words') == Marked(words) + Span(WORD * mi, WORD * nb)
      && Marked(words) !! Span(WORD * mi, WORD * nb)
  {
  }

  lemma ClearMarks(words: seq<set<nat>>, b: nat)
    requires WellFormed(words) && b < WORD * |words|
    ensures var words' := words[b / WORD := words[b / WORD] - {b % WORD}];
      WellFormed(words') && Marked(words') == Marked(words) - {b}
  {
  }

  // In a map of two free words a request of 33 blocks takes 64, of which 31 stay marked when it is given back.
  lemma TakesTooMuch()
    ensures var words: seq<set<nat>> := [{}, {}];
      Fits(words, 33, 0) && Marked(FillWords(words, 0, Words(33))) - Span(0, 33) == Span(33, 31)
  {
    var words: seq<set<nat>> := [{}, {}];
    LargeMarks(words, 0, 1);
    assert Marked(words) == {};
    assert Span(0, 64) - Span(0, 33) == Span(33, 31);
  }

  datatype Range = Range(first: nat, len: nat)

  ghost function Blocks(r: Range): set<nat> { Span(r.first, r.len) }

  ghost function LiveBlocks(live: map<nat, Range>): set<nat> {
    set h, b | h in live && b in Blocks(live[h]) :: b
  }

  class Allocator {
    const start: nat
    const shift: nat
    const last: nat
    var words: array<set<nat>>
    // The ranges handed out and not given back, by ticket; the blocks lost; whether all sizes were good.
    ghost var live: map<nat, Range>
    ghost var leaked: set<nat>
    ghost var allGood: bool

    // The region managed, in blocks of 2^shift bytes, does not begin at 0 and is at most 4 GiB.
    ghost predicate Region()
      reads this
    {
      start > 0 && WORD * words.Length * Pow2(shift) <= TWO_32
    }

    ghost predicate Valid()
      reads this, words
    {
      && Region() && last == 0 && WellFormed(words[..])
      && (forall h :: h in live ==> live[h].first + live[h].len <= WORD * words.Length)
      && (forall h, g :: h in live && g in live && h != g ==> Blocks(live[h]) !! Blocks(live[g]))
      && Marked(words[..]) == LiveBlocks(live) + leaked && LiveBlocks(live) !! leaked
      && (leaked == {} <==> allGood)
    }

    // A map of whole words starts empty.
    constructor (start: nat, size: nat, unit: nat)
      requires start > 0 && unit > 0 && size < TWO_32 && (size / Pow2(Fls(unit) - 1)) % WORD == 0
      ensures Valid() && live == map[] && allGood && this.start == start && fresh(words)
      ensures shift == Fls(unit) - 1 && words.Length * WORD == size / Pow2(shift)
    {
      this.start := start;
      this.shift := Fls(unit) - 1;
      this.last := 0;
      var mapsize := size / Pow2(Fls(unit) - 1);
      words := new set<nat>[Words(mapsize)](_ => {});
      live, leaked, allGood := map[], {}, true;
      new;
      MapBound(size, Pow2(shift));
      assert forall i :: 0 <= i < words.Length ==> words[..][i] == {};
      assert Marked(words[..]) == {};
    }

    function Address(mi: nat, bit: nat): nat {
      start + ((mi * WORD + bit) * Pow2(shift)) % TWO_32
    }

    lemma AddressExact(b: nat)
      requires Region() && b < WORD * words.Length
      ensures Address(b / WORD, b % WORD) == start + b * Pow2(shift) > 0
      ensures (Address(b / WORD, b % WORD) - start) / Pow2(shift) == b
    {
      assert b / WORD * WORD + b % WORD == b;
      assert b * Pow2(shift) < WORD * words.Length * Pow2(shift);
      DivExact(b, Pow2(shift));
    }

    // Finds the first word that is all zero bits over nblocks words and fills those words.
    method AllocLarge(nblocks: nat) returns (address: nat, ghost b: nat)
      requires Valid() && nblocks >= 1
      modifies words
      ensures address == 0 ==> words[..] == old(words[..]) && forall mi :: !LargeFit(old(words[..]), nblocks, mi)
      ensures address != 0 ==>
        b % WORD == 0 && LargeFit(old(words[..]), nblocks, b / WORD) && address == Address(b / WORD, 0)
      ensures address != 0 ==> words[..] == FillWords(old(words[..]), b / WORD, nblocks)
      ensures address != 0 ==> forall mi :: 0 <= mi < b / WORD ==> !LargeFit(old(words[..]), nblocks, mi)
    {
      b := 0;
      var i, mi := 0, last;
      while i < words.Length
        invariant mi == i <= words.Length && words[..] == old(words[..])
        invariant forall m :: 0 <= m < mi ==> !LargeFit(words[..], nblocks, m)
      {
        if mi > words.Length { mi := 0; }
        if mi + nblocks < words.Length {
          var j := mi;
          while j < mi + nblocks && words[j] == {}
            invariant mi <= j <= mi + nblocks
            invariant forall k :: mi <= k < j ==> words[..][k] == {}
          {
            j := j + 1;
          }
          if j == mi + nblocks {
            b := WORD * mi;
            AddressExact(b);
            FillRun(mi, nblocks);
            return Address(mi, 0), b;
          }
          assert words[..][j] != {};
        }
        i, mi := i + 1, mi + 1;
      }
      return 0, b;
    }

    method FillRun(mi: nat, nblocks: nat)
      requires mi + nblocks <= words.Length
      modifies words
      ensures words[..] == FillWords(old(words[..]), mi, nblocks)
    {
      var j := mi;
      while j < mi + nblocks
        invariant mi <= j <= mi + nblocks
        invariant forall k :: 0 <= k < words.Length ==> words[k] == if mi <= k < j then FULL else old(words[k])
      {
        words[j] := FULL;
        j := j + 1;
      }
    }

    // Finds the first place inside a word for the request and marks it.
    method AllocSmall(npages: nat) returns (address: nat, ghost b: nat)
      requires Valid() && npages < 32
      modifies words
      ensures address == 0 ==> words[..] == old(words[..]) && forall mi, j :: !SmallFit(old(words[..]), npages, mi, j)
      ensures address != 0 ==>
        SmallFit(old(words[..]), npages, b / WORD, b % WORD) && address == Address(b / WORD, b % WORD)
      ensures address != 0 ==>
        words[..] == old(words[..])[b / WORD := old(words[..])[b / WORD] + Span(b % WORD, npages)]
      ensures address != 0 ==> forall mi, j :: 0 <= mi < b / WORD ==> !SmallFit(old(words[..]), npages, mi, j)
      ensures address != 0 ==> forall j :: 0 <= j < b % WORD ==> !SmallFit(old(words[..]), npages, b / WORD, j)
    {
      b := 0;
      var i, mi := 0, last;
      while i < words.Length
        invariant mi == i <= words.Length && words[..] == old(words[..])
        invariant forall m, j :: 0 <= m < mi ==> !SmallFit(words[..], npages, m, j)
      {
        if mi > words.Length { mi := 0; }
        var v := words[mi];
        if v != FULL {
          var j := 0;
          while j <= WORD - npages
            invariant 0 <= j <= WORD - npages + 1
            invariant forall k :: 0 <= k < j ==> !SmallFit(words[..], npages, mi, k)
          {
            if v * Span(j, npages) == {} {
              assert SmallFit(words[..], npages, mi, j);
              if j == WORD {
                assert npages == 0 && SmallFit(words[..], npages, mi, 0);
              }
              b := WORD * mi + j;
              AddressExact(b);
              words[mi] := v + Span(j, npages);
              return Address(mi, j), b;
            }
            j := j + 1;
          }
        }
        i, mi := i + 1, mi + 1;
      }
      return 0, b;
    }

    // Returns the address of the first place that fits, or 0 when none does.  The range handed out was
    // free, meets no live range, and what the request takes beyond its size is lost.
    method Alloc(npages: nat, ghost ticket: nat) returns (address: nat, ghost b: nat)
      requires Valid() && ticket !in live
      modifies this, words
      ensures Valid() && words == old(words)
      ensures address == 0 <==> forall c: nat :: !Fits(old(words[..]), npages, c)
      ensures address == 0 ==>
        words[..] == old(words[..]) && live == old(live) && leaked == old(leaked) && allGood == old(allGood)
      ensures address != 0 ==>
        address == start + b * Pow2(shift) && Fits(old(words[..]), npages, b)
          && forall c: nat :: c < b ==> !Fits(old(words[..]), npages, c)
      ensures address != 0 ==>
        live == old(live)[ticket := Range(b, npages)] && (allGood <==> old(allGood) && GoodSize(npages))
    {
      TakenExactly(npages);
      address, b := AllocWords(npages);
      if address != 0 {
        NewRange(live, leaked, Marked(old(words[..])), ticket, b, npages);
        live := live[ticket := Range(b, npages)];
        leaked := leaked + Span(b + npages, Taken(npages) - npages);
        allGood := allGood && GoodSize(npages);
      }
    }

    method AllocWords(npages: nat) returns (address: nat, ghost b: nat)
      requires Valid()
      modifies words
      ensures WellFormed(words[..])
      ensures address == 0 ==> words[..] == old(words[..]) && forall c: nat :: !Fits(old(words[..]), npages, c)
      ensures address != 0 ==>
        address == start + b * Pow2(shift) && Fits(old(words[..]), npages, b)
          && forall c: nat :: c < b ==> !Fits(old(words[..]), npages, c)
      ensures address != 0 ==>
        Marked(words[..]) == Marked(old(words[..])) + Span(b, Taken(npages))
          && Marked(old(words[..])) !! Span(b, Taken(npages))
      ensures address != 0 ==> b + Taken(npages) <= WORD * words.Length
    {
      if npages >= 32 {
        address, b := AllocLarge(Words(npages));
        if address != 0 {
          AddressExact(b);
          LargeMarks(old(words[..]), b / WORD, Words(npages));
        }
      } else {
        address, b := AllocSmall(npages);
        if address != 0 {
          AddressExact(b);
          SmallMarks(old(words[..]), npages, b / WORD, b % WORD);
        }
      }
    }

    // Gives back a live range; only its own blocks are cleared.
    method Free(address: nat, npages: nat, ghost ticket: nat)
      requires Valid() && ticket in live && live[ticket].len == npages
        && address == start + live[ticket].first * Pow2(shift)
      modifies this, words
      ensures Valid() && words == old(words) && live == old(live) - {ticket} && leaked == old(leaked)
        && allGood == old(allGood)
      ensures Marked(words[..]) == Marked(old(words[..])) - Blocks(old(live)[ticket])
    {
      ghost var first := live[ticket].first;
      DivExact(first, Pow2(shift));
      var mi := (address - start) / Pow2(shift);
      var i := 0;
      assert Span(first, 0) == {};
      while i < npages
        invariant i <= npages && mi == first + i && words == old(words)
        invariant live == old(live) && leaked == old(leaked) && allGood == old(allGood)
        invariant WellFormed(words[..]) && Marked(words[..]) == Marked(old(words[..])) - Span(first, i)
      {
        ghost var before := words[..];
        ClearMarks(before, mi);
        words[mi / WORD] := words[mi / WORD] - {mi % WORD};
        assert words[..] == before[mi / WORD := before[mi / WORD] - {mi % WORD}];
        assert Span(first, i + 1) == Span(first, i) + {mi};
        i, mi := i + 1, mi + 1;
      }
      DropRange(live, leaked, ticket);
      live := live - {ticket};
    }

    // Any run of requests and matching frees.  Whatever was asked, the live ranges are in bounds, disjoint
    // and marked (Valid); the map marks nothing else exactly when every size handed out was below 32 or a
    // multiple of 64.
    method Run(ops: seq<Op>) returns (sizes: seq<nat>)
      requires Valid() && live == map[] && allGood
      modifies this, words
      ensures Valid()
      ensures LiveBlocks(live) <= Marked(words[..])
      ensures Marked(words[..]) == LiveBlocks(live) <==> AllGoodSizes(sizes)
    {
      hide AllGoodSizes; hide LiveBlocks; hide Marked;
      sizes := [];
      assert AllGoodSizes([]) by { NoSizes(); }
      var held: map<nat, (nat, nat)> := map[];
      var i := 0;
      while i < |ops|
        invariant 0 <= i <= |ops| && Valid() && words == old(words)
        invariant held.Keys == live.Keys && (forall t :: t in held ==> t < i)
        invariant forall t :: t in held ==> held[t].1 == live[t].len && held[t].0 == start + live[t].first * Pow2(shift)
        invariant allGood <==> AllGoodSizes(sizes)
      {
        match ops[i] {
          case AllocOp(npages) =>
            var address, b := Alloc(npages, i);
            if address != 0 {
              held := held[i := (address, npages)];
              AllGoodSnoc(sizes, npages);
              sizes := sizes + [npages];
            }
          case FreeOp(t) =>
            if t in held {
              Free(held[t].0, held[t].1, t);
              held := held - {t};
            }
        }
        i := i + 1;
      }
    }
  }

  predicate AllGoodSizes(sizes: seq<nat>) { forall k :: 0 <= k < |sizes| ==> GoodSize(sizes[k]) }

  lemma NoSizes()
    ensures AllGoodSizes([])
  {
  }

  lemma AllGoodSnoc(sizes: seq<nat>, n: nat)
    ensures AllGoodSizes(sizes + [n]) <==> AllGoodSizes(sizes) && GoodSize(n)
  {
    assert (sizes + [n])[|sizes|] == n;
    assert forall k :: 0 <= k < |sizes| ==> (sizes + [n])[k] == sizes[k];
  }

  // A free names the request, by its place in the run, whose range it gives back.
  datatype Op = AllocOp(npages: nat) | FreeOp(request: nat)

  lemma DropRange(live: map<nat, Range>, leaked: set<nat>, ticket: nat)
    requires ticket in live && LiveBlocks(live) !! leaked
    requires forall h, g :: h in live && g in live && h != g ==> Blocks(live[h]) !! Blocks(live[g])
    ensures LiveBlocks(live) + leaked - Blocks(live[ticket]) == LiveBlocks(live - {ticket}) + leaked
    ensures LiveBlocks(live - {ticket}) !! leaked && Blocks(live[ticket]) <= LiveBlocks(live)
  {
    var live' := live - {ticket};
    forall x ensures x in LiveBlocks(live') <==> x in LiveBlocks(live) && x !in Blocks(live[ticket]) {
      if x in LiveBlocks(live) && x !in Blocks(live[ticket]) {
        var h :| h in live && x in Blocks(live[h]);
        assert h in live';
      }
      if x in LiveBlocks(live') {
        var h :| h in live' && x in Blocks(live'[h]);
        assert h in live && x in Blocks(live[h]) && Blocks(live[h]) !! Blocks(live[ticket]);
      }
    }
  }

  // Marking the blocks of a request adds its range to the live ones and the rest to the lost ones.
  lemma NewRange(live: map<nat, Range>, leaked: set<nat>, marked: set<nat>, ticket: nat, b: nat, npages: nat)
    requires ticket !in live && marked == LiveBlocks(live) + leaked && LiveBlocks(live) !! leaked
    requires marked !! Span(b, Taken(npages)) && npages <= Taken(npages)
    ensures var live' := live[ticket := Range(b, npages)];
      var leaked' := leaked + Span(b + npages, Taken(npages) - npages);
      && marked + Span(b, Taken(npages)) == LiveBlocks(live') + leaked' && LiveBlocks(live') !! leaked'
      && (forall h :: h in live ==> Blocks(live[h]) !! Span(b, npages))
      && (leaked' == {} <==> leaked == {} && Taken(npages) == npages)
  {
    var live' := live[ticket := Range(b, npages)];
    forall x ensures x in LiveBlocks(live') <==> x in LiveBlocks(live) || x in Span(b, npages) {
      if x in Span(b, npages) { assert ticket in live' && x in Blocks(live'[ticket]); }
      if x in LiveBlocks(live) {
        var h :| h in live && x in Blocks(live[h]);
        assert live'[h] == live[h];
      }
    }
    forall h | h in live ensures Blocks(live[h]) !! Span(b, npages) {
      assert Blocks(live[h]) <= LiveBlocks(live);
      assert Span(b, npages) <= Span(b, Taken(npages));
    }
    if Taken(npages) > npages { assert b + npages in Span(b + npages, Taken(npages) - npages); }
  }

  lemma MapBound(size: nat, u: nat)
    requires u >= 1 && (size / u) % WORD == 0
    ensures Words(size / u) * WORD == size / u && WORD * Words(size / u) * u <= size
  {
    assert size == u * (size / u) + size % u;
    assert WORD * Words(size / u) == size / u;
  }

  lemma DivExact(b: nat, u: nat)
    requires u >= 1
    ensures (b * u) / u == b
  {
    ModUnique(b * u, u, b, 0);
    var d := (b * u) / u;
    assert u * (b - d) == 0;
  }
}
