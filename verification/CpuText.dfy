// CPU lists as text: "0-3,7,9-10".
module CpuText {
  import opened Options
  import opened Decimal
  import opened Fields

  const EINVAL := 22
  const INT_MAX := 0x7FFF_FFFF

  function Range(a: int, b: int): (s: seq<int>)
    ensures |s| == if a <= b then b - a + 1 else 0
    ensures forall i :: 0 <= i < |s| ==> s[i] == a + i
    decreases b - a + 1
  {
    if a > b then [] else Range(a, b - 1) + [b]
  }

  // ---------- Reading ----------

  // A field is a number, or two with a minus between them.
  function Values(t: string): (s: seq<int>) {
    var k := Find(t, '-');
    if k < |t| then Range(ToInt(Strtol(t[..k]).value), ToInt(Strtol(t[k + 1..]).value)) else [ToInt(Strtol(t).value)]
  }

  // Whether the reader takes the field. A single number is looked at only when it is stored.
  predicate Accepts(t: string, stored: bool) {
    var k := Find(t, '-');
    t != "" && if k < |t| then k + 1 < |t| && Whole(t[..k]) && Whole(t[k + 1..]) else stored ==> Whole(t)
  }

  function AllValues(ts: seq<string>): (s: seq<int>) {
    if ts == [] then [] else Values(ts[0]) + AllValues(ts[1..])
  }

  // The count the reader ends with, when there is room for `cap` numbers and `rank` have been read.
  function Scan(ts: seq<string>, rank: nat, cap: nat): (r: Option<nat>) {
    if ts == [] then Some(rank)
    else if Accepts(ts[0], rank < cap) then Scan(ts[1..], rank + |Values(ts[0])|, cap)
    else None
  }

  // A range that ends at INT_MAX: no int is greater, so the test of the reader's loop never fails.
  predicate EndlessField(t: string) {
    var k := Find(t, '-');
    k < |t| && ToInt(Strtol(t[k + 1..]).value) == INT_MAX
  }

  // Whether the reader comes to such a range before it refuses a field.
  predicate Endless(ts: seq<string>, rank: nat, cap: nat) {
    ts != [] && Accepts(ts[0], rank < cap) && (EndlessField(ts[0]) || Endless(ts[1..], rank + |Values(ts[0])|, cap))
  }

  lemma ScanNext(ts: seq<string>, rank: nat, cap: nat)
    requires ts != []
    ensures var n := rank + |Values(ts[0])|;
      if Accepts(ts[0], rank < cap) then
        && Scan(ts, rank, cap) == Scan(ts[1..], n, cap)
        && Endless(ts, rank, cap) == (EndlessField(ts[0]) || Endless(ts[1..], n, cap))
        && AllValues(ts) == Values(ts[0]) + AllValues(ts[1..])
      else Scan(ts, rank, cap).None? && !Endless(ts, rank, cap)
  {
    hide Values; hide Accepts; hide EndlessField;
  }

  lemma ScanEnds(rank: nat, cap: nat)
    ensures Scan([], rank, cap) == Some(rank) && !Endless([], rank, cap) && AllValues([]) == []
  {
  }

  lemma {:induction false} ScanCounts(ts: seq<string>, rank: nat, cap: nat)
    ensures Scan(ts, rank, cap).Some? ==> Scan(ts, rank, cap).value == rank + |AllValues(ts)|
  {
    hide Values; hide Accepts;
    if ts != [] { ScanCounts(ts[1..], rank + |Values(ts[0])|, cap); }
  }

  // The counting pass gives the same number as any filling pass that succeeds.
  lemma {:induction false} CountIsFill(ts: seq<string>, rank: nat, cap: nat)
    requires Scan(ts, rank, cap).Some?
    ensures Scan(ts, rank, 0) == Scan(ts, rank, cap)
  {
    hide Values; hide Accepts;
    if ts != [] {
      AcceptsUnstored(ts[0], rank < cap);
      CountIsFill(ts[1..], rank + |Values(ts[0])|, cap);
    }
  }

  lemma AcceptsUnstored(t: string, stored: bool)
    requires Accepts(t, stored)
    ensures Accepts(t, false)
  {
    hide Strtol;
  }

  // The first numbers, as many as there is room for, are in the array.
  ghost predicate Filled(cpus: array?<int>, was: seq<int>, cap: nat, s: seq<int>)
    requires cpus != null ==> |was| == cpus.Length && cap <= cpus.Length
    reads cpus
  {
    cpus != null ==> forall k :: 0 <= k < cpus.Length ==> cpus[k] == if k < cap && k < |s| then s[k] else was[k]
  }

  // Nothing is returned when the reader comes to a range without end.
  method CpuStr2Array(list: Option<string>, num: nat, cpus: array?<int>) returns (ret: Option<int>)
    requires cpus != null ==> num <= cpus.Length
    modifies if cpus == null then {} else {cpus}
    ensures list.None? ==> ret == Some(0)
    ensures list.Some? ==> (ret.None? <==> Endless(Split(list.value, ','), 0, if cpus == null then 0 else num))
    ensures list.Some? && ret.Some? ==>
      var n := Scan(Split(list.value, ','), 0, if cpus == null then 0 else num);
      ret.value == if n.Some? then n.value else -EINVAL
    ensures list.Some? && ret.Some? && ret.value >= 0 && cpus != null ==>
      Filled(cpus, old(cpus[..]), num, AllValues(Split(list.value, ',')))
  {
    hide Values; hide Accepts; hide Split; hide Filled; hide EndlessField; hide Scan; hide Endless; hide AllValues;
    if list.None? { return Some(0); }
    ghost var ts := Split(list.value, ',');
    ghost var was := if cpus == null then [] else cpus[..];
    var cap := if cpus == null then 0 else num;
    FilledNone(cpus, was, cap);
    ghost var done: seq<int>, left := [], ts;
    var more := list;
    var rank: nat := 0;
    while more.Some?
      invariant left == if more.Some? then Split(more.value, ',') else []
      invariant Scan(ts, 0, cap) == Scan(left, rank, cap) && Endless(ts, 0, cap) == Endless(left, rank, cap)
      invariant AllValues(ts) == done + AllValues(left) && rank == |done|
      invariant Filled(cpus, was, cap, done)
      decreases if more.Some? then |more.value| + 1 else 0
    {
      var token, next := Strsep(more.value, ',');
      assert left[0] == token && left[1..] == if next.Some? then Split(next.value, ',') else [];
      ScanNext(left, rank, cap);
      var ok;
      ok, rank := StoreField(token, rank, cap, cpus, was, done);
      if !ok { return Some(-EINVAL); }
      if EndlessField(token) { return None; }
      assert done + (Values(token) + AllValues(left[1..])) == done + Values(token) + AllValues(left[1..]);
      done, left := done + Values(token), left[1..];
      more := next;
    }
    ScanEnds(rank, cap);
    assert done + [] == done;
    ret := Some(rank);
  }

  lemma FilledNone(cpus: array?<int>, was: seq<int>, cap: nat)
    requires cpus != null ==> was == cpus[..] && cap <= cpus.Length
    ensures Filled(cpus, was, cap, [])
  {
  }

  method StoreField(token: string, rank: nat, cap: nat, cpus: array?<int>, ghost was: seq<int>, ghost done: seq<int>)
    returns (ok: bool, rank': nat)
    requires cpus != null ==> cap <= cpus.Length && |was| == cpus.Length
    requires cpus == null ==> cap == 0
    requires rank == |done| && Filled(cpus, was, cap, done)
    modifies if cpus == null then {} else {cpus}
    ensures ok <==> Accepts(token, rank < cap)
    ensures ok ==> rank' == rank + |Values(token)| && Filled(cpus, was, cap, done + Values(token))
  {
    hide Strtol; hide Range;
    if token == "" { return false, rank; }
    var minus := Find(token, '-');
    if minus < |token| {
      if minus + 1 == |token| { return false, rank; }
      var start, end := Strtol(token[..minus]), Strtol(token[minus + 1..]);
      if start.end != minus { return false, rank; }
      if end.end != |token| - minus - 1 { return false, rank; }
      rank' := StoreRange(ToInt(start.value), ToInt(end.value), rank, cap, cpus, was, done);
    } else {
      if cpus != null && cap > rank {
        var number := Strtol(token);
        cpus[rank] := ToInt(number.value);
        if number.end != |token| { return false, rank; }
      }
      rank' := rank + 1;
    }
    ok := true;
  }

  method StoreRange(start: int, end: int, rank0: nat, cap: nat, cpus: array?<int>, ghost was: seq<int>,
      ghost done: seq<int>) returns (rank: nat)
    requires cpus != null ==> cap <= cpus.Length && |was| == cpus.Length
    requires cpus == null ==> cap == 0
    requires rank0 == |done| && Filled(cpus, was, cap, done)
    modifies if cpus == null then {} else {cpus}
    ensures rank == rank0 + |Range(start, end)| && Filled(cpus, was, cap, done + Range(start, end))
  {
    rank := rank0;
    var i := start;
    while i <= end
      invariant start <= i && (i <= end + 1 || i == start) && rank == rank0 + |Range(start, i - 1)|
      invariant Filled(cpus, was, cap, done + Range(start, i - 1))
    {
      if cpus != null && cap > rank { cpus[rank] := i; }
      assert Range(start, i) == Range(start, i - 1) + [i];
      rank := rank + 1;
      i := i + 1;
    }
  }

  // ---------- Writing ----------

  // A maximal stretch of numbers that go up by one.
  datatype Run = Run(first: nat, last: nat)

  function Text(r: Run): (s: string) { if r.first == r.last then Dec(r.first) else Dec(r.first) + "-" + Dec(r.last) }

  function Push(rs: seq<Run>, x: nat): (r: seq<Run>)
    ensures r != [] && r[|r| - 1].last == x
  {
    var n := |rs|;
    if n > 0 && rs[n - 1].last + 1 == x then rs[..n - 1] + [Run(rs[n - 1].first, x)] else rs + [Run(x, x)]
  }

  function RunsOf(l: seq<nat>): (rs: seq<Run>)
    ensures l != [] ==> rs != [] && rs[|rs| - 1].last == l[|l| - 1]
  {
    if l == [] then [] else Push(RunsOf(l[..|l| - 1]), l[|l| - 1])
  }

  ghost predicate Proper(rs: seq<Run>) {
    forall i :: 0 <= i < |rs| ==> rs[i].first <= rs[i].last
  }

  lemma {:induction false} RunsProper(l: seq<nat>)
    ensures Proper(RunsOf(l))
  {
    if l != [] { RunsProper(l[..|l| - 1]); }
  }

  // The printer leaves out a lone 0 unless it is the last thing to print.
  function Kept(rs: seq<Run>): (r: seq<Run>) {
    if rs == [] then []
    else
      var k := Kept(rs[..|rs| - 1]);
      if rs[|rs| - 1].last == 0 then k else k + [rs[|rs| - 1]]
  }

  function Printed(rs: seq<Run>): (r: seq<Run>)
    requires rs != []
  {
    Kept(rs[..|rs| - 1]) + [rs[|rs| - 1]]
  }

  function Texts(rs: seq<Run>): (ts: seq<string>)
    ensures |ts| == |rs| && forall i :: 0 <= i < |rs| ==> ts[i] == Text(rs[i])
  {
    seq(|rs|, i requires 0 <= i < |rs| => Text(rs[i]))
  }

  // What has been written when the run `r` is the current one, after the runs `ks`.
  function SoFar(ks: seq<Run>, r: Run): (s: string) {
    Trail(Texts(ks), ',') + if r.first == r.last then "" else Dec(r.first) + "-"
  }

  lemma SoFarCloses(ks: seq<Run>, r: Run)
    ensures SoFar(ks, r) + Dec(r.last) == Trail(Texts(ks), ',') + Text(r)
    ensures SoFar(ks, r) + Dec(r.last) + "," == Trail(Texts(ks + [r]), ',')
  {
    var ts := Texts(ks + [r]);
    assert ts[..|ts| - 1] == Texts(ks);
  }

  lemma PushSplits(rs: seq<Run>, x: nat)
    requires rs != []
    ensures var n, r := |rs| - 1, Push(rs, x);
      if rs[n].last + 1 == x then r[..|r| - 1] == rs[..n] && r[|r| - 1] == Run(rs[n].first, x)
      else r[..|r| - 1] == rs && r[|r| - 1] == Run(x, x)
  {
  }

  ghost predicate NotNegative(cpus: seq<int>) {
    forall i :: 0 <= i < |cpus| ==> cpus[i] >= 0
  }

  method CpuArray2Str(cpus: seq<int>) returns (str: string)
    ensures NotNegative(cpus) ==> str == if cpus == [] then "" else Join(Texts(Printed(RunsOf(cpus))), ',')
  {
    hide Push; hide Trail; hide Texts; hide Kept; hide SoFar; hide Dec;
    str := "";
    var prev, inSeq := -10, false;
    ghost var sane, rs: seq<Run> := NotNegative(cpus), [];
    for i := 0 to |cpus|
      invariant sane ==> rs == RunsOf(cpus[..i])
      invariant i == 0 ==> prev == -10 && !inSeq && str == ""
      invariant sane && i > 0 ==> rs != [] && Proper(rs) && prev == rs[|rs| - 1].last == cpus[i - 1]
      invariant sane && i > 0 ==>
        (inSeq <==> rs[|rs| - 1].first < prev) && str == SoFar(Kept(rs[..|rs| - 1]), rs[|rs| - 1])
    {
      var x := cpus[i];
      if sane {
        assert cpus[..i + 1][..i] == cpus[..i];
        RunsProper(cpus[..i + 1]);
        if i > 0 { PrintStep(rs, x); } else { PrintFirst(x); }
        rs := Push(rs, x);
      }
      if prev != x - 1 {
        if prev > 0 { str := str + DecInt(prev) + ","; }
        inSeq := false;
      } else if !inSeq {
        str := str + DecInt(prev) + "-";
        inSeq := true;
      }
      prev := x;
    }
    assert cpus[..|cpus|] == cpus;
    if prev >= 0 {
      if sane { PrintLast(rs); }
      str := str + DecInt(prev);
    }
  }

  lemma PrintFirst(x: nat)
    ensures Push([], x) == [Run(x, x)] && SoFar(Kept(Push([], x)[..0]), Run(x, x)) == ""
  {
    assert Push([], x)[..0] == [];
  }

  // How the text grows with the next number.
  lemma PrintStep(rs: seq<Run>, x: nat)
    requires rs != [] && Proper(rs)
    ensures var n, rs' := |rs| - 1, Push(rs, x);
      var was, now := SoFar(Kept(rs[..n]), rs[n]), SoFar(Kept(rs'[..|rs'| - 1]), rs'[|rs'| - 1]);
      && rs'[|rs'| - 1].first == (if rs[n].last + 1 == x then rs[n].first else x)
      && now == (if rs[n].last + 1 == x then (if rs[n].first < rs[n].last then was else was + Dec(rs[n].last) + "-")
                 else if rs[n].last > 0 then was + Dec(rs[n].last) + ","
                 else was)
  {
    hide Push; hide Trail; hide Texts; hide Dec;
    var n := |rs| - 1;
    PushSplits(rs, x);
    SoFarCloses(Kept(rs[..n]), rs[n]);
  }

  lemma PrintLast(rs: seq<Run>)
    requires rs != []
    ensures SoFar(Kept(rs[..|rs| - 1]), rs[|rs| - 1]) + Dec(rs[|rs| - 1].last) == Join(Texts(Printed(rs)), ',')
  {
    var ks, r := Kept(rs[..|rs| - 1]), rs[|rs| - 1];
    SoFarCloses(ks, r);
    JoinIsTrail(Texts(ks), Text(r), ',');
    assert Texts(Printed(rs)) == Texts(ks) + [Text(r)];
  }

  // ---------- Round trip ----------

  function Numbers(rs: seq<Run>): (s: seq<int>) {
    if rs == [] then [] else Range(rs[0].first, rs[0].last) + Numbers(rs[1..])
  }

  // INT_MAX as the end of a range would not stop the reader's loop.
  ghost predicate Readable(rs: seq<Run>) {
    forall i :: 0 <= i < |rs| ==> rs[i].first <= rs[i].last < 0x7FFF_FFFF
  }

  lemma NumberReads(n: nat)
    requires n < 0x7FFF_FFFF
    ensures Whole(Dec(n)) && ToInt(Strtol(Dec(n)).value) == n && ',' !in Dec(n) && '-' !in Dec(n)
  {
    DecHasNo(n, ',');
    DecHasNo(n, '-');
    StrtolDec(n);
  }

  lemma TextReads(r: Run, stored: bool)
    requires r.first <= r.last < 0x7FFF_FFFF
    ensures Accepts(Text(r), stored) && Values(Text(r)) == Range(r.first, r.last) && ',' !in Text(r)
      && !EndlessField(Text(r))
  {
    hide Strtol; hide Dec; hide Whole; hide ToInt; hide Find; hide Range;
    var t := Text(r);
    NumberReads(r.first);
    NumberReads(r.last);
    RangeOne(r.first);
    if r.first == r.last {
      assert t[..|t|] == t;
      FindAt(t, '-', |t|);
    } else {
      var k := |Dec(r.first)|;
      assert t[..k] == Dec(r.first) && t[k + 1..] == Dec(r.last) && t[k] == '-';
      FindAt(t, '-', k);
    }
  }

  lemma RangeOne(a: int)
    ensures Range(a, a) == [a]
  {
    assert Range(a, a - 1) == [];
  }

  lemma {:induction false} TextsRead(rs: seq<Run>, rank: nat, cap: nat)
    requires Readable(rs)
    ensures AllValues(Texts(rs)) == Numbers(rs) && Scan(Texts(rs), rank, cap) == Some(rank + |Numbers(rs)|)
    ensures !Endless(Texts(rs), rank, cap)
  {
    hide Accepts; hide Values; hide Text; hide EndlessField;
    if rs != [] {
      TextReads(rs[0], rank < cap);
      assert Texts(rs)[1..] == Texts(rs[1..]);
      TextsRead(rs[1..], rank + |Range(rs[0].first, rs[0].last)|, cap);
    }
  }

  lemma PrintedReads(rs: seq<Run>, cap: nat)
    requires rs != [] && Readable(rs)
    ensures Split(Join(Texts(rs), ','), ',') == Texts(rs)
    ensures AllValues(Texts(rs)) == Numbers(rs) && Scan(Texts(rs), 0, cap) == Some(|Numbers(rs)|)
      && !Endless(Texts(rs), 0, cap)
  {
    hide Text; hide Accepts; hide Values; hide AllValues; hide Scan; hide Numbers; hide Join; hide Split; hide Endless;
    forall i | 0 <= i < |rs| ensures ',' !in Texts(rs)[i] {
      TextReads(rs[i], false);
    }
    SplitJoin(Texts(rs), ',');
    TextsRead(rs, 0, cap);
  }

  lemma {:induction false} NumbersConcat(a: seq<Run>, b: seq<Run>)
    ensures Numbers(a + b) == Numbers(a) + Numbers(b)
  {
    if a == [] {
      assert a + b == b;
    } else {
      assert (a + b)[1..] == a[1..] + b;
      NumbersConcat(a[1..], b);
    }
  }

  lemma NumbersOne(r: Run)
    ensures Numbers([r]) == Range(r.first, r.last)
  {
    assert [r][1..] == [];
  }

  // A number of the list is lost if it is 0, not the last, and not followed by 1.
  predicate Lost(l: seq<nat>, i: nat)
    requires i < |l|
  {
    i + 1 < |l| && l[i] == 0 && l[i + 1] != 1
  }

  function Survivors(l: seq<nat>, k: nat): (r: seq<int>)
    requires k <= |l|
  {
    if k == 0 then []
    else if Lost(l, k - 1) then Survivors(l, k - 1) else Survivors(l, k - 1) + [l[k - 1]]
  }

  lemma {:induction false} RunsAreSurvivors(l: seq<nat>, i: nat)
    requires 0 < i <= |l|
    ensures Numbers(Printed(RunsOf(l[..i]))) == Survivors(l, i - 1) + [l[i - 1]]
  {
    hide Numbers; hide Printed; hide Push;
    assert l[..i][..i - 1] == l[..i - 1];
    if i == 1 {
      FirstSurvives(l[0]);
    } else {
      RunsAreSurvivors(l, i - 1);
      RunsProper(l[..i - 1]);
      PrintedStep(RunsOf(l[..i - 1]), l[i - 1]);
    }
  }

  lemma FirstSurvives(x: nat)
    ensures Numbers(Printed(Push([], x))) == [x]
  {
    var r := Run(x, x);
    assert Push([], x) == [r] && [r][..0] == [];
    assert Printed([r]) == [r];
    NumbersOne(r);
    RangeOne(x);
  }

  // Adding a number to the runs adds it to the numbers printed, and loses the one before if that was a lone 0.
  lemma PrintedStep(rs: seq<Run>, x: nat)
    requires rs != [] && Proper(rs)
    ensures var prev, was := rs[|rs| - 1].last, Numbers(Printed(rs));
      was != [] && Numbers(Printed(Push(rs, x))) == (if prev == 0 && x != 1 then was[..|was| - 1] else was) + [x]
  {
    hide Push;
    var n := |rs| - 1;
    var ks, r := Kept(rs[..n]), rs[n];
    PushSplits(rs, x);
    NumbersConcat(ks, [r]);
    NumbersOne(r);
    if r.last + 1 == x {
      NumbersConcat(ks, [Run(r.first, x)]);
      NumbersOne(Run(r.first, x));
    } else {
      NumbersConcat(Kept(rs), [Run(x, x)]);
      NumbersOne(Run(x, x));
      assert r.last == 0 ==> Range(r.first, r.last) == [0];
    }
  }

  // Whatever the array's size, reading back what was printed gives the list without its lost zeros.
  lemma PrintThenRead(l: seq<nat>, cap: nat)
    requires l != [] && forall i :: 0 <= i < |l| ==> l[i] < 0x7FFF_FFFF
    ensures var ts := Split(Join(Texts(Printed(RunsOf(l))), ','), ',');
      AllValues(ts) == Survivors(l, |l|) && Scan(ts, 0, cap) == Some(|Survivors(l, |l|)|) && !Endless(ts, 0, cap)
  {
    hide Push; hide Text; hide Kept; hide Endless;
    assert l[..|l|] == l;
    RunsAreSurvivors(l, |l|);
    PrintedReadable(l);
    PrintedReads(Printed(RunsOf(l)), cap);
  }

  lemma PrintedReadable(l: seq<nat>)
    requires l != [] && forall i :: 0 <= i < |l| ==> l[i] < 0x7FFF_FFFF
    ensures Readable(Printed(RunsOf(l)))
  {
    hide RunsOf; hide Kept;
    var rs := RunsOf(l);
    RunsReadable(l);
    KeptReadable(rs[..|rs| - 1]);
  }

  lemma {:induction false} RunsReadable(l: seq<nat>)
    requires forall i :: 0 <= i < |l| ==> l[i] < 0x7FFF_FFFF
    ensures Readable(RunsOf(l))
  {
    if l != [] { RunsReadable(l[..|l| - 1]); }
  }

  lemma {:induction false} KeptReadable(rs: seq<Run>)
    requires Readable(rs)
    ensures Readable(Kept(rs))
  {
    if rs != [] { KeptReadable(rs[..|rs| - 1]); }
  }

  // The round trip gives the same list exactly when no zero is lost.
  lemma RoundTripExactly(l: seq<nat>)
    requires l != [] && forall i :: 0 <= i < |l| ==> l[i] < 0x7FFF_FFFF
    ensures AllValues(Split(Join(Texts(Printed(RunsOf(l))), ','), ',')) == l <==>
      forall i :: 0 <= i < |l| ==> !Lost(l, i)
  {
    PrintThenRead(l, 0);
    SurvivorsExactly(l, |l|);
    assert l[..|l|] == l;
  }

  lemma {:induction false} SurvivorsExactly(l: seq<nat>, k: nat)
    requires k <= |l|
    ensures |Survivors(l, k)| <= k
    ensures |Survivors(l, k)| == k <==> forall i :: 0 <= i < k ==> !Lost(l, i)
    ensures (forall i :: 0 <= i < k ==> !Lost(l, i)) ==> Survivors(l, k) == l[..k]
  {
    if k > 0 { SurvivorsExactly(l, k - 1); }
  }

  // The 0 of this list does not come back.
  lemma LosesZero()
    ensures Lost([0, 5], 0) && AllValues(Split(Join(Texts(Printed(RunsOf([0, 5]))), ','), ',')) == [5]
  {
    var l: seq<nat> := [0, 5];
    PrintThenRead(l, 0);
    assert Survivors(l, 0) == [] && Survivors(l, 1) == [] && Survivors(l, 2) == [5];
  }
}
