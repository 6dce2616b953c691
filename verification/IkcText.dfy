// IKC maps as text: "1,2:0+3:4" sends the messages of CPUs 1 and 2 to CPU 0 and those of 3 to 4.
module IkcText {
  import opened Options
  import opened Decimal
  import opened Fields
  import CpuText

  const EINVAL := 22
  const MAX_CPUS := 1024

  // The sources that send to d, in order.
  function Group(srcs: seq<int>, dsts: seq<int>, d: int): (g: seq<int>)
    requires |srcs| == |dsts|
  {
    var n := |srcs| - 1;
    if srcs == [] then []
    else
      var g := Group(srcs[..n], dsts[..n], d);
      if dsts[n] == d then g + [srcs[n]] else g
  }

  lemma GroupNext(srcs: seq<int>, dsts: seq<int>, i: nat, d: int)
    requires |srcs| == |dsts| && i < |srcs|
    ensures var g := Group(srcs[..i], dsts[..i], d);
      Group(srcs[..i + 1], dsts[..i + 1], d) == if dsts[i] == d then g + [srcs[i]] else g
  {
    assert srcs[..i + 1][..i] == srcs[..i] && dsts[..i + 1][..i] == dsts[..i];
  }

  lemma {:induction false} GroupPrefix(srcs: seq<int>, dsts: seq<int>, i: nat, d: int)
    requires |srcs| == |dsts| && i <= |srcs|
    ensures Group(srcs[..i], dsts[..i], d) <= Group(srcs, dsts, d)
    decreases |srcs| - i
  {
    if i == |srcs| {
      assert srcs[..i] == srcs && dsts[..i] == dsts;
    } else {
      GroupNext(srcs, dsts, i, d);
      GroupPrefix(srcs, dsts, i + 1, d);
    }
  }

  // The place of the i-th source in its group.
  lemma RankIs(srcs: seq<int>, dsts: seq<int>, i: nat)
    requires |srcs| == |dsts| && i < |srcs|
    ensures var g, r := Group(srcs, dsts, dsts[i]), |Group(srcs[..i], dsts[..i], dsts[i])|; r < |g| && g[r] == srcs[i]
  {
    GroupNext(srcs, dsts, i, dsts[i]);
    GroupPrefix(srcs, dsts, i + 1, dsts[i]);
  }

  ghost predicate InRange(s: seq<int>) {
    forall i :: 0 <= i < |s| ==> 0 <= s[i] < MAX_CPUS
  }

  ghost predicate Distinct(s: seq<int>) {
    forall i, j :: 0 <= i < j < |s| ==> s[i] != s[j]
  }

  // ---------- Writing ----------

  // The first pass: the place of each source in its group, the sizes of the groups and the last destination.
  method Rank(srcs: seq<int>, dsts: seq<int>, rank: array<int>, sizes: array<int>) returns (maxDst: int)
    requires |srcs| == |dsts| && InRange(srcs) && InRange(dsts) && rank.Length == sizes.Length == MAX_CPUS
      && rank != sizes
    requires forall d :: 0 <= d < MAX_CPUS ==> sizes[d] == 0
    modifies rank, sizes
    ensures forall d :: 0 <= d < MAX_CPUS ==> sizes[d] == |Group(srcs, dsts, d)|
    ensures Distinct(srcs) ==> forall i :: 0 <= i < |srcs| ==> rank[srcs[i]] == |Group(srcs[..i], dsts[..i], dsts[i])|
    ensures (srcs == [] ==> maxDst == -1) && (srcs != [] ==> maxDst in dsts)
      && forall i :: 0 <= i < |dsts| ==> dsts[i] <= maxDst
  {
    hide Group;
    maxDst := -1;
    assert forall d :: Group(srcs[..0], dsts[..0], d) == [] by { NoGroups(srcs, dsts); }
    for i := 0 to |srcs|
      invariant forall d :: 0 <= d < MAX_CPUS ==> sizes[d] == |Group(srcs[..i], dsts[..i], d)|
      invariant Distinct(srcs) ==> forall j :: 0 <= j < i ==> rank[srcs[j]] == |Group(srcs[..j], dsts[..j], dsts[j])|
      invariant (i == 0 ==> maxDst == -1) && (i > 0 ==> maxDst in dsts) && forall j :: 0 <= j < i ==> dsts[j] <= maxDst
    {
      var src, dst := srcs[i], dsts[i];
      forall d { GroupNext(srcs, dsts, i, d); }
      rank[src] := sizes[dst];
      sizes[dst] := sizes[dst] + 1;
      if maxDst < dst { maxDst := dst; }
    }
    assert srcs[..|srcs|] == srcs && dsts[..|dsts|] == dsts;
  }

  lemma NoGroups(srcs: seq<int>, dsts: seq<int>)
    requires |srcs| == |dsts|
    ensures forall d :: Group(srcs[..0], dsts[..0], d) == []
  {
  }

  function Zeros(n: nat): (s: seq<int>)
    ensures |s| == n && forall i :: 0 <= i < n ==> s[i] == 0
  {
    seq(n, _ => 0)
  }

  // The second pass: each source goes to its place.
  method Place(srcs: seq<int>, dsts: seq<int>, rank: array<int>, sizes: array<int>) returns (members: seq<seq<int>>)
    requires |srcs| == |dsts| && InRange(srcs) && InRange(dsts) && Distinct(srcs)
      && rank.Length == sizes.Length == MAX_CPUS
    requires forall d :: 0 <= d < MAX_CPUS ==> sizes[d] == |Group(srcs, dsts, d)|
    requires forall i :: 0 <= i < |srcs| ==> rank[srcs[i]] == |Group(srcs[..i], dsts[..i], dsts[i])|
    ensures |members| == MAX_CPUS && forall d :: 0 <= d < MAX_CPUS ==> members[d] == Group(srcs, dsts, d)
  {
    hide Group; hide Distinct;
    members := seq(MAX_CPUS, _ => []);
    NoGroups(srcs, dsts);
    for i := 0 to |srcs|
      invariant |members| == MAX_CPUS
      invariant forall d :: 0 <= d < MAX_CPUS ==>
        Partly(members[d], Group(srcs[..i], dsts[..i], d), Group(srcs, dsts, d))
    {
      var src, dst := srcs[i], dsts[i];
      RankIs(srcs, dsts, i);
      forall d
        ensures Group(srcs[..i + 1], dsts[..i + 1], d) == if d == dst then Group(srcs[..i], dsts[..i], d) + [src]
        else Group(srcs[..i], dsts[..i], d) {
        GroupNext(srcs, dsts, i, d);
      }
      var m := if members[dst] == [] then Zeros(sizes[dst]) else members[dst];
      assert Partly(members[dst], Group(srcs[..i], dsts[..i], dst), Group(srcs, dsts, dst));
      members := members[dst := m[rank[src] := src]];
    }
    assert srcs[..|srcs|] == srcs && dsts[..|dsts|] == dsts;
    forall d | 0 <= d < MAX_CPUS ensures members[d] == Group(srcs, dsts, d) {
      assert Partly(members[d], Group(srcs, dsts, d), Group(srcs, dsts, d));
    }
  }

  // A member list that is not yet there, or as long as its group and right as far as the sources seen.
  ghost predicate Partly(m: seq<int>, seen: seq<int>, all: seq<int>) {
    if seen == [] then m == [] else |m| == |all| && |seen| <= |all| && m[..|seen|] == seen
  }

  function Ones(g: seq<int>): (rs: seq<CpuText.Run>)
    requires InRange(g)
    ensures |rs| == |g| && forall i :: 0 <= i < |g| ==> rs[i] == CpuText.Run(g[i], g[i])
  {
    seq(|g|, i requires 0 <= i < |g| => CpuText.Run(g[i], g[i]))
  }

  // One destination and who sends to it.
  function GroupText(g: seq<int>, d: nat): (s: string)
    requires InRange(g)
  {
    Join(CpuText.Texts(Ones(g)), ',') + ":" + Dec(d)
  }

  lemma {:induction false} GroupInRange(srcs: seq<int>, dsts: seq<int>, d: int)
    requires |srcs| == |dsts| && InRange(srcs)
    ensures InRange(Group(srcs, dsts, d)) && |Group(srcs, dsts, d)| <= |srcs|
    ensures Group(srcs, dsts, d) != [] <==> d in dsts
  {
    if srcs != [] {
      var n := |srcs| - 1;
      GroupInRange(srcs[..n], dsts[..n], d);
      assert dsts == dsts[..n] + [dsts[n]];
    }
  }

  // The fields for the destinations below k.
  ghost function GroupTexts(srcs: seq<int>, dsts: seq<int>, k: nat): (ts: seq<string>)
    requires |srcs| == |dsts| && InRange(srcs)
  {
    if k == 0 then []
    else
      GroupInRange(srcs, dsts, k - 1);
      var g := Group(srcs, dsts, k - 1);
      if g == [] then GroupTexts(srcs, dsts, k - 1) else GroupTexts(srcs, dsts, k - 1) + [GroupText(g, k - 1)]
  }

  // The third pass.
  method Write(srcs: seq<int>, dsts: seq<int>, members: seq<seq<int>>, maxDst: int) returns (str: string)
    requires |srcs| == |dsts| && InRange(srcs) && InRange(dsts) && |members| == MAX_CPUS
    requires forall d :: 0 <= d < MAX_CPUS ==> members[d] == Group(srcs, dsts, d)
    requires (srcs == [] ==> maxDst == -1) && (srcs != [] ==> maxDst in dsts)
      && forall i :: 0 <= i < |dsts| ==> dsts[i] <= maxDst
    ensures str == Join(GroupTexts(srcs, dsts, MAX_CPUS), '+')
  {
    hide Group; hide GroupText; hide Trail; hide Join;
    str := "";
    TrailStart([], '+');
    for d := 0 to MAX_CPUS
      invariant str == if d <= maxDst then Trail(GroupTexts(srcs, dsts, d), '+')
        else Join(GroupTexts(srcs, dsts, d), '+')
    {
      GroupInRange(srcs, dsts, d);
      if |members[d]| == 0 { continue; }
      ghost var ts := GroupTexts(srcs, dsts, d);
      assert d in dsts;
      TrailNext(ts, GroupText(members[d], d), '+');
      var text := WriteGroup(members[d], d);
      str := str + text;
      if d != maxDst { str := str + "+"; }
    }
  }

  lemma TrailNext(ts: seq<string>, t: string, c: char)
    ensures Trail(ts + [t], c) == Trail(ts, c) + t + [c] && Join(ts + [t], c) == Trail(ts, c) + t
  {
    assert (ts + [t])[..|ts|] == ts;
    JoinIsTrail(ts, t, c);
  }

  method WriteGroup(g: seq<int>, d: nat) returns (str: string)
    requires g != [] && InRange(g)
    ensures str == GroupText(g, d)
  {
    hide Trail; hide Join; hide Dec;
    str := "";
    ghost var ts := CpuText.Texts(Ones(g));
    TrailStart(ts, ',');
    for i := 0 to |g|
      invariant str == if i < |g| then Trail(ts[..i], ',') else Join(ts, ',')
    {
      TrailStep(ts, i, ',');
      str := str + Dec(g[i]);
      if i != |g| - 1 { str := str + ","; }
    }
    str := str + ":" + Dec(d);
  }

  // ikc_req2str: a counting sort by destination, written out.
  method IkcReq2Str(srcs: seq<int>, dsts: seq<int>) returns (str: string)
    requires |srcs| == |dsts| && InRange(srcs) && InRange(dsts) && Distinct(srcs)
    ensures str == Join(GroupTexts(srcs, dsts, MAX_CPUS), '+')
  {
    hide Group; hide GroupTexts; hide Join; hide InRange;
    var rank, sizes := new int[MAX_CPUS](_ => 0), new int[MAX_CPUS](_ => 0);
    var maxDst := Rank(srcs, dsts, rank, sizes);
    var members := Place(srcs, dsts, rank, sizes);
    str := Write(srcs, dsts, members, maxDst);
  }

  // ---------- Reading ----------

  // A field is a CPU list, a colon and the CPU they send to.
  function Sources(t: string): (s: seq<int>) { CpuText.AllValues(Split(t[..Find(t, ':')], ',')) }

  function Target(t: string): (d: int)
    requires Find(t, ':') < |t|
  {
    ToInt(Strtol(t[Find(t, ':') + 1..]).value)
  }

  function Counted(t: string): (n: Option<nat>) { CpuText.Scan(Split(t[..Find(t, ':')], ','), 0, MAX_CPUS) }

  predicate Accepts(t: string) {
    var k := Find(t, ':');
    0 < k < |t| && k + 1 < |t| && Whole(t[k + 1..]) && Counted(t).Some? && Counted(t).value > 0
  }

  function Tagged(g: seq<int>, d: int): (ps: seq<(int, int)>)
    ensures |ps| == |g| && forall i :: 0 <= i < |g| ==> ps[i] == (g[i], d)
  {
    seq(|g|, i requires 0 <= i < |g| => (g[i], d))
  }

  function FieldPairs(t: string): (ps: seq<(int, int)>) {
    if Find(t, ':') < |t| then Tagged(Sources(t), Target(t)) else []
  }

  function Pairs(ts: seq<string>): (ps: seq<(int, int)>) {
    if ts == [] then [] else Pairs(ts[..|ts| - 1]) + FieldPairs(ts[|ts| - 1])
  }

  ghost predicate AllAccepted(ts: seq<string>) {
    forall i :: 0 <= i < |ts| ==> Accepts(ts[i])
  }

  // The reader's buffer holds the sources of one field, and no range in it is without end.
  ghost predicate FieldsFit(ts: seq<string>) {
    forall i :: 0 <= i < |ts| ==> Fits(ts[i])
  }

  predicate Fits(t: string) {
    |Sources(t)| <= MAX_CPUS && !CpuText.Endless(Split(t[..Find(t, ':')], ','), 0, MAX_CPUS)
  }

  ghost predicate Filled(srcs: array<int>, dsts: array<int>, num: nat, ps: seq<(int, int)>)
    requires num <= srcs.Length && num <= dsts.Length
    reads srcs, dsts
  {
    forall k :: 0 <= k < num && k < |ps| ==> (srcs[k], dsts[k]) == ps[k]
  }

  method IkcStr2Array(list: string, num: nat, srcs: array<int>, dsts: array<int>) returns (ret: int)
    requires num <= srcs.Length && num <= dsts.Length && srcs != dsts && FieldsFit(Split(list, '+'))
    modifies srcs, dsts
    ensures ret == if AllAccepted(Split(list, '+')) then |Pairs(Split(list, '+'))| else -EINVAL
    ensures ret >= 0 ==> Filled(srcs, dsts, num, Pairs(Split(list, '+')))
  {
    hide Split; hide Accepts; hide FieldPairs; hide Sources; hide Fits; hide CpuText.AllValues; hide Filled;
    hide AllAccepted; hide FieldsFit; hide Pairs;
    ghost var ts := Split(list, '+');
    ReadStart(ts, srcs, dsts, num);
    var more, total, i := Some(list), 0, 0;
    var buf := new int[MAX_CPUS](_ => 0);
    while more.Some?
      invariant 0 <= i <= |ts| && ts[i..] == if more.Some? then Split(more.value, '+') else []
      invariant AllAccepted(ts[..i]) && total == |Pairs(ts[..i])| && Filled(srcs, dsts, num, Pairs(ts[..i]))
      invariant fresh(buf) && buf.Length == MAX_CPUS
      decreases if more.Some? then |more.value| + 1 else 0
    {
      var token, next := Strsep(more.value, '+');
      assert token == ts[i..][0] == ts[i];
      ReadNext(ts, i);
      var n, dst := ReadField(token, buf);
      if n < 0 { return -EINVAL; }
      total := StorePairs(buf, n, dst, total, num, srcs, dsts, Pairs(ts[..i]), token);
      assert ts[i + 1..] == ts[i..][1..];
      i, more := i + 1, next;
    }
    assert ts[..|ts|] == ts;
    ret := total;
  }

  lemma ReadStart(ts: seq<string>, srcs: array<int>, dsts: array<int>, num: nat)
    requires num <= srcs.Length && num <= dsts.Length
    ensures AllAccepted(ts[..0]) && Pairs(ts[..0]) == [] && Filled(srcs, dsts, num, [])
  {
  }

  lemma ReadNext(ts: seq<string>, i: nat)
    requires i < |ts|
    ensures AllAccepted(ts[..i + 1]) <==> AllAccepted(ts[..i]) && Accepts(ts[i])
    ensures AllAccepted(ts) ==> Accepts(ts[i])
    ensures FieldsFit(ts) ==> Fits(ts[i])
    ensures Pairs(ts[..i + 1]) == Pairs(ts[..i]) + FieldPairs(ts[i])
  {
    hide Accepts; hide Fits; hide FieldPairs;
    assert ts[..i + 1][..i] == ts[..i];
    if AllAccepted(ts[..i + 1]) {
      assert Accepts(ts[..i + 1][i]);
      forall j | 0 <= j < i ensures Accepts(ts[..i][j]) { assert Accepts(ts[..i + 1][j]); }
    }
  }

  // One field: its sources in the buffer, how many, and their target; or a negative count.
  method ReadField(token: string, buf: array<int>) returns (n: int, dst: int)
    requires buf.Length == MAX_CPUS && Fits(token)
    modifies buf
    ensures n >= 0 <==> Accepts(token)
    ensures n >= 0 ==>
      n <= MAX_CPUS && n == |Sources(token)| && buf[..n] == Sources(token)
      && FieldPairs(token) == Tagged(Sources(token), dst)
  {
    hide Strtol; hide CpuText.AllValues; hide CpuText.Scan; hide CpuText.Endless; hide Split;
    dst := 0;
    var colon := Find(token, ':');
    if token == "" { return -EINVAL, 0; }
    if colon == 0 { return -EINVAL, 0; }
    if colon == |token| { return -EINVAL, 0; }
    ghost var fields := Split(token[..colon], ',');
    var count := CpuText.CpuStr2Array(Some(token[..colon]), MAX_CPUS, buf);
    n := count.value;
    CpuText.ScanCounts(fields, 0, MAX_CPUS);
    if n <= 0 { return -EINVAL, 0; }
    if colon + 1 == |token| { return -EINVAL, 0; }
    var number := Strtol(token[colon + 1..]);
    if number.end != |token| - colon - 1 { return -EINVAL, 0; }
    dst := ToInt(number.value);
    assert buf[..n] == Sources(token);
  }

  method StorePairs(buf: array<int>, n: nat, dst: int, total: nat, num: nat, srcs: array<int>, dsts: array<int>,
      ghost done: seq<(int, int)>, ghost token: string)
    returns (total': nat)
    requires n <= buf.Length && num <= srcs.Length && num <= dsts.Length && srcs != dsts && buf != srcs && buf != dsts
    requires total == |done| && Filled(srcs, dsts, num, done) && n == |FieldPairs(token)|
      && FieldPairs(token) == Tagged(buf[..n], dst)
    modifies srcs, dsts
    ensures total' == total + n && Filled(srcs, dsts, num, done + FieldPairs(token))
  {
    hide FieldPairs;
    total' := total;
    ghost var ps := FieldPairs(token);
    for i := 0 to n
      invariant total' == total + i && buf[..n] == old(buf[..n]) && Filled(srcs, dsts, num, done + ps[..i])
    {
      assert ps[..i + 1] == ps[..i] + [(buf[i], dst)];
      if num > total' {
        srcs[total'] := buf[i];
        dsts[total'] := dst;
      }
      total' := total' + 1;
    }
    assert ps[..n] == ps;
  }

  // ---------- Round trip ----------

  // The pairs sorted by destination, in their order within each.
  function Grouped(srcs: seq<int>, dsts: seq<int>, k: nat): (ps: seq<(int, int)>)
    requires |srcs| == |dsts|
  {
    if k == 0 then [] else Grouped(srcs, dsts, k - 1) + Tagged(Group(srcs, dsts, k - 1), k - 1)
  }

  lemma GroupTextFields(g: seq<int>, d: nat)
    requires g != [] && InRange(g)
    ensures var t, k := GroupText(g, d), |Join(CpuText.Texts(Ones(g)), ',')|;
      0 < k && k + 1 < |t| && Find(t, ':') == k && t[..k] == Join(CpuText.Texts(Ones(g)), ',') && t[k + 1..] == Dec(d)
        && '+' !in t
  {
    var ts := CpuText.Texts(Ones(g));
    var list := Join(ts, ',');
    forall i | 0 <= i < |ts| ensures ':' !in ts[i] && '+' !in ts[i] {
      DecHasNo(g[i], ':');
      DecHasNo(g[i], '+');
    }
    JoinHasNo(ts, ',', ':');
    JoinHasNo(ts, ',', '+');
    DecHasNo(d, '+');
    var t, k := GroupText(g, d), |list|;
    hide Join; hide CpuText.Texts;
    assert t[..k] == list && t[k] == ':' && t[k + 1..] == Dec(d);
    FindAt(t, ':', k);
    assert k > 0 by { JoinNotEmpty(ts); }
  }

  lemma JoinNotEmpty(ts: seq<string>)
    requires ts != [] && ts[0] != []
    ensures Join(ts, ',') != []
  {
  }

  lemma {:induction false} JoinHasNo(ts: seq<string>, c: char, x: char)
    requires x != c && forall i :: 0 <= i < |ts| ==> x !in ts[i]
    ensures x !in Join(ts, c)
  {
    if |ts| > 1 { JoinHasNo(ts[1..], c, x); }
  }

  lemma OnesRead(g: seq<int>)
    requires g != [] && InRange(g)
    ensures var ts := Split(Join(CpuText.Texts(Ones(g)), ','), ',');
      CpuText.AllValues(ts) == g && CpuText.Scan(ts, 0, MAX_CPUS) == Some(|g|) && !CpuText.Endless(ts, 0, MAX_CPUS)
  {
    hide CpuText.Endless; hide Split; hide Join; hide CpuText.Texts; hide CpuText.AllValues; hide CpuText.Scan;
    CpuText.PrintedReads(Ones(g), MAX_CPUS);
    OnesAre(g);
  }

  lemma {:induction false} OnesAre(g: seq<int>)
    requires InRange(g)
    ensures CpuText.Numbers(Ones(g)) == g
  {
    if g != [] {
      assert Ones(g)[1..] == Ones(g[1..]);
      OnesAre(g[1..]);
      CpuText.RangeOne(g[0]);
    }
  }

  lemma GroupTextReads(g: seq<int>, d: nat)
    requires g != [] && InRange(g) && d < MAX_CPUS
    ensures Accepts(GroupText(g, d)) && FieldPairs(GroupText(g, d)) == Tagged(g, d) && '+' !in GroupText(g, d)
    ensures |g| <= MAX_CPUS ==> Fits(GroupText(g, d))
  {
    hide CpuText.Endless; hide Split; hide Join; hide CpuText.Texts; hide CpuText.AllValues; hide CpuText.Scan;
    hide GroupText; hide Strtol; hide Dec;
    GroupTextFields(g, d);
    OnesRead(g);
    CpuText.NumberReads(d);
  }

  lemma {:induction false} TextsAreGrouped(srcs: seq<int>, dsts: seq<int>, k: nat)
    requires |srcs| == |dsts| && InRange(srcs) && k <= MAX_CPUS
    ensures var ts := GroupTexts(srcs, dsts, k);
      && Pairs(ts) == Grouped(srcs, dsts, k) && AllAccepted(ts)
      && (forall i :: 0 <= i < |ts| ==> '+' !in ts[i] && (|srcs| <= MAX_CPUS ==> Fits(ts[i])))
  {
    hide Group; hide GroupText; hide FieldPairs; hide Accepts; hide Fits;
    if k > 0 {
      TextsAreGrouped(srcs, dsts, k - 1);
      GroupInRange(srcs, dsts, k - 1);
      var g, ts := Group(srcs, dsts, k - 1), GroupTexts(srcs, dsts, k - 1);
      if g != [] {
        GroupTextReads(g, k - 1);
        assert (ts + [GroupText(g, k - 1)])[..|ts|] == ts;
      } else {
        assert Tagged(g, k - 1) == [];
      }
    }
  }

  lemma DistinctFit(s: seq<int>)
    requires InRange(s) && Distinct(s)
    ensures |s| <= MAX_CPUS
  {
    AsMany(s, UpTo(MAX_CPUS));
  }

  ghost function UpTo(n: nat): (s: set<int>)
    ensures |s| == n && forall x :: x in s <==> 0 <= x < n
  {
    if n == 0 then {} else UpTo(n - 1) + {n - 1}
  }

  lemma {:induction false} AsMany(s: seq<int>, all: set<int>)
    requires Distinct(s) && forall i :: 0 <= i < |s| ==> s[i] in all
    ensures |s| <= |all|
  {
    if s != [] {
      var n := |s| - 1;
      AsMany(s[..n], all - {s[n]});
    }
  }

  // Reading back what was printed gives the same pairs, sorted by destination.
  lemma PrintThenRead(srcs: seq<int>, dsts: seq<int>)
    requires srcs != [] && |srcs| == |dsts| && InRange(srcs) && InRange(dsts) && Distinct(srcs)
    ensures var ts := Split(Join(GroupTexts(srcs, dsts, MAX_CPUS), '+'), '+');
      AllAccepted(ts) && FieldsFit(ts) && Pairs(ts) == Grouped(srcs, dsts, MAX_CPUS)
  {
    hide Group; hide GroupText; hide FieldPairs; hide Accepts; hide Fits; hide Split; hide Join;
    var ts := GroupTexts(srcs, dsts, MAX_CPUS);
    TextsAreGrouped(srcs, dsts, MAX_CPUS);
    DistinctFit(srcs);
    SomeText(srcs, dsts, dsts[0], MAX_CPUS);
    SplitJoin(ts, '+');
  }

  lemma {:induction false} SomeText(srcs: seq<int>, dsts: seq<int>, d: nat, k: nat)
    requires |srcs| == |dsts| && InRange(srcs) && d in dsts && d < k
    ensures GroupTexts(srcs, dsts, k) != []
  {
    hide Group; hide GroupText;
    GroupInRange(srcs, dsts, d);
    if d < k - 1 { SomeText(srcs, dsts, d, k - 1); }
  }

  function Firsts(ps: seq<(int, int)>): (s: seq<int>)
    ensures |s| == |ps| && forall i :: 0 <= i < |ps| ==> s[i] == ps[i].0
  {
    seq(|ps|, i requires 0 <= i < |ps| => ps[i].0)
  }

  function Seconds(ps: seq<(int, int)>): (s: seq<int>)
    ensures |s| == |ps| && forall i :: 0 <= i < |ps| ==> s[i] == ps[i].1
  {
    seq(|ps|, i requires 0 <= i < |ps| => ps[i].1)
  }

  lemma {:induction false} GroupConcat(a: seq<int>, b: seq<int>, x: seq<int>, y: seq<int>, d: int)
    requires |a| == |x| && |b| == |y|
    ensures Group(a + b, x + y, d) == Group(a, x, d) + Group(b, y, d)
  {
    if b == [] {
      assert a + b == a && x + y == x;
    } else {
      var n := |b| - 1;
      assert (a + b)[..|a + b| - 1] == a + b[..n] && (x + y)[..|x + y| - 1] == x + y[..n];
      GroupConcat(a, b[..n], x, y[..n], d);
    }
  }

  lemma {:induction false} GroupTagged(g: seq<int>, e: int, d: int)
    ensures GroupOf(Tagged(g, e), d) == if d == e then g else []
  {
    var ps := Tagged(g, e);
    if g != [] {
      var n := |g| - 1;
      GroupTagged(g[..n], e, d);
      assert Firsts(ps)[..n] == Firsts(Tagged(g[..n], e)) && Seconds(ps)[..n] == Seconds(Tagged(g[..n], e));
      assert g == g[..n] + [g[n]];
    }
  }

  ghost predicate SortedBelow(ps: seq<(int, int)>, k: int) {
    (forall i, j :: 0 <= i < j < |ps| ==> ps[i].1 <= ps[j].1) && forall i :: 0 <= i < |ps| ==> ps[i].1 < k
  }

  lemma SortedTagged(ps: seq<(int, int)>, g: seq<int>, k: int)
    requires SortedBelow(ps, k)
    ensures SortedBelow(ps + Tagged(g, k), k + 1)
  {
  }

  lemma {:induction false} GroupedSorted(srcs: seq<int>, dsts: seq<int>, k: nat)
    requires |srcs| == |dsts|
    ensures SortedBelow(Grouped(srcs, dsts, k), k)
  {
    hide Group; hide SortedBelow;
    if k > 0 {
      GroupedSorted(srcs, dsts, k - 1);
      SortedTagged(Grouped(srcs, dsts, k - 1), Group(srcs, dsts, k - 1), k - 1);
    } else {
      assert SortedBelow([], 0) by { SortedNone(); }
    }
  }

  lemma SortedNone()
    ensures SortedBelow([], 0)
  {
  }

  // The sources of destination d among pairs.
  function GroupOf(ps: seq<(int, int)>, d: int): (g: seq<int>) { Group(Firsts(ps), Seconds(ps), d) }

  lemma GroupOfConcat(ps: seq<(int, int)>, qs: seq<(int, int)>, d: int)
    ensures GroupOf(ps + qs, d) == GroupOf(ps, d) + GroupOf(qs, d)
  {
    hide Group;
    assert Firsts(ps + qs) == Firsts(ps) + Firsts(qs) && Seconds(ps + qs) == Seconds(ps) + Seconds(qs);
    GroupConcat(Firsts(ps), Firsts(qs), Seconds(ps), Seconds(qs), d);
  }

  lemma {:induction false} GroupedKeeps(srcs: seq<int>, dsts: seq<int>, k: nat, d: int)
    requires |srcs| == |dsts|
    ensures GroupOf(Grouped(srcs, dsts, k), d) == if 0 <= d < k then Group(srcs, dsts, d) else []
  {
    hide Group; hide GroupOf;
    if k > 0 {
      var ps, g := Grouped(srcs, dsts, k - 1), Group(srcs, dsts, k - 1);
      GroupedKeeps(srcs, dsts, k - 1, d);
      GroupOfConcat(ps, Tagged(g, k - 1), d);
      GroupTagged(g, k - 1, d);
    } else {
      GroupTagged([], 0, d);
      assert Tagged([], 0) == [];
    }
  }

  // It is a stable sort: destinations ascend, and each keeps its sources in order.
  lemma GroupedIsStable(srcs: seq<int>, dsts: seq<int>)
    requires |srcs| == |dsts| && InRange(dsts)
    ensures SortedBelow(Grouped(srcs, dsts, MAX_CPUS), MAX_CPUS)
    ensures forall d :: GroupOf(Grouped(srcs, dsts, MAX_CPUS), d) == Group(srcs, dsts, d)
  {
    hide Group; hide Grouped; hide GroupOf; hide SortedBelow;
    GroupedSorted(srcs, dsts, MAX_CPUS);
    forall d ensures GroupOf(Grouped(srcs, dsts, MAX_CPUS), d) == Group(srcs, dsts, d) {
      GroupedKeeps(srcs, dsts, MAX_CPUS, d);
      if d < 0 || d >= MAX_CPUS { NoSuchGroup(srcs, dsts, d); }
    }
  }

  lemma {:induction false} NoSuchGroup(srcs: seq<int>, dsts: seq<int>, d: int)
    requires |srcs| == |dsts| && d !in dsts
    ensures Group(srcs, dsts, d) == []
  {
    if srcs != [] {
      var n := |srcs| - 1;
      assert dsts[n] in dsts && forall x :: x in dsts[..n] ==> x in dsts;
      NoSuchGroup(srcs[..n], dsts[..n], d);
    }
  }
}
