// Memory lists as text: "512M@0,all@1".
module MemText {
  import opened Options
  import opened Decimal
  import opened Fields

  const EINVAL := 22
  const TWO_64 := 0x1_0000_0000_0000_0000

  // ---------- Reading ----------

  // A long shifted left by ten bits, k times.
  function Shifted(v: int, k: nat): (r: int) {
    if k == 0 then v
    else
      var w := (Shifted(v, k - 1) * 1024) % TWO_64;
      if w > LONG_MAX then w - TWO_64 else w
  }

  // ihk_memparse: "all" is the size -1; otherwise a number, and what follows it must be a unit.
  function Memparse(t: string): (r: int) {
    if t == "all" || t == "ALL" then -1
    else
      var n := Strtol(t);
      if n.end == |t| then n.value
      else
        var c := t[n.end];
        if c in "kK" then Shifted(n.value, 1)
        else if c in "mM" then Shifted(n.value, 2)
        else if c in "gG" then Shifted(n.value, 3)
        else if c in "tT" then Shifted(n.value, 4)
        else if c in "pP" then Shifted(n.value, 5)
        else if c in "eE" then Shifted(n.value, 6)
        else -EINVAL
  }

  function AsSize(v: int): (n: nat)
    ensures n < TWO_64
  {
    v % TWO_64
  }

  // The error for a field, or 0. The numbers are looked at only when they are stored.
  function FieldError(t: string, stored: bool): (e: int) {
    var k := Find(t, '@');
    if t == "" then -EINVAL
    else if k < |t| && (k == 0 || k + 1 == |t|) then -EINVAL
    else if !stored then 0
    else if Memparse(t[..k]) < -1 then Memparse(t[..k])
    else if k < |t| && !Whole(t[k + 1..]) then -EINVAL
    else 0
  }

  function FieldSize(t: string): (n: nat) { AsSize(Memparse(t[..Find(t, '@')])) }

  // A field without a node leaves the node as it was.
  function FieldNuma(t: string, was: int): (n: int) {
    var k := Find(t, '@');
    if k < |t| then ToInt(Strtol(t[k + 1..]).value) else was
  }

  // The number of fields, or the error of the first bad one.
  function Result(ts: seq<string>, stored: bool): (r: int) {
    if ts == [] then 0
    else
      var front := Result(ts[..|ts| - 1], stored);
      if front < 0 then front
      else if FieldError(ts[|ts| - 1], stored) != 0 then FieldError(ts[|ts| - 1], stored)
      else front + 1
  }

  lemma {:induction false} ResultIs(ts: seq<string>, stored: bool)
    ensures Result(ts, stored) >= 0 <==> forall i :: 0 <= i < |ts| ==> FieldError(ts[i], stored) == 0
    ensures Result(ts, stored) >= 0 ==> Result(ts, stored) == |ts|
  {
    hide FieldError;
    if ts != [] {
      ResultIs(ts[..|ts| - 1], stored);
      ErrorsAreNegative(ts[|ts| - 1], stored);
    }
  }

  lemma ErrorsAreNegative(t: string, stored: bool)
    ensures FieldError(t, stored) <= 0
  {
    hide Memparse; hide Strtol;
  }

  lemma {:induction false} ResultPrefix(ts: seq<string>, k: nat, stored: bool)
    requires k <= |ts| && Result(ts[..k], stored) < 0
    ensures Result(ts, stored) == Result(ts[..k], stored)
    decreases |ts|
  {
    hide FieldError;
    if k == |ts| {
      assert ts[..k] == ts;
    } else {
      assert ts[..|ts| - 1][..k] == ts[..k];
      ResultPrefix(ts[..|ts| - 1], k, stored);
    }
  }

  // The counting pass gives the same number as a filling pass that meets no error.
  lemma CountIsFill(ts: seq<string>)
    requires Result(ts, true) >= 0
    ensures Result(ts, false) == Result(ts, true)
  {
    hide Memparse; hide Strtol;
    ResultIs(ts, true);
    forall i | 0 <= i < |ts| ensures FieldError(ts[i], false) == 0 {
      assert FieldError(ts[i], true) == 0;
    }
    ResultIs(ts, false);
  }

  // The first field that is refused, or the number of fields.
  function FirstBad(ts: seq<string>): (k: nat)
    ensures k <= |ts| && (forall i :: 0 <= i < k ==> FieldError(ts[i], true) == 0)
      && (k < |ts| ==> FieldError(ts[k], true) != 0)
  {
    if ts == [] || FieldError(ts[0], true) != 0 then 0 else 1 + FirstBad(ts[1..])
  }

  lemma ResultFirst(ts: seq<string>)
    ensures Result(ts, true) == if FirstBad(ts) == |ts| then |ts| else FieldError(ts[FirstBad(ts)], true)
  {
    hide FieldError;
    var k := FirstBad(ts);
    ResultIs(ts, true);
    if k < |ts| {
      ResultIs(ts[..k], true);
      assert ts[..k + 1][..k] == ts[..k];
      ErrorsAreNegative(ts[k], true);
      ResultPrefix(ts, k + 1, true);
    }
  }

  // The function returns int while the error is a long. A caller sees success only when nothing was refused,
  // exactly when there is no refused field or the low 32 bits of the first error are those of a negative int.
  lemma SuccessMeansStored(ts: seq<string>)
    requires |ts| < 0x8000_0000
    ensures (ToInt(Result(ts, true)) >= 0 ==> Result(ts, true) >= 0) <==>
      FirstBad(ts) == |ts| || FieldError(ts[FirstBad(ts)], true) % 0x1_0000_0000 >= 0x8000_0000
  {
    hide FieldError; hide Result; hide FirstBad;
    ResultFirst(ts);
    if FirstBad(ts) < |ts| {
      var e := FieldError(ts[FirstBad(ts)], true);
      ErrorsAreNegative(ts[FirstBad(ts)], true);
      LowBits(e);
    }
  }

  lemma LowBits(v: int)
    ensures ToInt(v) < 0 <==> v % 0x1_0000_0000 >= 0x8000_0000
  {
    var q, m := v / 0x1_0000_0000, v % 0x1_0000_0000;
    assert v == q * 0x1_0000_0000 + m;
    assert v + 0x8000_0000 == (if m < 0x8000_0000 then q else q + 1) * 0x1_0000_0000 +
      (if m < 0x8000_0000 then m + 0x8000_0000 else m - 0x8000_0000);
  }

  ghost predicate Stored(sizes: array<nat>, numas: array<int>, was: seq<int>, ts: seq<string>, k: nat)
    requires k <= |ts| && k <= sizes.Length && k <= numas.Length == |was|
    reads sizes, numas
  {
    && (forall i :: 0 <= i < k ==> sizes[i] == FieldSize(ts[i]) && numas[i] == FieldNuma(ts[i], was[i]))
    && (forall i :: k <= i < numas.Length ==> numas[i] == was[i])
  }

  method MemStr2Array(list: string, sizes: array<nat>, numas: array<int>) returns (ret: int)
    requires |Split(list, ',')| <= sizes.Length && |Split(list, ',')| <= numas.Length
    modifies sizes, numas
    ensures ret == ToInt(Result(Split(list, ','), true))
    ensures Result(Split(list, ','), true) >= 0 ==>
      Result(Split(list, ','), true) == |Split(list, ',')|
        && Stored(sizes, numas, old(numas[..]), Split(list, ','), |Split(list, ',')|)
  {
    hide Split; hide FieldError; hide FieldSize; hide FieldNuma; hide Stored;
    ghost var ts, was := Split(list, ','), numas[..];
    StoredNone(sizes, numas, ts);
    var more, count := Some(list), 0;
    while more.Some?
      invariant 0 <= count <= |ts| && ts[count..] == if more.Some? then Split(more.value, ',') else []
      invariant Result(ts[..count], true) == count && Stored(sizes, numas, was, ts, count)
      decreases if more.Some? then |more.value| + 1 else 0
    {
      var token, next := Strsep(more.value, ',');
      assert token == ts[count..][0] == ts[count];
      assert ts[..count + 1][..count] == ts[..count];
      var e := FieldErrorOf(token);
      if e != 0 {
        ErrorsAreNegative(token, true);
        ResultPrefix(ts, count + 1, true);
        return ToInt(e);
      }
      StoreField(token, count, sizes, numas, was, ts);
      assert ts[count + 1..] == ts[count..][1..];
      count, more := count + 1, next;
    }
    assert ts[..|ts|] == ts;
    ret := ToInt(count);
  }

  // The counting pass, without arrays.
  method MemStr2Count(list: Option<string>) returns (ret: int)
    ensures ret == if list.None? then 0 else ToInt(Result(Split(list.value, ','), false))
  {
    hide Split; hide FieldError;
    if list.None? { return 0; }
    ghost var ts := Split(list.value, ',');
    var more, count := list, 0;
    while more.Some?
      invariant 0 <= count <= |ts| && ts[count..] == if more.Some? then Split(more.value, ',') else []
      invariant Result(ts[..count], false) == count
      decreases if more.Some? then |more.value| + 1 else 0
    {
      var token, next := Strsep(more.value, ',');
      assert token == ts[count..][0] == ts[count];
      assert ts[..count + 1][..count] == ts[..count];
      var at := Find(token, '@');
      BadShape(token);
      if token == "" || (at < |token| && (at == 0 || at + 1 == |token|)) {
        ResultPrefix(ts, count + 1, false);
        return -EINVAL;
      }
      assert ts[count + 1..] == ts[count..][1..];
      count, more := count + 1, next;
    }
    assert ts[..|ts|] == ts;
    ret := ToInt(count);
  }

  lemma BadShape(t: string)
    ensures var k := Find(t, '@');
      FieldError(t, false) == if t == "" || (k < |t| && (k == 0 || k + 1 == |t|)) then -EINVAL else 0
  {
    hide Memparse; hide Strtol;
  }

  lemma StoredNone(sizes: array<nat>, numas: array<int>, ts: seq<string>)
    ensures Stored(sizes, numas, numas[..], ts, 0)
  {
  }

  // The checks on one field.
  method FieldErrorOf(token: string) returns (e: int)
    ensures e == FieldError(token, true)
  {
    hide Memparse; hide Strtol;
    if token == "" { return -EINVAL; }
    var at := Find(token, '@');
    if at < |token| && at == 0 { return -EINVAL; }
    if at < |token| && at + 1 == |token| { return -EINVAL; }
    var size := Memparse(token[..at]);
    if size < 0 && size != -1 { return size; }
    if at < |token| && Strtol(token[at + 1..]).end != |token| - at - 1 { return -EINVAL; }
    e := 0;
  }

  method StoreField(token: string, k: nat, sizes: array<nat>, numas: array<int>, ghost was: seq<int>,
      ghost ts: seq<string>)
    requires k < |ts| && k < sizes.Length && k < numas.Length == |was| && token == ts[k]
      && Stored(sizes, numas, was, ts, k)
    modifies sizes, numas
    ensures Stored(sizes, numas, was, ts, k + 1)
  {
    hide Memparse; hide Strtol; hide AsSize;
    var at := Find(token, '@');
    sizes[k] := AsSize(Memparse(token[..at]));
    if at < |token| { numas[k] := ToInt(Strtol(token[at + 1..]).value); }
  }

  // ---------- Writing ----------

  function Text(size: nat, numa: int): (s: string) { Dec(size) + "@" + DecInt(numa) }

  function Texts(sizes: seq<nat>, numas: seq<int>): (ts: seq<string>)
    requires |sizes| == |numas|
    ensures |ts| == |sizes| && forall i :: 0 <= i < |ts| ==> ts[i] == Text(sizes[i], numas[i])
  {
    seq(|sizes|, i requires 0 <= i < |sizes| => Text(sizes[i], numas[i]))
  }

  method MemArray2Str(sizes: seq<nat>, numas: seq<int>) returns (str: string)
    requires |sizes| == |numas|
    ensures str == Join(Texts(sizes, numas), ',')
  {
    hide Text; hide Trail; hide Join;
    str := "";
    ghost var ts := Texts(sizes, numas);
    TrailStart(ts, ',');
    for i := 0 to |sizes|
      invariant str == if i < |sizes| || i == 0 then Trail(ts[..i], ',') else Join(ts, ',')
    {
      TrailStep(ts, i, ',');
      str := str + Text(sizes[i], numas[i]);
      if i != |sizes| - 1 { str := str + ","; }
    }
    assert sizes == [] ==> ts == [];
  }

  // ---------- Round trip ----------

  lemma AroundAt(car: string, cdr: string)
    requires '@' !in car
    ensures var t, k := car + "@" + cdr, |car|; Find(t, '@') == k && t[..k] == car && t[k + 1..] == cdr
  {
    var t, k := car + "@" + cdr, |car|;
    assert t[..k] == car && t[k] == '@' && t[k + 1..] == cdr;
    FindAt(t, '@', k);
  }

  lemma TextFields(size: nat, numa: int)
    ensures var t, k := Text(size, numa), |Dec(size)|;
      t != "" && Find(t, '@') == k && k + 1 < |t| && t[..k] == Dec(size) && t[k + 1..] == DecInt(numa) && ',' !in t
  {
    DecHasNo(size, '@');
    DecHasNo(size, ',');
    DecHasNo(if numa < 0 then -numa else numa, ',');
    assert ',' !in DecInt(numa);
    hide Dec; hide DecInt; hide Find;
    AroundAt(Dec(size), DecInt(numa));
  }

  lemma SizeReads(size: nat)
    ensures Memparse(Dec(size)) == Clamp(size)
  {
    StrtolDec(size);
    assert IsDigit(Dec(size)[0]);
  }

  // A chunk comes back as it was exactly when its size fits in a long.
  lemma TextReads(size: nat, numa: int, stored: bool, was: int)
    requires size < TWO_64 && -0x8000_0000 <= numa < 0x8000_0000
    ensures FieldError(Text(size, numa), stored) == 0
    ensures FieldNuma(Text(size, numa), was) == numa
    ensures FieldSize(Text(size, numa)) == size <==> size <= LONG_MAX
  {
    hide Strtol; hide Memparse; hide Dec; hide DecInt; hide Text; hide Find;
    TextFields(size, numa);
    SizeReads(size);
    StrtolDec(numa);
  }

  ghost predicate Ints(numas: seq<int>) {
    forall i :: 0 <= i < |numas| ==> -0x8000_0000 <= numas[i] < 0x8000_0000
  }

  ghost predicate Sizes(sizes: seq<nat>) {
    forall i :: 0 <= i < |sizes| ==> sizes[i] < TWO_64
  }

  // Reading back a printed list succeeds with the same nodes, and with the same sizes exactly when they all
  // fit in a long.
  lemma RoundTripExactly(sizes: seq<nat>, numas: seq<int>, was: seq<int>)
    requires sizes != [] && |sizes| == |numas| == |was| && Ints(numas) && Sizes(sizes)
    ensures var ts := Split(Join(Texts(sizes, numas), ','), ',');
      && |ts| == |sizes| && Result(ts, true) == Result(ts, false) == |sizes|
      && (forall i :: 0 <= i < |ts| ==> FieldNuma(ts[i], was[i]) == numas[i])
      && ((forall i :: 0 <= i < |ts| ==> FieldSize(ts[i]) == sizes[i]) <==>
        forall i :: 0 <= i < |sizes| ==> sizes[i] <= LONG_MAX)
  {
    hide Text; hide FieldError; hide FieldSize; hide FieldNuma; hide Split; hide Join;
    var ts := Texts(sizes, numas);
    forall i | 0 <= i < |ts|
      ensures FieldError(ts[i], true) == 0 && FieldNuma(ts[i], was[i]) == numas[i] && ',' !in ts[i]
      ensures FieldSize(ts[i]) == sizes[i] <==> sizes[i] <= LONG_MAX
    {
      TextReads(sizes[i], numas[i], true, was[i]);
      TextFields(sizes[i], numas[i]);
    }
    SplitJoin(ts, ',');
    ResultIs(ts, true);
    CountIsFill(ts);
  }

  lemma NegativeField(n: nat)
    requires n >= 2
    ensures var t := "-" + Dec(n) + "@0";
      FieldError(t, true) == Clamp(0 - n) && FieldError(t, false) == 0 && Split(t, ',') == [t]
  {
    var car := "-" + Dec(n);
    var t, k := car + "@0", |car|;
    DecHasNo(n, '@');
    DecHasNo(n, ',');
    StrtolNegative(n);
    assert "0" == Dec(0);
    StrtolNat(0);
    hide Strtol; hide Dec; hide Find;
    assert t == car + "@" + "0" == t[..|t|];
    AroundAt(car, "0");
    FindAt(t, ',', |t|);
    assert car != "all" && car != "ALL" by { assert car[0] == '-'; }
  }

  lemma HalfDigits()
    ensures Dec(42949) == "42949"
  {
    assert Dec(4) == "4" && Dec(42) == "42" && Dec(429) == "429" && Dec(4294) == "4294";
  }

  lemma MostDigits()
    ensures Dec(429496729) == "429496729"
  {
    HalfDigits();
    assert Dec(429496) == "429496" && Dec(4294967) == "4294967" && Dec(42949672) == "42949672";
  }

  lemma Digits32()
    ensures Dec(4294967296) == "4294967296" && Dec(4294967295) == "4294967295"
  {
    MostDigits();
  }

  // Two refused sizes that the caller takes for success: no chunk stored where one was counted, and one chunk
  // counted as stored where none is.
  lemma RefusedYetAccepted()
    ensures var ts := Split("-4294967296@0", ',');
      Result(ts, true) == -4294967296 && ToInt(Result(ts, true)) == 0 && ToInt(Result(ts, false)) == 1
    ensures var ts := Split("-4294967295@0", ',');
      Result(ts, true) == -4294967295 && ToInt(Result(ts, true)) == 1 && ToInt(Result(ts, false)) == 1
  {
    hide Dec; hide Split; hide FieldError; hide Result;
    Digits32();
    NegativeField(4294967296);
    NegativeField(4294967295);
    assert "-" + "4294967296" + "@0" == "-4294967296@0" && "-" + "4294967295" + "@0" == "-4294967295@0";
    OneField("-4294967296@0");
    OneField("-4294967295@0");
  }

  lemma OneField(t: string)
    ensures FieldError(t, true) != 0 ==> Result([t], true) == FieldError(t, true)
    ensures FieldError(t, false) == 0 ==> Result([t], false) == 1
  {
    hide FieldError;
    assert [t][..0] == [];
  }

  // A size that does not come back.
  lemma TooBigForLong()
    ensures var t := Text(0x8000_0000_0000_0000, 0); FieldError(t, true) == 0 && FieldSize(t) == LONG_MAX
  {
    hide Strtol; hide Memparse; hide Dec; hide DecInt; hide Text; hide Find;
    TextReads(0x8000_0000_0000_0000, 0, true, 0);
    TextFields(0x8000_0000_0000_0000, 0);
    SizeReads(0x8000_0000_0000_0000);
  }
}
