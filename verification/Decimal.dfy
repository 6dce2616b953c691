// Decimal text as printf writes it and strtol reads it.
module Decimal {
  const LONG_MAX := 0x7FFF_FFFF_FFFF_FFFF
  const LONG_MIN := -0x8000_0000_0000_0000

  predicate IsDigit(c: char) { '0' <= c <= '9' }

  predicate IsSpace(c: char) { c == ' ' || '\t' <= c <= '\r' }

  function Digit(d: nat): (c: char)
    requires d < 10
    ensures IsDigit(c) && Value(c) == d
  {
    ('0' as int + d) as char
  }

  function Value(c: char): (d: nat)
    requires IsDigit(c)
    ensures d < 10
  {
    (c as int - '0' as int) as nat
  }

  // "%lu" and "%d".
  function Dec(n: nat): (s: string)
    ensures s != [] && AllDigits(s)
  {
    if n < 10 then [Digit(n)] else Dec(n / 10) + [Digit(n % 10)]
  }

  function DecInt(i: int): (s: string)
    ensures s != []
  {
    if i < 0 then "-" + Dec(-i) else Dec(i)
  }

  predicate AllDigits(s: string) { forall i :: 0 <= i < |s| ==> IsDigit(s[i]) }

  function Eval(s: string): (n: nat)
    requires AllDigits(s)
  {
    if s == [] then 0 else 10 * Eval(s[..|s| - 1]) + Value(s[|s| - 1])
  }

  lemma {:induction false} EvalDec(n: nat)
    ensures Eval(Dec(n)) == n
  {
    if n >= 10 {
      var s := Dec(n);
      assert s[..|s| - 1] == Dec(n / 10);
      EvalDec(n / 10);
    } else {
      assert Dec(n)[..0] == [];
    }
  }

  function SpaceEnd(s: string): (k: nat)
    ensures k <= |s| && (k < |s| ==> !IsSpace(s[k]))
  {
    if s == [] || !IsSpace(s[0]) then 0 else 1 + SpaceEnd(s[1..])
  }

  function DigitEnd(s: string): (k: nat)
    ensures k <= |s| && AllDigits(s[..k]) && (k < |s| ==> !IsDigit(s[k]))
  {
    if s == [] || !IsDigit(s[0]) then 0
    else
      assert s[..1 + DigitEnd(s[1..])] == [s[0]] + s[1..][..DigitEnd(s[1..])];
      1 + DigitEnd(s[1..])
  }

  lemma {:induction false} AllIsEnd(s: string)
    requires AllDigits(s)
    ensures DigitEnd(s) == |s|
  {
    if s != [] { AllIsEnd(s[1..]); }
  }

  function Clamp(v: int): (r: int) { if v > LONG_MAX then LONG_MAX else if v < LONG_MIN then LONG_MIN else v }

  datatype Number = Number(value: int, end: nat)

  // strtol in base 10: the value, and where it stopped reading. Without digits nothing is read.
  function Strtol(s: string): (r: Number)
    ensures r.end <= |s|
  {
    var k := SpaceEnd(s);
    var signed := k < |s| && (s[k] == '-' || s[k] == '+');
    var d := if signed then k + 1 else k;
    var n := DigitEnd(s[d..]);
    if n == 0 then Number(0, 0)
    else
      var v: int := Eval(s[d..][..n]);
      Number(Clamp(if signed && s[k] == '-' then -v else v), d + n)
  }

  // All of the text is one number.
  predicate Whole(s: string) { Strtol(s).end == |s| }

  lemma StrtolNat(n: nat)
    ensures Strtol(Dec(n)) == Number(Clamp(n), |Dec(n)|)
  {
    var s := Dec(n);
    EvalDec(n);
    AllIsEnd(s);
    assert IsDigit(s[0]) && s[0..] == s && s[..|s|] == s;
    hide Dec; hide Eval; hide DigitEnd;
    assert SpaceEnd(s) == 0;
  }

  lemma StrtolNegative(n: nat)
    ensures Strtol("-" + Dec(n)) == Number(Clamp(0 - n), 1 + |Dec(n)|)
  {
    var s, d := "-" + Dec(n), Dec(n);
    EvalDec(n);
    AllIsEnd(d);
    assert s[0] == '-' && s[1..] == d && d[..|d|] == d;
    hide Dec; hide Eval; hide DigitEnd;
    assert SpaceEnd(s) == 0;
  }

  lemma StrtolDec(i: int)
    ensures Strtol(DecInt(i)) == Number(Clamp(i), |DecInt(i)|)
  {
    hide Strtol; hide Dec;
    if i < 0 { StrtolNegative(-i); } else { StrtolNat(i); }
  }

  // Conversion of a long to int.
  function ToInt(v: int): (r: int)
    ensures -0x8000_0000 <= r < 0x8000_0000
    ensures -0x8000_0000 <= v < 0x8000_0000 ==> r == v
  {
    (v + 0x8000_0000) % 0x1_0000_0000 - 0x8000_0000
  }

  lemma {:induction false} DecHasNo(n: nat, c: char)
    requires !IsDigit(c)
    ensures c !in Dec(n)
  {
    assert forall i :: 0 <= i < |Dec(n)| ==> IsDigit(Dec(n)[i]);
  }
}
