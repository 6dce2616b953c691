// Text made of fields with a separator, as strsep takes it apart.
module Fields {
  import opened Options

  function Find(s: string, c: char): (k: nat)
    ensures k <= |s| && c !in s[..k] && (k < |s| ==> s[k] == c)
  {
    if s == [] || s[0] == c then 0
    else
      assert s[..1 + Find(s[1..], c)] == [s[0]] + s[1..][..Find(s[1..], c)];
      1 + Find(s[1..], c)
  }

  lemma {:induction false} FindAt(s: string, c: char, k: nat)
    requires k <= |s| && c !in s[..k] && (k < |s| ==> s[k] == c)
    ensures Find(s, c) == k
  {
    if k > 0 {
      assert s[..k] == [s[0]] + s[1..][..k - 1];
      FindAt(s[1..], c, k - 1);
    }
  }

  function Split(s: string, c: char): (ts: seq<string>)
    ensures ts != []
    decreases |s|
  {
    var k := Find(s, c);
    if k == |s| then [s] else [s[..k]] + Split(s[k + 1..], c)
  }

  function Join(ts: seq<string>, c: char): (s: string) {
    if ts == [] then "" else if |ts| == 1 then ts[0] else ts[0] + [c] + Join(ts[1..], c)
  }

  lemma SplitFirst(t: string, c: char, back: string)
    requires c !in t
    ensures Split(t + [c] + back, c) == [t] + Split(back, c)
  {
    var s := t + [c] + back;
    assert s[..|t|] == t && s[|t|] == c && s[|t| + 1..] == back;
    FindAt(s, c, |t|);
  }

  // Fields without the separator come back as they were.
  lemma {:induction false} SplitJoin(ts: seq<string>, c: char)
    requires ts != [] && forall i :: 0 <= i < |ts| ==> c !in ts[i]
    ensures Split(Join(ts, c), c) == ts
  {
    var s, t := Join(ts, c), ts[0];
    if |ts| == 1 {
      assert s == t == s[..|t|] && ts == [t];
      FindAt(s, c, |t|);
    } else {
      var back := Join(ts[1..], c);
      SplitJoin(ts[1..], c);
      assert s == t + [c] + back;
      hide Join;
      SplitFirst(t, c, back);
      assert ts == [t] + ts[1..];
    }
  }

  // Each field followed by the separator.
  function Trail(ts: seq<string>, c: char): (s: string) {
    if ts == [] then "" else Trail(ts[..|ts| - 1], c) + ts[|ts| - 1] + [c]
  }

  lemma {:induction false} TrailFront(ts: seq<string>, c: char)
    requires ts != []
    ensures Trail(ts, c) == ts[0] + [c] + Trail(ts[1..], c)
  {
    var last := |ts| - 1;
    if last == 0 {
      assert ts[..0] == [] && ts[1..] == [];
    } else {
      TrailFront(ts[..last], c);
      assert ts[..last][1..] == ts[1..][..last - 1];
      var mid := Trail(ts[1..][..last - 1], c);
      assert Trail(ts, c) == Trail(ts[..last], c) + ts[last] + [c];
      assert Trail(ts[1..], c) == mid + ts[last] + [c];
      hide Trail;
      assert (ts[0] + [c] + mid) + ts[last] + [c] == ts[0] + [c] + (mid + ts[last] + [c]);
    }
  }

  lemma {:induction false} JoinIsTrail(ts: seq<string>, t: string, c: char)
    ensures Join(ts + [t], c) == Trail(ts, c) + t
  {
    if ts != [] {
      TrailFront(ts, c);
      assert (ts + [t])[1..] == ts[1..] + [t];
      JoinIsTrail(ts[1..], t, c);
    }
  }

  // Writing field after field, with the separator after all but the last.
  lemma TrailStart(ts: seq<string>, c: char)
    ensures Trail(ts[..0], c) == "" && (ts == [] ==> Join(ts, c) == "")
  {
  }

  lemma TrailStep(ts: seq<string>, i: nat, c: char)
    requires i < |ts|
    ensures Trail(ts[..i + 1], c) == Trail(ts[..i], c) + ts[i] + [c]
    ensures i == |ts| - 1 ==> Join(ts, c) == Trail(ts[..i], c) + ts[i]
  {
    assert ts[..i + 1][..i] == ts[..i];
    if i == |ts| - 1 {
      assert ts == ts[..i] + [ts[i]];
      JoinIsTrail(ts[..i], ts[i], c);
    }
  }

  // strsep: the next field, and what follows if there was a separator.
  method Strsep(s: string, c: char) returns (token: string, rest: Option<string>)
    ensures Split(s, c) == [token] + if rest.Some? then Split(rest.value, c) else []
    ensures rest.Some? ==> |rest.value| < |s|
    ensures rest.Some? <==> c in s
    ensures c !in token && s == token + if rest.Some? then [c] + rest.value else []
  {
    var k := 0;
    while k < |s| && s[k] != c
      invariant 0 <= k <= |s| && c !in s[..k]
    {
      k := k + 1;
    }
    FindAt(s, c, k);
    if k == |s| { return s, None; }
    return s[..k], Some(s[k + 1..]);
  }
}
