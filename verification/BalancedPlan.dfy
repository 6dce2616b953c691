// How ihk_reserve_mem evens out what it has reserved: how much each NUMA node may give back.
module BalancedPlan {
  import RingMath

  const PAGE := 4096
  const MIB := 0x10_0000
  const MAX_NODES := 1024
  const TWO_64 := 0x1_0000_0000_0000_0000

  // The next whole MiB.
  function RoundUp(x: nat): (r: nat)
    ensures r % MIB == 0 && x <= r < x + MIB
  {
    WholeMiB((x + MIB - 1) / MIB);
    ((x + MIB - 1) / MIB) * MIB
  }

  lemma WholeMiB(k: nat)
    ensures (k * MIB) % MIB == 0
  {
    RingMath.ModUnique(k * MIB, MIB, k, 0);
  }

  // An equal share of m for each of n nodes, in whole MiB.
  function Share(m: nat, n: nat): (r: nat)
    requires n > 0
  {
    RoundUp(m / n)
  }

  // A share is the least whole number of MiB that is no less than the quotient.
  lemma ShareExactly(m: nat, n: nat, r: nat)
    requires n > 0
    ensures r == Share(m, n) <==> r % MIB == 0 && m / n <= r < m / n + MIB
  {
    hide RoundUp;
    if r % MIB == 0 && m / n <= r < m / n + MIB { OneMultiple(r, Share(m, n), m / n); }
  }

  lemma OneMultiple(a: nat, b: nat, x: nat)
    requires a % MIB == 0 && b % MIB == 0 && x <= a < x + MIB && x <= b < x + MIB
    ensures a == b
  {
    assert a == MIB * (a / MIB) && b == MIB * (b / MIB);
  }

  function Times(n: nat, a: nat): (r: nat) { n * a }

  // ---------- Sums over the first k nodes ----------

  function Sum(r: seq<nat>, k: nat): (n: nat)
    requires k <= |r|
  {
    if k == 0 then 0 else Sum(r, k - 1) + r[k - 1]
  }

  function Nodes(r: seq<nat>, k: nat): (n: nat)
    requires k <= |r|
    ensures n <= k
  {
    if k == 0 then 0 else Nodes(r, k - 1) + if r[k - 1] > 0 then 1 else 0
  }

  // How many nodes hold more than a, and by how much in all.
  function Above(r: seq<nat>, a: nat, k: nat): (n: nat)
    requires k <= |r|
    ensures n <= k
  {
    if k == 0 then 0 else Above(r, a, k - 1) + if r[k - 1] > a then 1 else 0
  }

  function Excess(r: seq<nat>, a: nat, k: nat): (n: nat)
    requires k <= |r|
  {
    if k == 0 then 0 else Excess(r, a, k - 1) + if r[k - 1] > a then r[k - 1] - a else 0
  }

  // What the nodes that hold more than `from` but at most a lack to a.
  function Missing(r: seq<nat>, from: nat, a: nat, k: nat): (n: nat)
    requires k <= |r|
  {
    if k == 0 then 0 else Missing(r, from, a, k - 1) + if from < r[k - 1] <= a then a - r[k - 1] else 0
  }

  function Min(a: nat, b: nat): nat { if a < b then a else b }

  // What is kept when every node gives back what it has above t.
  function Kept(r: seq<nat>, t: nat, k: nat): (n: nat)
    requires k <= |r|
  {
    if k == 0 then 0 else Kept(r, t, k - 1) + Min(r[k - 1], t)
  }

  // ---------- The plan ----------

  // Division by zero ends the program.
  datatype Outcome = NoMemory | DividesByZero | Release(sizes: seq<nat>)

  datatype Levels = Levels(average: nat, compensate: nat, compensate2: nat) {
    function Threshold(): nat { average + compensate + compensate2 }
  }

  // The total that is asked for after the best-effort rules, if there is enough.
  function Wanted(r: seq<nat>, requested: nat, bestEffort: bool): (w: nat)
    requires Nodes(r, |r|) > 0
  {
    var unit := Nodes(r, |r|) * MIB;
    var w := if Sum(r, |r|) < requested then Sum(r, |r|) else requested;
    if bestEffort then Down(w, unit) else w
  }

  function Down(w: nat, unit: nat): (r: nat)
    requires unit > 0
  {
    w / unit * unit
  }

  ghost predicate LevelsOf(r: seq<nat>, wanted: nat, l: Levels) {
    var n := |r|;
    && Nodes(r, n) > 0 && l.average == Share(wanted, Nodes(r, n))
    && Above(r, l.average, n) > 0 && l.compensate == Share(Missing(r, 0, l.average, n), Above(r, l.average, n))
    && Above(r, l.average + l.compensate, n) > 0
    && l.compensate2 == Share(Missing(r, l.average, l.average + l.compensate, n), Above(r, l.average + l.compensate, n))
  }

  function ToRelease(r: nat, t: nat): (n: nat)
    ensures n <= r && r - n == Min(r, t)
  {
    if r > t then r - t else 0
  }

  // Every node with memory keeps an amount within the limit of the average.
  ghost predicate WithinLimit(r: seq<nat>, l: Levels, limit: nat) {
    forall i :: 0 <= i < |r| && r[i] > 0 ==> l.average - limit <= Min(r[i], l.Threshold()) <= l.average + limit
  }

  ghost predicate SomeKeeps(r: seq<nat>, t: nat, n: nat) {
    exists i :: 0 <= i < |r| && r[i] > 0 && n == Min(r[i], t)
  }

  // Unsigned subtraction of 64-bit numbers.
  function Sub64(a: nat, b: nat): (d: nat)
    requires b < TWO_64
  {
    if a >= b then a - b else TWO_64 - b + a
  }

  method CountNodes(r: seq<nat>) returns (nodes: nat, total: nat)
    ensures nodes == Nodes(r, |r|) && total == Sum(r, |r|)
  {
    nodes, total := 0, 0;
    for i := 0 to |r|
      invariant nodes == Nodes(r, i) && total == Sum(r, i)
    {
      if r[i] != 0 { nodes := nodes + 1; }
      total := total + r[i];
    }
  }

  method CompareWith(r: seq<nat>, average: nat) returns (above: nat, excess: nat, missing: nat)
    ensures above == Above(r, average, |r|) && excess == Excess(r, average, |r|)
      && missing == Missing(r, 0, average, |r|)
  {
    above, excess, missing := 0, 0, 0;
    for i := 0 to |r|
      invariant above == Above(r, average, i) && excess == Excess(r, average, i) && missing == Missing(r, 0, average, i)
    {
      if r[i] == 0 { continue; }
      if r[i] > average {
        above, excess := above + 1, excess + (r[i] - average);
      } else {
        missing := missing + (average - r[i]);
      }
    }
  }

  method CompareAgain(r: seq<nat>, average: nat, compensate: nat) returns (above: nat, missing: nat)
    ensures above == Above(r, average + compensate, |r|) && missing == Missing(r, average, average + compensate, |r|)
  {
    above, missing := 0, 0;
    for i := 0 to |r|
      invariant above == Above(r, average + compensate, i) && missing == Missing(r, average, average + compensate, i)
    {
      if r[i] <= average { continue; }
      if r[i] > average + compensate {
        above := above + 1;
      } else {
        missing := missing + (average + compensate - r[i]);
      }
    }
  }

  // The sizes to release, and the least and the most that a node keeps.
  method Sizes(r: seq<nat>, t: nat) returns (sizes: seq<nat>, min: nat, max: nat)
    requires forall i :: 0 <= i < |r| ==> r[i] < TWO_64 - 1
    ensures |sizes| == |r| && forall i :: 0 <= i < |r| ==> sizes[i] == ToRelease(r[i], t)
    ensures forall i :: 0 <= i < |r| && r[i] > 0 ==> min <= Min(r[i], t) <= max
    ensures min < TWO_64 && (Nodes(r, |r|) > 0 ==> SomeKeeps(r, t, min)) && (max == 0 || SomeKeeps(r, t, max))
  {
    sizes, min, max := [], TWO_64 - 1, 0;
    for i := 0 to |r|
      invariant |sizes| == i && forall j :: 0 <= j < i ==> sizes[j] == ToRelease(r[j], t)
      invariant forall j :: 0 <= j < i && r[j] > 0 ==> min <= Min(r[j], t) <= max
      invariant min < TWO_64 && (Nodes(r, i) == 0 ==> min == TWO_64 - 1) && (Nodes(r, i) > 0 ==> SomeKeeps(r, t, min))
      invariant max == 0 || SomeKeeps(r, t, max)
    {
      var size := ToRelease(r[i], t);
      sizes := sizes + [size];
      if r[i] > 0 && r[i] - size < min { min := r[i] - size; }
      if r[i] > 0 && r[i] - size > max { max := r[i] - size; }
    }
  }

  lemma {:induction false} AboveSome(r: seq<nat>, a: nat, k: nat)
    requires k <= |r| && Above(r, a, k) > 0
    ensures exists i :: 0 <= i < k && r[i] > a
  {
    if r[k - 1] <= a { AboveSome(r, a, k - 1); }
  }

  lemma {:induction false} MissingNone(r: seq<nat>, from: nat, a: nat, k: nat)
    requires k <= |r| && forall i :: 0 <= i < k ==> !(from < r[i] <= a)
    ensures Missing(r, from, a, k) == 0
  {
    if k > 0 { MissingNone(r, from, a, k - 1); }
  }

  // The least kept is at most the average and the most kept at least that, so neither subtraction wraps.
  lemma Brackets(r: seq<nat>, l: Levels, wanted: nat, min: nat, max: nat)
    requires LevelsOf(r, wanted, l) && forall i :: 0 <= i < |r| && r[i] > 0 ==> min <= Min(r[i], l.Threshold()) <= max
    ensures min <= l.average <= max
  {
    hide Share; hide Missing; hide Above; hide Nodes;
    var n := |r|;
    AboveSome(r, l.average + l.compensate, n);
    var i :| 0 <= i < n && r[i] > l.average + l.compensate;
    assert min <= Min(r[i], l.Threshold()) <= max;
    if j :| 0 <= j < n && 0 < r[j] <= l.average {
      assert min <= Min(r[j], l.Threshold());
    } else {
      MissingNone(r, 0, l.average, n);
      MissingNone(r, l.average, l.average, n);
      NoShare(Above(r, l.average, n));
      NoShare(Above(r, l.average + l.compensate, n));
    }
  }

  lemma NoShare(n: nat)
    requires n > 0
    ensures Share(0, n) == 0
  {
    assert 0 / n == 0;
  }

  lemma LimitExactly(r: seq<nat>, l: Levels, limit: nat, min: nat, max: nat)
    requires forall i :: 0 <= i < |r| && r[i] > 0 ==> min <= Min(r[i], l.Threshold()) <= max
    requires min <= l.average <= max && SomeKeeps(r, l.Threshold(), min)
      && (max == 0 || SomeKeeps(r, l.Threshold(), max))
    ensures WithinLimit(r, l, limit) <==> max - l.average <= limit && l.average - min <= limit
  {
  }

  lemma RoundUpMonotone(a: nat, b: nat)
    requires a <= b
    ensures RoundUp(a) <= RoundUp(b)
  {
    assert (a + MIB - 1) / MIB <= (b + MIB - 1) / MIB;
  }

  lemma WantedBound(r: seq<nat>, requested: nat, bestEffort: bool)
    requires Nodes(r, |r|) > 0
    ensures Wanted(r, requested, bestEffort) <= requested && Wanted(r, requested, bestEffort) <= Sum(r, |r|)
  {
    var n := Nodes(r, |r|);
    var w := if Sum(r, |r|) < requested then Sum(r, |r|) else requested;
    DivisionDown(w, n * MIB);
  }

  // Without best effort the request stands. With it, it is cut to what is there and then to the largest amount that
  // is a whole number of MiB for every node.
  lemma WantedExactly(r: seq<nat>, requested: nat, bestEffort: bool)
    requires Nodes(r, |r|) > 0
    ensures var w, unit := Wanted(r, requested, bestEffort), Times(Nodes(r, |r|), MIB);
      && unit > 0
      && (!bestEffort && requested <= Sum(r, |r|) ==> w == requested)
      && (bestEffort ==>
        w % unit == 0 && w <= requested && w <= Sum(r, |r|) && (requested < w + unit || Sum(r, |r|) < w + unit))
  {
    var unit := Nodes(r, |r|) * MIB;
    var w := if Sum(r, |r|) < requested then Sum(r, |r|) else requested;
    Quotient(w, unit);
    RingMath.ModUnique(w / unit * unit, unit, w / unit, 0);
  }

  lemma DivisionDown(w: nat, unit: nat)
    requires unit > 0
    ensures w / unit * unit <= w
  {
  }

  lemma AverageFits(r: seq<nat>, requested: nat, bestEffort: bool)
    requires Nodes(r, |r|) > 0 && RoundUp(requested) < TWO_64
    ensures Share(Wanted(r, requested, bestEffort), Nodes(r, |r|)) < TWO_64
  {
    hide RoundUp; hide Wanted;
    var w, n := Wanted(r, requested, bestEffort), Nodes(r, |r|);
    WantedBound(r, requested, bestEffort);
    Quotient(w, n);
    RoundUpMonotone(w / n, requested);
  }

  lemma Quotient(w: nat, n: nat)
    requires n > 0
    ensures w == n * (w / n) + w % n && w % n < n && w / n <= w
  {
    Product(w / n, 1, n);
  }

  lemma Product(k: nat, a: nat, b: nat)
    requires a <= b
    ensures k * a <= k * b && a * k <= b * k
  {
  }

  function Limit(l: Levels, percent: nat): (n: nat) { l.average * percent / 100 }

  // The limit is the percentage of the average, rounded down.
  lemma LimitIs(l: Levels, percent: nat)
    ensures 100 * Limit(l, percent) <= Times(l.average, percent) < 100 * Limit(l, percent) + 100
  {
  }

  // When the plan divides by zero: the memory is enough, but no node is above the average, or none is above the
  // average with its compensation.
  ghost predicate Divides(r: seq<nat>, wanted: nat)
    requires Nodes(r, |r|) > 0
  {
    var n, a := |r|, Share(wanted, Nodes(r, |r|));
    && Missing(r, 0, a, n) <= Excess(r, a, n)
    && (Above(r, a, n) == 0 || Above(r, a + Share(Missing(r, 0, a, n), Above(r, a, n)), n) == 0)
  }

  lemma {:induction false} AboveNone(r: seq<nat>, a: nat, k: nat)
    requires k <= |r|
    ensures Above(r, a, k) == 0 <==> forall i :: 0 <= i < k ==> r[i] <= a
    ensures Above(r, a, k) == 0 ==> Excess(r, a, k) == 0
  {
    if k > 0 { AboveNone(r, a, k - 1); }
  }

  lemma {:induction false} MissingExactly(r: seq<nat>, a: nat, k: nat)
    requires k <= |r|
    ensures Missing(r, 0, a, k) == 0 <==> forall i :: 0 <= i < k && r[i] > 0 ==> r[i] >= a
  {
    if k > 0 { MissingExactly(r, a, k - 1); }
  }

  // Every node with memory holds exactly the average, or all nodes that lack some are made up for by nodes that
  // hold no more than the average and the compensation.
  ghost predicate TooEven(r: seq<nat>, a: nat) {
    || (forall i :: 0 <= i < |r| && r[i] > 0 ==> r[i] == a)
    || (Missing(r, 0, a, |r|) <= Excess(r, a, |r|) && Above(r, a, |r|) > 0
        && forall i :: 0 <= i < |r| ==> r[i] <= a + Share(Missing(r, 0, a, |r|), Above(r, a, |r|)))
  }

  lemma DividesExactly(r: seq<nat>, wanted: nat)
    requires Nodes(r, |r|) > 0
    ensures Divides(r, wanted) <==> TooEven(r, Share(wanted, Nodes(r, |r|)))
  {
    hide Share; hide Missing; hide Excess; hide Above; hide Nodes;
    var n, a := |r|, Share(wanted, Nodes(r, |r|));
    AboveNone(r, a, n);
    MissingExactly(r, a, n);
    if Above(r, a, n) > 0 { AboveNone(r, a + Share(Missing(r, 0, a, n), Above(r, a, n)), n); }
  }

  // Two nodes that hold 90 and 110 MiB, of which 200 are wanted.
  lemma DividesAtTwoNodes()
    ensures var r := [90 * MIB, 110 * MIB]; Nodes(r, 2) > 0 && Sum(r, 2) == 200 * MIB && Divides(r, 200 * MIB)
  {
    var r, a := [90 * MIB, 110 * MIB], 100 * MIB;
    assert Nodes(r, 1) == 1 && Nodes(r, 2) == 2 && Sum(r, 1) == 90 * MIB;
    assert Above(r, a, 1) == 0 && Above(r, a, 2) == 1 && Excess(r, a, 1) == 0 && Excess(r, a, 2) == 10 * MIB;
    assert Missing(r, 0, a, 1) == 10 * MIB && Missing(r, 0, a, 2) == 10 * MIB;
    assert Above(r, 110 * MIB, 1) == 0 && Above(r, 110 * MIB, 2) == 0;
  }

  // When a plan for an amount is refused.
  ghost predicate Refused(r: seq<nat>, wanted: nat, percent: nat, l: Levels)
    requires Nodes(r, |r|) > 0
  {
    || (l.average == Share(wanted, Nodes(r, |r|)) && Missing(r, 0, l.average, |r|) > Excess(r, l.average, |r|))
    || (LevelsOf(r, wanted, l) && !WithinLimit(r, l, Limit(l, percent)))
  }

  // When it is carried out, and with which sizes.
  ghost predicate Accepted(r: seq<nat>, wanted: nat, percent: nat, l: Levels, sizes: seq<nat>) {
    && LevelsOf(r, wanted, l) && WithinLimit(r, l, Limit(l, percent))
      && Missing(r, 0, l.average, |r|) <= Excess(r, l.average, |r|)
    && |sizes| == |r| && forall i :: 0 <= i < |r| ==> sizes[i] == ToRelease(r[i], l.Threshold())
  }

  // The three levels and the variance test.
  method PlanFor(r: seq<nat>, nodes: nat, wanted: nat, percent: nat) returns (o: Outcome, ghost l: Levels)
    requires forall i :: 0 <= i < |r| ==> r[i] < TWO_64 - 1
    requires nodes == Nodes(r, |r|) > 0 && Share(wanted, nodes) < TWO_64
    ensures o.DividesByZero? <==> Divides(r, wanted)
    ensures o.Release? ==> Accepted(r, wanted, percent, l, o.sizes)
    ensures o.NoMemory? ==> Refused(r, wanted, percent, l)
  {
    hide Share; hide Missing; hide Excess; hide Above; hide Nodes; hide WithinLimit; hide Limit; hide SomeKeeps;
    var average := Share(wanted, nodes);
    l := Levels(average, 0, 0);
    var above, excess, missing := CompareWith(r, average);
    if missing > excess { return NoMemory, l; }
    if above == 0 { return DividesByZero, l; }
    var compensate := Share(missing, above);
    var above2, missing2 := CompareAgain(r, average, compensate);
    if above2 == 0 { return DividesByZero, l; }
    var compensate2 := Share(missing2, above2);
    var levels := Levels(average, compensate, compensate2);
    l := levels;
    var sizes, min, max := Sizes(r, levels.Threshold());
    Brackets(r, l, wanted, min, max);
    var limit := Limit(levels, percent);
    LimitExactly(r, l, limit, min, max);
    if Sub64(max, average) > limit || Sub64(average, min) > limit { return NoMemory, l; }
    return Release(sizes), l;
  }

  // The balanced part of ihk_reserve_mem: `r` is what each node has reserved, `percent` the allowed variance.
  method Plan(r: seq<nat>, requested: nat, bestEffort: bool, percent: nat) returns (o: Outcome, ghost l: Levels)
    requires forall i :: 0 <= i < |r| ==> r[i] < TWO_64 - 1
    requires RoundUp(requested) < TWO_64
    ensures Sum(r, |r|) < requested && !bestEffort ==> o.NoMemory?
    ensures Sum(r, |r|) >= requested || bestEffort ==>
      if Nodes(r, |r|) == 0 then o.DividesByZero?
      else
        var wanted := Wanted(r, requested, bestEffort);
        && (o.DividesByZero? <==> Divides(r, wanted))
        && (o.Release? ==> Accepted(r, wanted, percent, l, o.sizes))
        && (o.NoMemory? ==> Refused(r, wanted, percent, l))
  {
    hide RoundUp; hide Share; hide Sum; hide Nodes; hide Accepted; hide Refused; hide Divides;
    l := Levels(0, 0, 0);
    var nodes, total := CountNodes(r);
    var wanted := requested;
    if total < requested {
      if !bestEffort { return NoMemory, l; }
      wanted := total;
    }
    if nodes == 0 { return DividesByZero, l; }
    if bestEffort { wanted := wanted / (nodes * MIB) * (nodes * MIB); }
    AverageFits(r, requested, bestEffort);
    o, l := PlanFor(r, nodes, wanted, percent);
  }

  // ---------- What an accepted plan keeps ----------

  // Rounding up a share by whole MiB makes up for what the division drops, since amounts are whole pages
  // and there are fewer nodes than bytes in a page.
  lemma SharesCover(m: nat, n: nat)
    requires m % PAGE == 0 && 0 < n <= MAX_NODES
    ensures Times(n, Share(m, n)) >= m
  {
    var q, rest := m / n, m % n;
    Quotient(m, n);
    RoundUpIs(q);
    if q % MIB == 0 {
      WholePages(m, n, q, rest);
    } else {
      Product(n, q + 1, RoundUp(q));
      assert n * (q + 1) == n * q + n;
    }
  }

  lemma RoundUpIs(q: nat)
    ensures if q % MIB == 0 then RoundUp(q) == q else RoundUp(q) >= q + 1
    ensures RoundUp(q) % MIB == 0 && RoundUp(q) % PAGE == 0
  {
    var k := (q + MIB - 1) / MIB;
    RingMath.ModUnique(k * MIB, MIB, k, 0);
    RingMath.ModUnique(k * MIB, PAGE, k * 256, 0);
    assert k == if q % MIB == 0 then q / MIB else q / MIB + 1;
  }

  lemma WholePages(m: nat, n: nat, q: nat, rest: nat)
    requires m % PAGE == 0 && m == n * q + rest && rest < n <= MAX_NODES && q % MIB == 0
    ensures rest == 0
  {
    var k := q / MIB;
    assert q == k * MIB;
    assert n * q == (n * k) * MIB;
    var p := m / PAGE;
    assert rest == (p - (n * k) * 256) * PAGE;
  }

  // What the plan aims at for node after node.
  function Target(r: seq<nat>, l: Levels, k: nat): (n: nat)
    requires k <= |r|
  {
    if k == 0 then 0
    else
      Target(r, l, k - 1) + (if r[k - 1] > 0 then l.average else 0) +
        (if r[k - 1] > l.average then l.compensate else 0) +
      if r[k - 1] > l.average + l.compensate then l.compensate2 else 0
  }

  lemma {:induction false} TargetIs(r: seq<nat>, l: Levels, k: nat)
    requires k <= |r|
    ensures Target(r, l, k) ==
      Times(Nodes(r, k), l.average) + Times(Above(r, l.average, k), l.compensate) +
        Times(Above(r, l.average + l.compensate, k), l.compensate2)
  {
    hide Times;
    NoneTimes(l.average);
    NoneTimes(l.compensate);
    NoneTimes(l.compensate2);
    if k > 0 {
      TargetIs(r, l, k - 1);
      OneMore(Nodes(r, k - 1), l.average);
      OneMore(Above(r, l.average, k - 1), l.compensate);
      OneMore(Above(r, l.average + l.compensate, k - 1), l.compensate2);
    }
  }

  lemma OneMore(n: nat, a: nat)
    ensures Times(n + 1, a) == Times(n, a) + a
  {
  }

  lemma NoneTimes(a: nat)
    ensures Times(0, a) == 0
  {
  }

  // Node by node: what is kept, with the three kinds of shortfall, is the target.
  lemma {:induction false} KeptIs(r: seq<nat>, l: Levels, k: nat)
    requires k <= |r|
    ensures var c := l.average + l.compensate;
      Kept(r, l.Threshold(), k) + Missing(r, 0, l.average, k) + Missing(r, l.average, c, k) +
        Missing(r, c, l.Threshold(), k) == Target(r, l, k)
  {
    if k > 0 { KeptIs(r, l, k - 1); }
  }

  // What rounding adds to the two compensations.
  ghost function Surplus(r: seq<nat>, l: Levels): (n: int) {
    var k, c := |r|, l.average + l.compensate;
    Times(Above(r, l.average, k), l.compensate) - Missing(r, 0, l.average, k) +
      (Times(Above(r, c, k), l.compensate2) - Missing(r, l.average, c, k))
  }

  ghost predicate WholePageAmounts(r: seq<nat>) {
    |r| <= MAX_NODES && forall i :: 0 <= i < |r| ==> r[i] % PAGE == 0
  }

  lemma {:induction false} MissingWhole(r: seq<nat>, from: nat, a: nat, k: nat)
    requires k <= |r| && WholePageAmounts(r) && a % PAGE == 0
    ensures Missing(r, from, a, k) % PAGE == 0
  {
    if k > 0 {
      MissingWhole(r, from, a, k - 1);
      if from < r[k - 1] <= a { WholeSum(Missing(r, from, a, k - 1), a, r[k - 1]); }
    }
  }

  lemma WholeSum(m: nat, a: nat, b: nat)
    requires m % PAGE == 0 && a % PAGE == 0 && b % PAGE == 0 && b <= a
    ensures (m + (a - b)) % PAGE == 0
  {
  }

  lemma ShareWhole(m: nat, n: nat)
    requires n > 0
    ensures Share(m, n) % PAGE == 0
  {
    RoundUpIs(m / n);
  }

  // Both compensations cover what they are for.
  lemma SurplusNotNegative(r: seq<nat>, wanted: nat, l: Levels)
    requires LevelsOf(r, wanted, l) && WholePageAmounts(r)
    ensures Surplus(r, l) >= 0
  {
    hide Missing; hide Share; hide Times; hide Above; hide Nodes;
    var k := |r|;
    var c := l.average + l.compensate;
    ShareWhole(wanted, Nodes(r, k));
    MissingWhole(r, 0, l.average, k);
    SharesCover(Missing(r, 0, l.average, k), Above(r, l.average, k));
    ShareWhole(Missing(r, 0, l.average, k), Above(r, l.average, k));
    WholeSum(l.average, l.compensate, 0);
    MissingWhole(r, l.average, c, k);
    SharesCover(Missing(r, l.average, c, k), Above(r, c, k));
  }

  // A plan keeps the average for every node exactly when the nodes that were to release but do not reach the
  // threshold lack no more than rounding has added.
  lemma KeepsAverageExactly(r: seq<nat>, l: Levels)
    ensures Kept(r, l.Threshold(), |r|) >= Times(Nodes(r, |r|), l.average) <==>
      Missing(r, l.average + l.compensate, l.Threshold(), |r|) <= Surplus(r, l)
  {
    hide Times; hide Kept; hide Missing; hide Target; hide Above; hide Nodes;
    KeptIs(r, l, |r|);
    TargetIs(r, l, |r|);
  }

  // In particular when every node above the average with compensation is above the threshold as well.
  lemma KeepsAverage(r: seq<nat>, wanted: nat, l: Levels)
    requires LevelsOf(r, wanted, l) && WholePageAmounts(r)
    requires forall i :: 0 <= i < |r| && r[i] > l.average + l.compensate ==> r[i] > l.Threshold()
    ensures Kept(r, l.Threshold(), |r|) >= Times(Nodes(r, |r|), l.average)
  {
    hide Surplus; hide LevelsOf; hide Times; hide Kept; hide Missing; hide Nodes;
    SurplusNotNegative(r, wanted, l);
    MissingNone(r, l.average + l.compensate, l.Threshold(), |r|);
    KeepsAverageExactly(r, l);
  }

  // The average of all nodes is at least what was wanted in all.
  lemma AverageCovers(r: seq<nat>, wanted: nat, l: Levels)
    requires LevelsOf(r, wanted, l) && |r| <= MAX_NODES && wanted % PAGE == 0
    ensures Times(Nodes(r, |r|), l.average) >= wanted
  {
    SharesCover(wanted, Nodes(r, |r|));
  }

  // The sizes of a plan are whole pages, as the trimming of a node needs them.
  lemma SizesAreWhole(r: seq<nat>, wanted: nat, l: Levels, i: nat)
    requires LevelsOf(r, wanted, l) && WholePageAmounts(r) && i < |r|
    ensures ToRelease(r[i], l.Threshold()) % PAGE == 0
  {
    hide Share; hide Missing; hide Above; hide Nodes;
    var n := |r|;
    var c := l.average + l.compensate;
    ShareWhole(wanted, Nodes(r, n));
    ShareWhole(Missing(r, 0, l.average, n), Above(r, l.average, n));
    ShareWhole(Missing(r, l.average, c, n), Above(r, c, n));
    WholeSum(l.average, l.compensate, 0);
    WholeSum(c, l.compensate2, 0);
    if r[i] > l.Threshold() { WholeSum(0, r[i], l.Threshold()); }
  }

  // Without that condition a plan can release too much: five nodes of which one is just above the second level
  // keep 4977 MiB where 5000 are wanted, and the plan is carried out when a variance of 10 percent is allowed.
  lemma ReleasesTooMuch()
    ensures var r, l := FiveNodes(), Levels(1000 * MIB, 25 * MIB, 24 * MIB);
      && Accepted(r, 5000 * MIB, 10, l, [0, 0, 0, 0, 23 * MIB])
      && Sum(r, 5) == 5000 * MIB && Kept(r, l.Threshold(), 5) == 4977 * MIB
  {
    hide Above; hide Missing; hide Excess; hide Nodes; hide Sum; hide Kept;
    FiveCounts();
    FiveSums();
    FiveMissing();
  }

  function FiveNodes(): seq<nat> { [900 * MIB, 1001 * MIB, 1001 * MIB, 1026 * MIB, 1072 * MIB] }

  lemma FiveCounts()
    ensures var r := FiveNodes(); Nodes(r, 5) == 5 && Above(r, 1000 * MIB, 5) == 4 && Above(r, 1025 * MIB, 5) == 2
  {
    var r, a, c := FiveNodes(), 1000 * MIB, 1025 * MIB;
    assert Nodes(r, 1) == 1 && Nodes(r, 2) == 2 && Nodes(r, 3) == 3 && Nodes(r, 4) == 4;
    assert Above(r, a, 1) == 0 && Above(r, a, 2) == 1 && Above(r, a, 3) == 2 && Above(r, a, 4) == 3;
    assert Above(r, c, 1) == 0 && Above(r, c, 2) == 0 && Above(r, c, 3) == 0 && Above(r, c, 4) == 1;
  }

  lemma FiveSums()
    ensures var r := FiveNodes(); Sum(r, 5) == 5000 * MIB && Kept(r, 1049 * MIB, 5) == 4977 * MIB
  {
    var r, t := FiveNodes(), 1049 * MIB;
    assert Sum(r, 1) == 900 * MIB && Sum(r, 2) == 1901 * MIB && Sum(r, 3) == 2902 * MIB && Sum(r, 4) == 3928 * MIB;
    assert Kept(r, t, 1) == 900 * MIB && Kept(r, t, 2) == 1901 * MIB && Kept(r, t, 3) == 2902 * MIB;
    assert Kept(r, t, 4) == 3928 * MIB;
  }

  lemma FiveMissing()
    ensures var r := FiveNodes();
      && Missing(r, 0, 1000 * MIB, 5) == 100 * MIB && Excess(r, 1000 * MIB, 5) == 100 * MIB
      && Missing(r, 1000 * MIB, 1025 * MIB, 5) == 48 * MIB
  {
    var r, a, c := FiveNodes(), 1000 * MIB, 1025 * MIB;
    assert Excess(r, a, 1) == 0 && Excess(r, a, 2) == MIB && Excess(r, a, 3) == 2 * MIB && Excess(r, a, 4) == 28 * MIB;
    assert Missing(r, 0, a, 1) == 100 * MIB && Missing(r, 0, a, 2) == 100 * MIB && Missing(r, 0, a, 3) == 100 * MIB;
    assert Missing(r, 0, a, 4) == 100 * MIB;
    assert Missing(r, a, c, 1) == 0 && Missing(r, a, c, 2) == 24 * MIB && Missing(r, a, c, 3) == 48 * MIB;
    assert Missing(r, a, c, 4) == 48 * MIB;
  }
}
