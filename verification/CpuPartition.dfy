// Which CPUs belong to Linux, to IHK, and to each co-kernel.
module CpuPartition {
  const EINVAL := 22
  const EBUSY := 16

  datatype Status = NoCpu | Online | Available | Assigned | ToOffline | Offlined | ToOnline

  // `os` is 0 for a CPU without an owner.
  datatype Cpu = Cpu(status: Status, os: nat)

  // cpu_mapping and cpu_hw_ids of an OS, as far as nr_cpus.
  datatype OsCpus = OsCpus(mapping: seq<int>, hwIds: seq<int>)

  ghost predicate NoRepeats(s: seq<int>) {
    forall i, j :: 0 <= i < j < |s| ==> s[i] != s[j]
  }

  predicate InRange(req: seq<int>, n: nat) {
    forall i :: 0 <= i < |req| ==> 0 <= req[i] < n
  }

  // ---------- The invariant ----------

  // Between requests: no status is in passing, and a CPU is assigned exactly when it has an owner.
  ghost predicate Settled(cpus: seq<Cpu>) {
    forall i :: 0 <= i < |cpus| ==>
      && cpus[i].status in {NoCpu, Online, Available, Assigned}
      && (cpus[i].status == Assigned <==> cpus[i].os != 0)
  }

  // The mapping of an OS lists its CPUs, each once, with their hardware ids in step.
  ghost predicate Lists(cpus: seq<Cpu>, hw: seq<int>, os: nat, m: OsCpus) {
    && NoRepeats(m.mapping) && InStep(hw, m) && |hw| == |cpus|
    && (forall i :: 0 <= i < |m.mapping| ==> 0 <= m.mapping[i] < |cpus| && cpus[m.mapping[i]].os == os)
    && (forall c :: 0 <= c < |cpus| && cpus[c].os == os ==> c in m.mapping)
  }

  ghost predicate InStep(hw: seq<int>, m: OsCpus) {
    |m.mapping| == |m.hwIds|
      && forall i :: 0 <= i < |m.mapping| ==> 0 <= m.mapping[i] < |hw| && m.hwIds[i] == hw[m.mapping[i]]
  }

  ghost predicate Good(cpus: seq<Cpu>, hw: seq<int>, maps: map<nat, OsCpus>) {
    && Settled(cpus) && 0 !in maps
    && (forall os :: os in maps ==> Lists(cpus, hw, os, maps[os]))
    && (forall c :: 0 <= c < |cpus| && cpus[c].os != 0 ==> cpus[c].os in maps)
  }

  // ---------- Dropping CPUs from a mapping ----------

  // The entries that stay, in order.
  function Keep(s: seq<int>, gone: set<int>): (r: seq<int>) {
    if s == [] then []
    else
      var k := Keep(s[..|s| - 1], gone);
      if s[|s| - 1] in gone then k else k + [s[|s| - 1]]
  }

  lemma {:induction false} KeepIs(s: seq<int>, gone: set<int>)
    ensures forall x :: x in Keep(s, gone) <==> x in s && x !in gone
    ensures NoRepeats(s) ==> NoRepeats(Keep(s, gone))
  {
    if s != [] {
      var last := |s| - 1;
      KeepIs(s[..last], gone);
      assert s == s[..last] + [s[last]];
      assert NoRepeats(s) ==> s[last] !in s[..last];
    }
  }

  lemma {:induction false} KeepTwice(s: seq<int>, a: set<int>, b: set<int>)
    ensures Keep(Keep(s, a), b) == Keep(s, a + b)
  {
    if s != [] {
      var last := |s| - 1;
      KeepTwice(s[..last], a, b);
      if s[last] !in a {
        KeepConcat(Keep(s[..last], a), [s[last]], b);
        KeepSingle(s[last], b);
      }
    }
  }

  lemma {:induction false} KeepAll(s: seq<int>, gone: set<int>)
    requires forall x :: x in s ==> x !in gone
    ensures Keep(s, gone) == s
  {
    if s != [] {
      var x, front := s[|s| - 1], s[..|s| - 1];
      assert x in s && forall y :: y in front ==> y in s;
      KeepAll(front, gone);
      assert s == front + [x];
    }
  }

  lemma {:induction false} KeepConcat(s: seq<int>, t: seq<int>, gone: set<int>)
    ensures Keep(s + t, gone) == Keep(s, gone) + Keep(t, gone)
  {
    if t == [] {
      assert s + t == s;
    } else {
      assert (s + t)[..|s + t| - 1] == s + t[..|t| - 1];
      KeepConcat(s, t[..|t| - 1], gone);
    }
  }

  lemma KeepSingle(x: int, gone: set<int>)
    ensures Keep([x], gone) == if x in gone then [] else [x]
  {
    assert [x][..0] == [];
  }

  lemma OnceOnly(s: seq<int>, k: nat)
    requires k < |s| && NoRepeats(s)
    ensures s[k] !in s[..k] && s[k] !in s[k + 1..]
  {
  }

  // Dropping the one entry with that CPU.
  lemma KeepOne(s: seq<int>, k: nat)
    requires k < |s| && NoRepeats(s)
    ensures Keep(s, {s[k]}) == s[..k] + s[k + 1..]
  {
    hide NoRepeats; hide Keep;
    var x, front, back := s[k], s[..k], s[k + 1..];
    OnceOnly(s, k);
    assert s == front + ([x] + back);
    KeepConcat(front, [x] + back, {x});
    KeepConcat([x], back, {x});
    KeepSingle(x, {x});
    KeepAll(front, {x});
    KeepAll(back, {x});
  }

  // The search and shift-down loops of the release path, on both arrays.
  method DropCpu(m: OsCpus, cpu: int) returns (r: OsCpus)
    requires |m.mapping| == |m.hwIds|
    ensures cpu !in m.mapping ==> r == m
    ensures cpu in m.mapping ==>
      exists k :: 0 <= k < |m.mapping| && m.mapping[k] == cpu && cpu !in m.mapping[..k] && r == DropAt(m, k)
  {
    var nr := |m.mapping|;
    for k := 0 to nr
      invariant cpu !in m.mapping[..k]
    {
      if m.mapping[k] != cpu { continue; }
      var mapping, hwIds := m.mapping, m.hwIds;
      for j := k + 1 to nr
        invariant |mapping| == |hwIds| == nr
        invariant forall i :: 0 <= i < nr ==> mapping[i] == m.mapping[if k <= i < j - 1 then i + 1 else i]
        invariant forall i :: 0 <= i < nr ==> hwIds[i] == m.hwIds[if k <= i < j - 1 then i + 1 else i]
      {
        mapping, hwIds := mapping[j - 1 := mapping[j]], hwIds[j - 1 := hwIds[j]];
      }
      r := OsCpus(mapping[..nr - 1], hwIds[..nr - 1]);
      assert r == DropAt(m, k);
      return;
    }
    r := m;
  }

  function DropAt(m: OsCpus, k: nat): (r: OsCpus)
    requires k < |m.mapping| == |m.hwIds|
  {
    OsCpus(m.mapping[..k] + m.mapping[k + 1..], m.hwIds[..k] + m.hwIds[k + 1..])
  }

  // ---------- What requests do to the table ----------

  function Mask(req: seq<int>): (s: set<int>) { set x | x in req }

  function HwOf(hw: seq<int>, req: seq<int>): (r: seq<int>)
    requires InRange(req, |hw|)
    ensures |r| == |req| && forall i :: 0 <= i < |req| ==> r[i] == hw[req[i]]
  {
    seq(|req|, i requires 0 <= i < |req| => hw[req[i]])
  }

  // The table with the CPUs of a set in a new state.
  function Painted(cpus: seq<Cpu>, s: set<int>, v: Cpu): (r: seq<Cpu>)
    ensures |r| == |cpus| && forall i :: 0 <= i < |cpus| ==> r[i] == if i in s then v else cpus[i]
  {
    seq(|cpus|, i requires 0 <= i < |cpus| => if i in s then v else cpus[i])
  }

  lemma PaintOne(cpus: seq<Cpu>, s: set<int>, v: Cpu, c: int)
    requires 0 <= c < |cpus|
    ensures Painted(cpus, s, v)[c := v] == Painted(cpus, s + {c}, v)
  {
  }

  ghost predicate AllAre(cpus: seq<Cpu>, req: seq<int>, v: Cpu) {
    forall i :: 0 <= i < |req| ==> 0 <= req[i] < |cpus| && cpus[req[i]] == v
  }

  function Extended(m: OsCpus, hw: seq<int>, req: seq<int>): OsCpus
    requires InRange(req, |hw|)
  {
    OsCpus(m.mapping + req, m.hwIds + HwOf(hw, req))
  }

  lemma ExtendedNoRepeats(cpus: seq<Cpu>, os: nat, mapping: seq<int>, req: seq<int>)
    requires os != 0 && NoRepeats(mapping) && AllAre(cpus, req, Cpu(Available, 0))
    requires forall i :: 0 <= i < |mapping| ==> 0 <= mapping[i] < |cpus| && cpus[mapping[i]].os == os
    ensures NoRepeats(mapping + req) <==> NoRepeats(req)
  {
    var all, n := mapping + req, |mapping|;
    if NoRepeats(req) {
      forall i, j | 0 <= i < j < |all| ensures all[i] != all[j] {
        if i < n <= j { assert cpus[mapping[i]].os == os && cpus[req[j - n]].os == 0; }
      }
    } else {
      var i, j :| 0 <= i < j < |req| && req[i] == req[j];
      assert all[n + i] == all[n + j];
    }
  }

  lemma ExtendedOwned(cpus: seq<Cpu>, os: nat, mapping: seq<int>, req: seq<int>)
    requires os != 0 && AllAre(cpus, req, Cpu(Available, 0))
    requires forall i :: 0 <= i < |mapping| ==> 0 <= mapping[i] < |cpus| && cpus[mapping[i]].os == os
    requires forall c :: 0 <= c < |cpus| && cpus[c].os == os ==> c in mapping
    ensures var cpus', all := Painted(cpus, Mask(req), Cpu(Assigned, os)), mapping + req;
      && (forall i :: 0 <= i < |all| ==> 0 <= all[i] < |cpus'| && cpus'[all[i]].os == os)
      && (forall c :: 0 <= c < |cpus'| && cpus'[c].os == os ==> c in all)
  {
    var all, n := mapping + req, |mapping|;
    forall i | n <= i < |all| ensures all[i] in Mask(req) && 0 <= all[i] < |cpus| {
      assert all[i] == req[i - n];
    }
  }

  lemma ExtendedInStep(hw: seq<int>, m: OsCpus, req: seq<int>)
    requires InStep(hw, m) && InRange(req, |hw|)
    ensures InStep(hw, Extended(m, hw, req))
  {
  }

  // The mapping after an assignment lists exactly the CPUs of the OS if and only if the request names none
  // of them twice.
  lemma ExtendedLists(cpus: seq<Cpu>, hw: seq<int>, os: nat, m: OsCpus, req: seq<int>)
    requires os != 0 && Lists(cpus, hw, os, m) && AllAre(cpus, req, Cpu(Available, 0)) && InRange(req, |hw|)
    ensures Lists(Painted(cpus, Mask(req), Cpu(Assigned, os)), hw, os, Extended(m, hw, req)) <==> NoRepeats(req)
  {
    ExtendedNoRepeats(cpus, os, m.mapping, req);
    ExtendedOwned(cpus, os, m.mapping, req);
    ExtendedInStep(hw, m, req);
    hide NoRepeats; hide InStep; hide AllAre; hide Painted; hide Mask;
  }

  lemma OthersStillListed(cpus: seq<Cpu>, hw: seq<int>, os: nat, m: OsCpus, s: set<int>, v: Cpu)
    requires Lists(cpus, hw, os, m) && v.os != os && forall c :: c in s && 0 <= c < |cpus| ==> cpus[c].os != os
    ensures Lists(Painted(cpus, s, v), hw, os, m)
  {
    hide InStep; hide NoRepeats;
  }

  lemma StillSettled(cpus: seq<Cpu>, s: set<int>, v: Cpu)
    requires Settled(cpus) && v.status in {NoCpu, Online, Available, Assigned} && (v.status == Assigned <==> v.os != 0)
    ensures Settled(Painted(cpus, s, v))
  {
  }

  lemma AssignExactly(cpus: seq<Cpu>, hw: seq<int>, maps: map<nat, OsCpus>, os: nat, req: seq<int>)
    requires Good(cpus, hw, maps) && os in maps && AllAre(cpus, req, Cpu(Available, 0)) && InRange(req, |hw|)
    ensures Good(Painted(cpus, Mask(req), Cpu(Assigned, os)), hw, maps[os := Extended(maps[os], hw, req)]) <==>
      NoRepeats(req)
  {
    hide Lists; hide NoRepeats; hide AllAre;
    var cpus', maps' := Painted(cpus, Mask(req), Cpu(Assigned, os)), maps[os := Extended(maps[os], hw, req)];
    ExtendedLists(cpus, hw, os, maps[os], req);
    StillSettled(cpus, Mask(req), Cpu(Assigned, os));
    forall other | other in maps && other != os ensures Lists(cpus', hw, other, maps'[other]) {
      FreeMask(cpus, req);
      OthersStillListed(cpus, hw, other, maps[other], Mask(req), Cpu(Assigned, os));
    }
    assert os in maps' && maps'[os] == Extended(maps[os], hw, req);
  }

  lemma FreeMask(cpus: seq<Cpu>, req: seq<int>)
    requires AllAre(cpus, req, Cpu(Available, 0))
    ensures forall c :: c in Mask(req) ==> 0 <= c < |cpus| && cpus[c] == Cpu(Available, 0)
  {
  }

  function Reduced(m: OsCpus, hw: seq<int>, gone: set<int>): OsCpus
    requires InRange(Keep(m.mapping, gone), |hw|)
  {
    OsCpus(Keep(m.mapping, gone), HwOf(hw, Keep(m.mapping, gone)))
  }

  lemma KeepInRange(s: seq<int>, gone: set<int>, n: nat)
    requires InRange(s, n)
    ensures InRange(Keep(s, gone), n)
  {
    KeepIs(s, gone);
    forall i | 0 <= i < |Keep(s, gone)| ensures 0 <= Keep(s, gone)[i] < n {
      assert Keep(s, gone)[i] in s;
    }
  }

  lemma ListsInRange(cpus: seq<Cpu>, hw: seq<int>, os: nat, m: OsCpus, gone: set<int>)
    requires Lists(cpus, hw, os, m)
    ensures InRange(m.mapping, |hw|) && InRange(Keep(m.mapping, gone), |hw|) && |m.mapping| == |m.hwIds|
  {
    KeepInRange(m.mapping, gone, |hw|);
  }

  lemma ReducedLists(cpus: seq<Cpu>, hw: seq<int>, os: nat, m: OsCpus, gone: set<int>)
    requires os != 0 && Lists(cpus, hw, os, m) && InRange(Keep(m.mapping, gone), |hw|)
    ensures Lists(Painted(cpus, gone, Cpu(Available, 0)), hw, os, Reduced(m, hw, gone))
  {
    KeepIs(m.mapping, gone);
    var k := Keep(m.mapping, gone);
    assert forall i :: 0 <= i < |k| ==> k[i] in k;
  }

  lemma ReleaseGood(cpus: seq<Cpu>, hw: seq<int>, maps: map<nat, OsCpus>, os: nat, gone: set<int>)
    requires Good(cpus, hw, maps) && os in maps && (forall c :: c in gone && 0 <= c < |cpus| ==> cpus[c].os == os)
    ensures InRange(Keep(maps[os].mapping, gone), |hw|)
    ensures Good(Painted(cpus, gone, Cpu(Available, 0)), hw, maps[os := Reduced(maps[os], hw, gone)])
  {
    hide Lists; hide Reduced;
    var cpus' := Painted(cpus, gone, Cpu(Available, 0));
    ListsInRange(cpus, hw, os, maps[os], gone);
    ReducedLists(cpus, hw, os, maps[os], gone);
    StillSettled(cpus, gone, Cpu(Available, 0));
    forall other | other in maps && other != os ensures Lists(cpus', hw, other, maps[other]) {
      OthersStillListed(cpus, hw, other, maps[other], gone, Cpu(Available, 0));
    }
  }

  // CPUs without an owner may change between Linux and IHK.
  lemma UnownedGood(cpus: seq<Cpu>, hw: seq<int>, maps: map<nat, OsCpus>, s: set<int>, v: Cpu)
    requires Good(cpus, hw, maps) && v.os == 0 && v.status in {NoCpu, Online, Available}
    requires forall c :: c in s && 0 <= c < |cpus| ==> cpus[c].os == 0
    ensures Good(Painted(cpus, s, v), hw, maps)
  {
    hide Lists;
    StillSettled(cpus, s, v);
    forall os | os in maps ensures Lists(Painted(cpus, s, v), hw, os, maps[os]) {
      OthersStillListed(cpus, hw, os, maps[os], s, v);
    }
  }

  lemma DropKeeps(hw: seq<int>, m: OsCpus, m': OsCpus, gone: set<int>, cpu: int)
    requires NoRepeats(m.mapping) && InStep(hw, m) && InRange(Keep(m.mapping, gone), |hw|) && m' == Reduced(m, hw, gone)
    requires cpu in m.mapping && cpu !in gone
    ensures cpu in m'.mapping && NoRepeats(m'.mapping) && |m'.mapping| == |m'.hwIds|
  {
    KeepIs(m.mapping, gone);
  }

  lemma DropReduces(hw: seq<int>, m: OsCpus, m': OsCpus, gone: set<int>, k: nat)
    requires InRange(Keep(m.mapping, gone), |hw|) && m' == Reduced(m, hw, gone) && NoRepeats(m'.mapping)
      && k < |m'.mapping|
    ensures InRange(Keep(m.mapping, gone + {m'.mapping[k]}), |hw|)
    ensures DropAt(m', k) == Reduced(m, hw, gone + {m'.mapping[k]})
  {
    var cpu := m'.mapping[k];
    KeepTwice(m.mapping, gone, {cpu});
    KeepOne(m'.mapping, k);
    KeepInRange(m'.mapping, {cpu}, |hw|);
    HwDrop(hw, m'.mapping, k);
    hide Keep; hide NoRepeats; hide HwOf; hide InRange;
  }

  lemma HwDrop(hw: seq<int>, s: seq<int>, k: nat)
    requires InRange(s, |hw|) && k < |s|
    ensures InRange(s[..k] + s[k + 1..], |hw|)
    ensures HwOf(hw, s)[..k] + HwOf(hw, s)[k + 1..] == HwOf(hw, s[..k] + s[k + 1..])
  {
  }

  // The members of a mask below c.
  function Below(mask: set<int>, c: int): (s: set<int>) { set d | d in mask && d < c }

  lemma BelowStep(mask: set<int>, c: int)
    ensures c !in Below(mask, c) && Below(mask, c + 1) == if c in mask then Below(mask, c) + {c} else Below(mask, c)
  {
  }

  function Swept(cpus: seq<Cpu>, from: Status, to: Status): (r: seq<Cpu>)
    ensures |r| == |cpus|
      && forall i :: 0 <= i < |cpus| ==> r[i] == if cpus[i].status == from then cpus[i].(status := to) else cpus[i]
  {
    seq(|cpus|, i requires 0 <= i < |cpus| => if cpus[i].status == from then cpus[i].(status := to) else cpus[i])
  }

  // All CPUs of the mask exist, are in the given power state and have the given entry.
  ghost predicate Ready(cpus: seq<Cpu>, mask: set<int>, present: set<int>, online: set<int>, on: bool, v: Cpu) {
    forall c :: c in mask ==> ReadyOne(cpus, c, present, online, on, v)
  }

  predicate ReadyOne(cpus: seq<Cpu>, c: int, present: set<int>, online: set<int>, on: bool, v: Cpu) {
    0 <= c < |cpus| && c in present && (c in online <==> on) && cpus[c] == v
  }

  // An attempt that fails puts every entry back.
  lemma UndoneCollect(cpus: seq<Cpu>, s: set<int>, was: Status, passing: Status)
    requires Settled(cpus) && passing in {ToOffline, Offlined, ToOnline}
      && forall c :: c in s && 0 <= c < |cpus| ==> cpus[c] == Cpu(was, 0)
    ensures Swept(Painted(cpus, s, Cpu(passing, 0)), passing, was) == cpus
  {
  }

  lemma UndoneOffline(cpus: seq<Cpu>, mask: set<int>, s: set<int>)
    requires Settled(cpus) && s <= mask && forall c :: c in mask && 0 <= c < |cpus| ==> cpus[c] == Cpu(Online, 0)
    ensures Swept(Swept(Painted(Painted(cpus, mask, Cpu(ToOffline, 0)), s, Cpu(Offlined, 0)), Offlined, Online),
      ToOffline, Online) == cpus
  {
  }

  lemma PaintAll(cpus: seq<Cpu>, mask: set<int>)
    requires Settled(cpus)
    ensures Swept(Painted(Painted(cpus, mask, Cpu(ToOffline, 0)), mask, Cpu(Offlined, 0)), Offlined, Available) ==
      Painted(cpus, mask, Cpu(Available, 0))
  {
  }

  lemma UndoneOnline(cpus: seq<Cpu>, mask: set<int>, s: set<int>)
    requires Settled(cpus) && s <= mask && forall c :: c in mask && 0 <= c < |cpus| ==> cpus[c] == Cpu(Available, 0)
    ensures Swept(Painted(Painted(cpus, mask, Cpu(ToOnline, 0)), s, Cpu(Online, 0)), ToOnline, Available) ==
      Painted(cpus, s, Cpu(Online, 0))
  {
  }

  lemma PaintTwice(cpus: seq<Cpu>, mask: set<int>, v: Cpu, w: Cpu)
    ensures Painted(Painted(cpus, mask, v), mask, w) == Painted(cpus, mask, w)
  {
  }

  // The error of the lowest CPU that fails.
  ghost predicate FirstError(mask: set<int>, fails: map<int, int>, r: int) {
    exists c :: c in mask && c in fails && r == fails[c] && forall d :: d in mask && d in fails ==> c <= d
  }

  class CpuTable {
    const hw: seq<int>
    var cpus: seq<Cpu>
    var maps: map<nat, OsCpus>
    // The OSes that are not in their initial status.
    var running: set<nat>

    ghost predicate Valid()
      reads this
    {
      |cpus| == |hw| && Good(cpus, hw, maps)
    }

    // At start each CPU is Linux's or absent, and no OS exists.
    constructor (hw: seq<int>, online: set<int>)
      ensures Valid() && this.hw == hw && maps == map[] && running == {}
      ensures cpus == Painted(seq(|hw|, _ => Cpu(NoCpu, 0)), online, Cpu(Online, 0))
    {
      this.hw := hw;
      cpus := Painted(seq(|hw|, _ => Cpu(NoCpu, 0)), online, Cpu(Online, 0));
      maps, running := map[], {};
    }

    method CreateOs(os: nat)
      requires Valid() && os != 0 && os !in maps
      modifies this`maps
      ensures Valid() && maps == old(maps)[os := OsCpus([], [])]
    {
      maps := maps[os := OsCpus([], [])];
    }

    // smp_ihk_os_boot, as far as the status goes: an OS boots once, and not without CPUs.
    method Boot(os: nat) returns (r: int)
      requires Valid() && os in maps
      modifies this`running
      ensures r == if os in old(running) then -EBUSY else if maps[os].mapping == [] then -EINVAL else 0
      ensures running == if r == 0 then old(running) + {os} else old(running)
    {
      if os in running { return -EBUSY; }
      if maps[os].mapping == [] { return -EINVAL; }
      running := running + {os};
      r := 0;
    }

    // The checks shared by the requests: every CPU is in range and in the expected state.
    method Check(req: seq<int>, status: Status, os: nat) returns (ok: bool)
      requires |cpus| == |hw|
      ensures ok <==> InRange(req, |cpus|) && AllAre(cpus, req, Cpu(status, os))
    {
      var mask: set<int> := {};
      for i := 0 to |req|
        invariant InRange(req[..i], |cpus|) && mask == Mask(req[..i])
      {
        if req[i] < 0 || req[i] >= |cpus| { return false; }
        assert req[..i + 1] == req[..i] + [req[i]];
        mask := mask + {req[i]};
      }
      assert req[..|req|] == req;
      for c := 0 to |cpus|
        invariant forall d :: 0 <= d < c && d in mask ==> cpus[d] == Cpu(status, os)
      {
        if c in mask && cpus[c] != Cpu(status, os) {
          var i :| 0 <= i < |req| && req[i] == c;
          return false;
        }
      }
      assert forall i :: 0 <= i < |req| ==> req[i] in mask;
      ok := true;
    }

    // smp_ihk_os_assign_cpu and __assign_cpus.
    method Assign(os: nat, req: seq<int>) returns (r: int)
      requires Valid() && os in maps
      modifies this`cpus, this`maps
      ensures (r == 0 || r == -EINVAL || r == -EBUSY) && (r == -EBUSY <==> os in running)
      ensures r == 0 <==> os !in running && InRange(req, |hw|) && AllAre(old(cpus), req, Cpu(Available, 0))
      ensures r == 0 ==> cpus == Painted(old(cpus), Mask(req), Cpu(Assigned, os))
      ensures r == 0 ==> maps == old(maps)[os := Extended(old(maps)[os], hw, req)]
      ensures r == 0 ==> (Valid() <==> NoRepeats(req))
      ensures r != 0 ==> cpus == old(cpus) && maps == old(maps)
    {
      hide Good; hide AllAre; hide NoRepeats;
      if os in running { return -EBUSY; }
      var ok := Check(req, Available, 0);
      if !ok { return -EINVAL; }
      AssignExactly(cpus, hw, maps, os, req);
      ghost var cpus0, m0 := cpus, maps[os];
      ghost var maps0 := maps;
      assert Painted(cpus0, Mask(req[..0]), Cpu(Assigned, os)) == cpus0;
      assert Extended(m0, hw, req[..0]) == m0;
      for i := 0 to |req|
        invariant cpus == Painted(cpus0, Mask(req[..i]), Cpu(Assigned, os))
        invariant InRange(req[..i], |hw|) && maps == maps0[os := Extended(m0, hw, req[..i])]
      {
        var cpu := req[i];
        assert req[..i + 1] == req[..i] + [cpu];
        PaintOne(cpus0, Mask(req[..i]), Cpu(Assigned, os), cpu);
        assert Mask(req[..i + 1]) == Mask(req[..i]) + {cpu};
        ExtendOne(m0, hw, req, i);
        cpus := cpus[cpu := Cpu(Assigned, os)];
        maps := maps[os := OsCpus(maps[os].mapping + [cpu], maps[os].hwIds + [hw[cpu]])];
      }
      assert req[..|req|] == req;
      r := 0;
    }

    // smp_ihk_os_release_cpu.
    method ReleaseOs(os: nat, req: seq<int>) returns (r: int)
      requires Valid() && os in maps
      modifies this`cpus, this`maps
      ensures Valid() && (r == 0 || r == -EINVAL || r == -EBUSY) && (r == -EBUSY <==> os in running)
      ensures r == 0 <==> os !in running && InRange(req, |hw|) && AllAre(old(cpus), req, Cpu(Assigned, os))
      ensures r == 0 ==> cpus == Painted(old(cpus), Mask(req), Cpu(Available, 0)) && maps.Keys == old(maps.Keys)
      ensures r == 0 ==> maps[os].mapping == Keep(old(maps)[os].mapping, Mask(req))
      ensures r == 0 ==> forall other :: other in maps && other != os ==> maps[other] == old(maps)[other]
      ensures r != 0 ==> cpus == old(cpus) && maps == old(maps)
    {
      hide Good; hide AllAre; hide NoRepeats; hide Lists; hide InStep; hide Keep; hide Reduced; hide Below; hide HwOf;
      hide DropAt;
      if os in running { return -EBUSY; }
      var ok := Check(req, Assigned, os);
      if !ok { return -EINVAL; }
      var mask := Mask(req);
      ghost var cpus0, maps0, m0 := cpus, maps, maps[os];
      ReleaseStart(cpus0, hw, maps0, os, req);
      for c := 0 to |cpus|
        invariant |cpus| == |cpus0| && cpus == Painted(cpus0, Below(mask, c), Cpu(Available, 0))
        invariant InRange(Keep(m0.mapping, Below(mask, c)), |hw|)
          && maps == maps0[os := Reduced(m0, hw, Below(mask, c))]
      {
        BelowStep(mask, c);
        if c !in mask { continue; }
        PaintOne(cpus0, Below(mask, c), Cpu(Available, 0), c);
        DropKeeps(hw, m0, maps[os], Below(mask, c), c);
        cpus := cpus[c := Cpu(Available, 0)];
        var m := DropCpu(maps[os], c);
        ghost var k :| 0 <= k < |maps[os].mapping| && maps[os].mapping[k] == c && m == DropAt(maps[os], k);
        DropReduces(hw, m0, maps[os], Below(mask, c), k);
        maps := maps[os := m];
      }
      BelowAll(cpus0, req);
      ReleaseGood(cpus0, hw, maps0, os, mask);
      ReducedIs(m0, hw, mask);
      r := 0;
    }

    // Shutting down an OS that is running. One that is not keeps what it was assigned.
    method Shutdown(os: nat)
      requires Valid() && os in maps
      modifies this`cpus, this`maps, this`running
      ensures Valid() && running == old(running) - {os}
      ensures os in old(running) ==> maps == old(maps)[os := OsCpus([], [])] && |cpus| == |old(cpus)|
      ensures os in old(running) ==> forall c :: 0 <= c < |cpus| && c < |old(cpus)| ==>
        cpus[c] == if old(cpus)[c].os == os then Cpu(Available, 0) else old(cpus)[c]
      ensures os !in old(running) ==> maps == old(maps) && cpus == old(cpus)
    {
      if os !in running { return; }
      hide Good;
      ghost var cpus0 := cpus;
      for i := 0 to |cpus|
        invariant |cpus| == |cpus0| && maps == old(maps) && running == old(running)
        invariant forall c :: 0 <= c < |cpus| ==>
          cpus[c] == if c < i && cpus0[c].os == os then Cpu(Available, 0) else cpus0[c]
      {
        if cpus[i].os != os { continue; }
        cpus := cpus[i := Cpu(Available, 0)];
      }
      ShutdownGood(cpus0, hw, maps, os, cpus);
      maps := maps[os := OsCpus([], [])];
      running := running - {os};
    }

    method Sweep(from: Status, to: Status)
      requires from != to
      modifies this`cpus
      ensures cpus == Swept(old(cpus), from, to)
    {
      for c := 0 to |cpus|
        invariant |cpus| == |old(cpus)|
        invariant forall d :: 0 <= d < |cpus| ==>
          cpus[d] == if d < c && old(cpus)[d].status == from then old(cpus)[d].(status := to) else old(cpus)[d]
      {
        if cpus[c].status != from { continue; }
        cpus := cpus[c := cpus[c].(status := to)];
      }
    }

    // The collecting loop of both device requests: CPUs that are ready get a status in passing.
    method Collect(mask: set<int>, present: set<int>, online: set<int>, on: bool, was: Status, passing: Status)
      returns (ok: bool)
      requires Settled(cpus) && passing in {ToOffline, ToOnline} && was in {Online, Available}
        && forall c :: c in mask ==> 0 <= c < |cpus|
      modifies this`cpus
      ensures ok <==> Ready(old(cpus), mask, present, online, on, Cpu(was, 0))
      ensures ok ==> cpus == Painted(old(cpus), mask, Cpu(passing, 0))
      ensures !ok ==> Swept(cpus, passing, was) == old(cpus)
    {
      ghost var cpus0 := cpus;
      for c := 0 to |cpus|
        invariant cpus == Painted(cpus0, Below(mask, c), Cpu(passing, 0))
        invariant forall d :: d in mask && d < c ==> ReadyOne(cpus0, d, present, online, on, Cpu(was, 0))
      {
        BelowStep(mask, c);
        if c !in mask { continue; }
        if !ReadyOne(cpus, c, present, online, on, Cpu(was, 0)) {
          UndoneCollect(cpus0, Below(mask, c), was, passing);
          return false;
        }
        PaintOne(cpus0, Below(mask, c), Cpu(passing, 0), c);
        cpus := cpus[c := Cpu(passing, 0)];
      }
      assert Below(mask, |cpus|) == mask;
      ok := true;
    }

    // smp_ihk_reserve_cpu: Linux gives up the CPUs of a request. `fails` are the CPUs that cannot be taken
    // offline, with the error.
    method Reserve(req: seq<int>, present: set<int>, online: set<int>, fails: map<int, int>) returns (r: int)
      requires Valid() && forall c :: c in fails ==> fails[c] != 0
      modifies this`cpus
      ensures Valid()
      ensures r == 0 <==>
        InRange(req, |hw|) && Ready(old(cpus), Mask(req), present, online, true, Cpu(Online, 0))
        && Mask(req) !! fails.Keys
      ensures cpus == if r == 0 then Painted(old(cpus), Mask(req), Cpu(Available, 0)) else old(cpus)
      ensures r != 0 ==> if InRange(req, |hw|) && Ready(old(cpus), Mask(req), present, online, true, Cpu(Online, 0))
        then FirstError(Mask(req), fails, r) else r == -EINVAL
    {
      hide Good;
      if !InRange(req, |cpus|) { return -EINVAL; }
      GoodSettled(cpus, hw, maps);
      var mask := Mask(req);
      ghost var cpus0 := cpus;
      var ok := Collect(mask, present, online, true, Online, ToOffline);
      if !ok {
        Sweep(ToOffline, Online);
        return -EINVAL;
      }
      ghost var collected := cpus;
      for c := 0 to |cpus|
        invariant cpus == Painted(collected, Below(mask, c), Cpu(Offlined, 0))
        invariant forall d :: d in mask && d < c ==> d !in fails
      {
        BelowStep(mask, c);
        if cpus[c].status != ToOffline { continue; }
        if c in fails {
          UndoneOffline(cpus0, mask, Below(mask, c));
          Sweep(Offlined, Online);
          Sweep(ToOffline, Online);
          return fails[c];
        }
        PaintOne(collected, Below(mask, c), Cpu(Offlined, 0), c);
        cpus := cpus[c := Cpu(Offlined, 0)];
      }
      assert Below(mask, |cpus|) == mask;
      PaintAll(cpus0, mask);
      UnownedGood(cpus0, hw, maps, mask, Cpu(Available, 0));
      Sweep(Offlined, Available);
      r := 0;
    }

    // smp_ihk_release_cpu: reserved CPUs go back to Linux. `fails` are those that do not come online. A
    // failure leaves the CPUs before it with Linux.
    method ReleaseDevice(req: seq<int>, present: set<int>, online: set<int>, fails: map<int, int>) returns (r: int)
      requires Valid() && forall c :: c in fails ==> fails[c] != 0
      modifies this`cpus
      ensures Valid()
      ensures r == 0 <==>
        InRange(req, |hw|) && Ready(old(cpus), Mask(req), present, online, false, Cpu(Available, 0))
        && Mask(req) !! fails.Keys
      ensures r == 0 ==> cpus == Painted(old(cpus), Mask(req), Cpu(Online, 0))
      ensures r != 0 ==> if InRange(req, |hw|) && Ready(old(cpus), Mask(req), present, online, false, Cpu(Available, 0))
        then FirstError(Mask(req), fails, r) else r == -EINVAL && cpus == old(cpus)
      ensures r != 0 ==>
        cpus == old(cpus) || exists c :: c in Mask(req) && c in fails && Below(Mask(req), c) !! fails.Keys &&
                                                        cpus == Painted(old(cpus), Below(Mask(req), c), Cpu(Online, 0))
    {
      hide Good;
      if !InRange(req, |cpus|) { return -EINVAL; }
      GoodSettled(cpus, hw, maps);
      var mask := Mask(req);
      ghost var cpus0 := cpus;
      var ok := Collect(mask, present, online, false, Available, ToOnline);
      if !ok {
        Sweep(ToOnline, Available);
        return -EINVAL;
      }
      ghost var collected := cpus;
      for c := 0 to |cpus|
        invariant cpus == Painted(collected, Below(mask, c), Cpu(Online, 0))
        invariant forall d :: d in mask && d < c ==> d !in fails
      {
        BelowStep(mask, c);
        if cpus[c].status != ToOnline { continue; }
        if c in fails {
          UndoneOnline(cpus0, mask, Below(mask, c));
          UnownedGood(cpus0, hw, maps, Below(mask, c), Cpu(Online, 0));
          Sweep(ToOnline, Available);
          return fails[c];
        }
        PaintOne(collected, Below(mask, c), Cpu(Online, 0), c);
        cpus := cpus[c := Cpu(Online, 0)];
      }
      assert Below(mask, |cpus|) == mask;
      PaintTwice(cpus0, mask, Cpu(ToOnline, 0), Cpu(Online, 0));
      UnownedGood(cpus0, hw, maps, mask, Cpu(Online, 0));
      r := 0;
    }
  }

  lemma ExtendOne(m: OsCpus, hw: seq<int>, req: seq<int>, i: nat)
    requires i < |req| && InRange(req, |hw|)
    ensures InRange(req[..i], |hw|) && InRange(req[..i + 1], |hw|)
    ensures var e := Extended(m, hw, req[..i]);
      Extended(m, hw, req[..i + 1]) == OsCpus(e.mapping + [req[i]], e.hwIds + [hw[req[i]]])
  {
    assert req[..i + 1] == req[..i] + [req[i]];
  }

  lemma GoodSettled(cpus: seq<Cpu>, hw: seq<int>, maps: map<nat, OsCpus>)
    requires Good(cpus, hw, maps)
    ensures Settled(cpus)
  {
  }

  lemma ReleaseStart(cpus: seq<Cpu>, hw: seq<int>, maps: map<nat, OsCpus>, os: nat, req: seq<int>)
    requires Good(cpus, hw, maps) && os in maps && AllAre(cpus, req, Cpu(Assigned, os)) && |cpus| == |hw|
    ensures NoRepeats(maps[os].mapping) && InStep(hw, maps[os]) && InRange(Keep(maps[os].mapping, {}), |hw|)
    ensures maps[os] == Reduced(maps[os], hw, {}) && Painted(cpus, {}, Cpu(Available, 0)) == cpus
      && Below(Mask(req), 0) == {}
    ensures forall c :: c in Mask(req) ==> 0 <= c < |cpus| && cpus[c].os == os && c in maps[os].mapping
  {
    assert Lists(cpus, hw, os, maps[os]);
    KeepAll(maps[os].mapping, {});
    KeepInRange(maps[os].mapping, {}, |hw|);
  }

  lemma BelowAll(cpus: seq<Cpu>, req: seq<int>)
    requires InRange(req, |cpus|)
    ensures Below(Mask(req), |cpus|) == Mask(req)
  {
  }

  lemma ReducedIs(m: OsCpus, hw: seq<int>, gone: set<int>)
    requires InRange(Keep(m.mapping, gone), |hw|)
    ensures Reduced(m, hw, gone).mapping == Keep(m.mapping, gone)
  {
  }

  lemma {:induction false} KeepNone(s: seq<int>, gone: set<int>)
    requires forall x :: x in s ==> x in gone
    ensures Keep(s, gone) == []
  {
    if s != [] {
      var x, front := s[|s| - 1], s[..|s| - 1];
      assert x in s && forall y :: y in front ==> y in s;
      KeepNone(front, gone);
    }
  }

  lemma ShutdownGood(cpus: seq<Cpu>, hw: seq<int>, maps: map<nat, OsCpus>, os: nat, cpus': seq<Cpu>)
    requires Good(cpus, hw, maps) && os in maps && |cpus| == |hw| == |cpus'|
    requires forall c :: 0 <= c < |cpus| ==> cpus'[c] == if cpus[c].os == os then Cpu(Available, 0) else cpus[c]
    ensures Good(cpus', hw, maps[os := OsCpus([], [])])
  {
    var gone := Mask(maps[os].mapping);
    ShutdownPaint(cpus, hw, os, maps[os], cpus');
    hide Lists; hide Painted;
    ReleaseGood(cpus, hw, maps, os, gone);
    KeepNone(maps[os].mapping, gone);
  }

  lemma ShutdownPaint(cpus: seq<Cpu>, hw: seq<int>, os: nat, m: OsCpus, cpus': seq<Cpu>)
    requires Lists(cpus, hw, os, m) && |cpus| == |cpus'|
    requires forall c :: 0 <= c < |cpus| ==> cpus'[c] == if cpus[c].os == os then Cpu(Available, 0) else cpus[c]
    ensures cpus' == Painted(cpus, Mask(m.mapping), Cpu(Available, 0))
    ensures forall c :: c in Mask(m.mapping) && 0 <= c < |cpus| ==> cpus[c].os == os
  {
    hide InStep; hide NoRepeats;
    assert forall c :: 0 <= c < |cpus| ==> (c in Mask(m.mapping) <==> cpus[c].os == os);
  }

  // ---------- Every run ----------

  datatype Op =
    | Create(os: nat)
    | Reserve(req: seq<int>, present: set<int>, online: set<int>, fails: map<int, int>)
    | Assign(os: nat, req: seq<int>)
    | ReleaseOs(os: nat, req: seq<int>)
    | Boot(os: nat)
    | Shutdown(os: nat)
    | ReleaseDevice(req: seq<int>, present: set<int>, online: set<int>, fails: map<int, int>)

  // Assignments name no CPU twice, and errors are not 0.
  ghost predicate Sensible(op: Op) {
    match op
    case Assign(_, req) => NoRepeats(req)
    case Reserve(_, _, _, fails) => forall c :: c in fails ==> fails[c] != 0
    case ReleaseDevice(_, _, _, fails) => forall c :: c in fails ==> fails[c] != 0
    case _ => true
  }

  // The CPUs of an OS in order, and whether it is running.
  datatype Life = Life(list: seq<int>, running: bool)

  function LifeOf(maps: map<nat, OsCpus>, running: set<nat>, os: nat): (x: Life) {
    Life(if os in maps then maps[os].mapping else [], os in running)
  }

  // What a request that is answered with 0 does to an OS.
  function Next(op: Op, os: nat, x: Life): (x': Life) {
    match op
    case Create(o) => if o == os then x.(list := []) else x
    case Assign(o, req) => if o == os then x.(list := x.list + req) else x
    case ReleaseOs(o, req) => if o == os then x.(list := Keep(x.list, Mask(req))) else x
    case Boot(o) => if o == os then x.(running := true) else x
    case Shutdown(o) => if o == os && x.running then Life([], false) else x
    case _ => x
  }

  function Answered(op: Op, met: bool, os: nat, x: Life): (x': Life) { if met then Next(op, os, x) else x }

  // An OS after a run, when `met` tells which requests were answered with 0: its list is appended to by each
  // assignment, thinned by each release, and emptied by a shutdown while it runs.
  function History(x: Life, ops: seq<Op>, met: seq<bool>, os: nat): (x': Life)
    requires |met| == |ops|
  {
    if ops == [] then x
    else
      var n := |ops| - 1;
      var y := History(x, ops[..n], met[..n], os);
      Answered(ops[n], met[n], os, y)
  }

  method Do(t: CpuTable, op: Op) returns (met: bool)
    requires t.Valid() && Sensible(op)
    modifies t
    ensures t.Valid() && old(t.maps.Keys) <= t.maps.Keys
    ensures forall os ::
      LifeOf(t.maps, t.running, os) == Answered(op, met, os, LifeOf(old(t.maps), old(t.running), os))
  {
    hide Good; hide Keep; hide NoRepeats; hide AllAre; hide Ready;
    var r := 0;
    match op {
      case Create(os) =>
        if os == 0 || os in t.maps { return false; }
        t.CreateOs(os);
      case Reserve(req, present, online, fails) => r := t.Reserve(req, present, online, fails);
      case Assign(os, req) =>
        if os !in t.maps { return false; }
        r := t.Assign(os, req);
      case ReleaseOs(os, req) =>
        if os !in t.maps { return false; }
        r := t.ReleaseOs(os, req);
      case Boot(os) =>
        if os !in t.maps { return false; }
        r := t.Boot(os);
      case Shutdown(os) =>
        if os !in t.maps { return false; }
        t.Shutdown(os);
      case ReleaseDevice(req, present, online, fails) => r := t.ReleaseDevice(req, present, online, fails);
    }
    met := r == 0;
  }

  method Run(t: CpuTable, ops: seq<Op>) returns (met: seq<bool>)
    requires t.Valid() && forall i :: 0 <= i < |ops| ==> Sensible(ops[i])
    modifies t
    ensures t.Valid() && old(t.maps.Keys) <= t.maps.Keys && |met| == |ops|
    ensures forall os :: LifeOf(t.maps, t.running, os) == History(LifeOf(old(t.maps), old(t.running), os), ops, met, os)
  {
    hide Good; hide Answered; hide LifeOf;
    met := [];
    for i := 0 to |ops|
      invariant t.Valid() && old(t.maps.Keys) <= t.maps.Keys && |met| == i
      invariant forall os ::
        LifeOf(t.maps, t.running, os) == History(LifeOf(old(t.maps), old(t.running), os), ops[..i], met, os)
    {
      var done := Do(t, ops[i]);
      assert ops[..i + 1][..i] == ops[..i] && (met + [done])[..i] == met;
      met := met + [done];
    }
    assert ops[..|ops|] == ops;
  }

  // A request that names a CPU twice is accepted and breaks the mapping.
  lemma NamedTwice()
    ensures var cpus, hw, maps, req := [Cpu(Available, 0)], [7], map[1 := OsCpus([], [])], [0, 0];
      Good(cpus, hw, maps) && InRange(req, 1) && AllAre(cpus, req, Cpu(Available, 0)) &&
      !Good(Painted(cpus, Mask(req), Cpu(Assigned, 1)), hw, maps[1 := Extended(maps[1], hw, req)])
  {
    var cpus, hw, maps, req := [Cpu(Available, 0)], [7], map[1 := OsCpus([], [])], [0, 0];
    assert Lists(cpus, hw, 1, maps[1]);
    assert req[0] == req[1];
    AssignExactly(cpus, hw, maps, 1, req);
  }
}
