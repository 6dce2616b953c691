// The boot page table of a co-kernel: three windows of large pages, and its teardown.
module BootMap {
  import opened Options
  import opened PageTable

  const IDENTITY_LENGTH := 0x40_0000_0000
  const STRAIGHT_START := 0xffff_8000_0000_0000
  const KERNEL_START := 0xFFFF_FFFF_FE80_0000
  const KERNEL_PAGES := 4

  // Large pages lo, lo + 1, ... translate to consecutive large pages from `phys`.
  ghost predicate Window(mem: Memory, root: nat, lo: nat, n: nat, phys: nat) {
    forall u: nat :: lo <= LargePage(u) < lo + n ==>
      Walk(mem, root, u) == Some(phys + (LargePage(u) - lo) * LARGE + u % LARGE)
  }

  // Only the first 4 KiB of each large page can translate.
  ghost predicate Holes(mem: Memory, root: nat, lo: nat, n: nat) {
    forall u: nat :: lo <= LargePage(u) < lo + n && Index(u, 1) != 0 ==> Walk(mem, root, u) == None
  }

  ghost predicate Outside(mem: Memory, mem': Memory, root: nat, lo: nat, n: nat) {
    forall u: nat :: !(lo <= LargePage(u) < lo + n) ==>
      Walk(mem', root, u) == Walk(mem, root, u) && EntryAt(mem', root, u, 2) == EntryAt(mem, root, u, 2)
  }

  ghost predicate Clear(mem: Memory, root: nat, lo: nat, n: nat) {
    forall u: nat :: lo <= LargePage(u) < lo + n ==> EntryAt(mem, root, u, 2).Absent? && Walk(mem, root, u) == None
  }

  lemma PageOf(v: nat, k: nat)
    requires v % LARGE == 0 && LargePage(v) + k < LARGE_PAGES
    ensures LargePage(v + k * LARGE) == LargePage(v) + k && (v + k * LARGE) % LARGE == 0
    ensures Index(v + k * LARGE, 1) == 0
  {
    var a := v / LARGE;
    assert v == a * LARGE;
    assert v + k * LARGE == (a + k) * LARGE;
    assert (v + k * LARGE) / LARGE == a + k;
    assert ((a + k) * LARGE) / PAGE == (a + k) * ENTRIES;
  }

  lemma GrowLarge(m0: Memory, m1: Memory, m2: Memory, root: nat, lo: nat, k: nat, v: nat, phys: nat)
    requires Outside(m0, m1, root, lo, k) && Window(m1, root, lo, k, phys) && LargePage(v) == lo + k
    requires MappedLarge(m1, m2, root, v, phys + k * LARGE) && SameElsewhere(m1, m2, root, v)
    ensures Outside(m0, m2, root, lo, k + 1) && Window(m2, root, lo, k + 1, phys)
  {
    hide Walk; hide EntryAt; hide LargePage;
  }

  lemma GrowSmall(m0: Memory, m1: Memory, m2: Memory, root: nat, lo: nat, k: nat, v: nat, paddr: nat)
    requires Outside(m0, m1, root, lo, k) && Holes(m1, root, lo, k) && LargePage(v) == lo + k && Index(v, 1) == 0
    requires MappedSmall(m1, m2, root, v, paddr) && SameElsewhere(m1, m2, root, v) && Clear(m0, root, lo, k + 1)
    ensures Outside(m0, m2, root, lo, k + 1) && Holes(m2, root, lo, k + 1)
  {
    hide Walk; hide EntryAt; hide LargePage; hide Index;
  }

  // ---------- How many table pages a window takes ----------

  // The large pages below one entry of level 4 and of level 3.
  const REGION := 0x4_0000
  const GIGA := 0x200

  lemma SharesExactly(u: nat, v: nat)
    ensures Shares(u, v, 4) <==> LargePage(u) / REGION == LargePage(v) / REGION
    ensures Shares(u, v, 3) <==> LargePage(u) / GIGA == LargePage(v) / GIGA
  {
    hide Index; hide LargePage;
    Split(u);
    Split(v);
  }

  // The tables for the first k large pages from lo: one for the region, one per entry of level 3 and, when the
  // image is not aligned, one per large page.
  function Needs(lo: nat, k: nat, aligned: bool): (n: nat) {
    if k == 0 then 0 else 1 + ((lo + k - 1) / GIGA - lo / GIGA + 1) + if aligned then 0 else k
  }

  predicate FreshEntry(lo: nat, k: nat) { k == 0 || (lo + k) / GIGA != (lo + k - 1) / GIGA }

  lemma NeedsStep(lo: nat, k: nat, aligned: bool)
    ensures Needs(lo, k + 1, aligned) == Needs(lo, k, aligned) +
      (if k == 0 then 1 else 0) + (if FreshEntry(lo, k) then 1 else 0) + if aligned then 0 else 1
  {
  }

  lemma {:induction false} NeedsGrow(lo: nat, k: nat, n: nat, aligned: bool)
    requires k <= n
    ensures Needs(lo, k, aligned) <= Needs(lo, n, aligned)
    decreases n - k
  {
    if k < n {
      NeedsStep(lo, k, aligned);
      NeedsGrow(lo, k + 1, n, aligned);
    }
  }

  // Nothing hangs in the region of a large page.
  ghost predicate RegionFree(mem: Memory, root: nat, lo: nat) {
    forall u: nat :: LargePage(u) / REGION == lo / REGION ==> EntryAt(mem, root, u, 4).Absent?
  }

  // What the upper levels look like when k large pages from lo have been mapped.
  ghost predicate Upper(m0: Memory, mem: Memory, root: nat, lo: nat, k: nat) {
    && (forall u: nat :: LargePage(u) / REGION != lo / REGION ==>
          (EntryAt(mem, root, u, 4).Absent? <==> EntryAt(m0, root, u, 4).Absent?))
    && (forall u: nat :: LargePage(u) / REGION == lo / REGION ==> (EntryAt(mem, root, u, 4).Absent? <==> k == 0))
    && (forall u: nat :: LargePage(u) / REGION == lo / REGION ==>
          (EntryAt(mem, root, u, 3).Absent? <==> k == 0 || !(lo / GIGA <= LargePage(u) / GIGA <= (lo + k - 1) / GIGA)))
  }

  lemma UpperStart(mem: Memory, root: nat, info: map<nat, Node>, lo: nat)
    requires Tree(mem, root, info) && RegionFree(mem, root, lo)
    ensures Upper(mem, mem, root, lo, 0)
  {
    hide EntryAt; hide LargePage; hide Tree;
    forall u: nat { Parts(mem, root, info, u); }
  }

  lemma UpperStep(m0: Memory, m1: Memory, m2: Memory, root: nat, lo: nat, k: nat, v: nat)
    requires Upper(m0, m1, root, lo, k) && Opened(m1, m2, root, v) && LargePage(v) == lo + k
    requires lo / REGION == (lo + k) / REGION
    ensures Upper(m0, m2, root, lo, k + 1)
  {
    hide EntryAt; hide LargePage; hide Shares;
    forall u: nat { SharesExactly(u, v); }
  }

  // The tables that the next large page of a window lacks.
  lemma LackNext(m0: Memory, mem: Memory, root: nat, info: map<nat, Node>, lo: nat, k: nat, v: nat)
    requires Tree(mem, root, info) && Upper(m0, mem, root, lo, k) && LargePage(v) == lo + k
    requires lo / REGION == (lo + k) / REGION
    ensures Missing(mem, root, v, 2) == (if k == 0 then 1 else 0) + if FreshEntry(lo, k) then 1 else 0
    ensures Missing(mem, root, v, 1) == Missing(mem, root, v, 2) + if EntryAt(mem, root, v, 2).Absent? then 1 else 0
  {
    hide EntryAt; hide LargePage; hide Tree; hide Missing;
    Parts(mem, root, info, v);
  }

  // A mapping loop of the start-up code: `n` large pages from `v`, to be read from `phys` on. The region of
  // the window is new.
  method MapWindow(bt: BootTable, v: nat, phys: nat, n: nat, supply: seq<nat>) returns (r: int, rest: seq<nat>)
    requires bt.Valid() && FreshPages(bt.mem, supply)
    requires v % LARGE == 0 && LargePage(v) + n <= LARGE_PAGES && Clear(bt.mem, bt.root, LargePage(v), n)
    requires n > 0 && LargePage(v) / REGION == (LargePage(v) + n - 1) / REGION
      && RegionFree(bt.mem, bt.root, LargePage(v))
    modifies bt
    ensures bt.Valid() && FreshPages(bt.mem, rest) && (r == 0 || r == -ENOMEM)
    ensures r == 0 <==> |supply| >= Needs(LargePage(v), n, phys % LARGE == 0)
    ensures r == 0 ==> |rest| == |supply| - Needs(LargePage(v), n, phys % LARGE == 0)
    ensures r != 0 ==> rest == []
    ensures r == 0 ==>
      Outside(old(bt.mem), bt.mem, bt.root, LargePage(v), n) && Upper(old(bt.mem), bt.mem, bt.root, LargePage(v), n)
    ensures r == 0 && phys % LARGE == 0 ==> Window(bt.mem, bt.root, LargePage(v), n, phys)
    ensures r == 0 && phys % LARGE != 0 ==> Holes(bt.mem, bt.root, LargePage(v), n)
  {
    hide Walk; hide EntryAt; hide LargePage; hide Index; hide Tree; hide Missing; hide FreshPages; hide Upper;
    hide Opened; hide Needs; hide FreshEntry; hide RegionFree;
    ghost var m0, lo, aligned := bt.mem, LargePage(v), phys % LARGE == 0;
    rest := supply;
    UpperStart(bt.mem, bt.root, bt.info, lo);
    NeedsNone(lo, aligned);
    var k := 0;
    while k < n
      invariant 0 <= k <= n && bt.Valid() && FreshPages(bt.mem, rest)
      invariant Outside(m0, bt.mem, bt.root, lo, k) && Upper(m0, bt.mem, bt.root, lo, k)
      invariant |rest| == |supply| - Needs(lo, k, aligned)
      invariant phys % LARGE == 0 ==> Window(bt.mem, bt.root, lo, k, phys)
      invariant phys % LARGE != 0 ==> Holes(bt.mem, bt.root, lo, k)
    {
      ghost var m1 := bt.mem;
      PageOf(v, k);
      assert (phys + k * LARGE) % LARGE == phys % LARGE;
      InRegion(lo, k, n);
      LackNext(m0, m1, bt.root, bt.info, lo, k, v + k * LARGE);
      NeedsStep(lo, k, aligned);
      NeedsGrow(lo, k + 1, n, aligned);
      var e;
      e, rest := bt.MapKernel(v + k * LARGE, phys + k * LARGE, rest);
      if e < 0 { return -ENOMEM, rest; }
      UpperStep(m0, m1, bt.mem, bt.root, lo, k, v + k * LARGE);
      if phys % LARGE == 0 {
        GrowLarge(m0, m1, bt.mem, bt.root, lo, k, v + k * LARGE, phys);
      } else {
        GrowSmall(m0, m1, bt.mem, bt.root, lo, k, v + k * LARGE, phys + k * LARGE);
      }
      k := k + 1;
    }
    r := 0;
  }

  lemma NeedsNone(lo: nat, aligned: bool)
    ensures Needs(lo, 0, aligned) == 0
  {
  }

  lemma InRegion(lo: nat, k: nat, n: nat)
    requires k < n && lo / REGION == (lo + n - 1) / REGION
    ensures lo / REGION == (lo + k) / REGION
  {
  }

  // ---------- The three windows of the start-up code ----------

  const IDENTITY_PAGES := 0x2_0000
  const STRAIGHT_PAGE := 0x400_0000
  const KERNEL_PAGE := 0x7FF_FFF4

  lemma WindowNumbers()
    ensures IDENTITY_LENGTH == IDENTITY_PAGES * LARGE
    ensures LargePage(0) == 0 && LargePage(STRAIGHT_START) == STRAIGHT_PAGE && LargePage(KERNEL_START) == KERNEL_PAGE
    ensures STRAIGHT_START % LARGE == 0 && KERNEL_START % LARGE == 0
  {
  }

  // A window, address by address.
  ghost predicate Translates(mem: Memory, root: nat, start: nat, length: nat, phys: nat) {
    forall u: nat :: start <= u < start + length ==> Walk(mem, root, u) == Some(phys + (u - start))
  }

  lemma WindowTranslates(mem: Memory, root: nat, start: nat, n: nat, phys: nat)
    requires start % LARGE == 0 && LargePage(start) + n <= LARGE_PAGES && Window(mem, root, LargePage(start), n, phys)
    ensures Translates(mem, root, start, n * LARGE, phys)
  {
    hide Walk;
    forall u: nat | start <= u < start + n * LARGE ensures Walk(mem, root, u) == Some(phys + (u - start)) {
      InWindow(start, n, u);
    }
  }

  lemma InWindow(start: nat, n: nat, u: nat)
    requires start % LARGE == 0 && LargePage(start) + n <= LARGE_PAGES && start <= u < start + n * LARGE
    ensures LargePage(start) <= LargePage(u) < LargePage(start) + n
    ensures (LargePage(u) - LargePage(start)) * LARGE + u % LARGE == u - start
  {
    var d := u - start;
    var k := d / LARGE;
    assert k < n;
    PageOf(start, k);
    assert u == (start / LARGE + k) * LARGE + d % LARGE;
    assert u / LARGE == start / LARGE + k && u % LARGE == d % LARGE;
  }

  predicate InNoWindow(page: nat) {
    && IDENTITY_PAGES <= page
    && !(STRAIGHT_PAGE <= page < STRAIGHT_PAGE + IDENTITY_PAGES)
    && !(KERNEL_PAGE <= page < KERNEL_PAGE + KERNEL_PAGES)
  }

  // What the start-up code leaves behind when it succeeds: both straight windows, nothing outside the
  // three windows, and the kernel image complete exactly when it starts on a large page.
  ghost predicate Booted(mem: Memory, root: nat, phys: nat) {
    && Translates(mem, root, 0, IDENTITY_LENGTH, 0)
    && Translates(mem, root, STRAIGHT_START, IDENTITY_LENGTH, 0)
    && (Translates(mem, root, KERNEL_START, KERNEL_PAGES * LARGE, phys) <==> phys % LARGE == 0)
    && (forall u: nat :: InNoWindow(LargePage(u)) ==> Walk(mem, root, u) == None)
  }

  lemma KernelHole(mem: Memory, root: nat, phys: nat)
    requires Holes(mem, root, KERNEL_PAGE, KERNEL_PAGES)
    ensures !Translates(mem, root, KERNEL_START, KERNEL_PAGES * LARGE, phys)
  {
    hide Walk;
    var u: nat := KERNEL_START + PAGE;
    assert LargePage(u) == KERNEL_PAGE && Index(u, 1) == 1;
    assert Walk(mem, root, u) == None;
  }

  lemma WindowKept(mem: Memory, mem': Memory, root: nat, lo: nat, n: nat, phys: nat, at: nat, m: nat)
    requires Window(mem, root, lo, n, phys) && Outside(mem, mem', root, at, m) && (lo + n <= at || at + m <= lo)
    ensures Window(mem', root, lo, n, phys)
  {
    hide Walk; hide LargePage;
  }

  // The table pages below the root: two times 1 + 256 for the straight windows, and 2 for the kernel, which
  // takes one more for each of its large pages when it is not aligned.
  function StartupPages(phys: nat): nat { 516 + if phys % LARGE == 0 then 0 else KERNEL_PAGES }

  lemma WindowNeeds(phys: nat)
    ensures Needs(0, IDENTITY_PAGES, true) == 257 && Needs(STRAIGHT_PAGE, IDENTITY_PAGES, true) == 257
    ensures Needs(KERNEL_PAGE, KERNEL_PAGES, phys % LARGE == 0) == StartupPages(phys) - 514
  {
  }

  method SetupStartup(page: nat, phys: nat, supply: seq<nat>) returns (r: int, bt: BootTable, rest: seq<nat>)
    requires FreshPages(map[page := []], supply)
    ensures fresh(bt) && bt.Valid() && (r == 0 || r == -ENOMEM)
    ensures r == 0 <==> |supply| >= StartupPages(phys)
    ensures r == 0 ==> Booted(bt.mem, bt.root, phys) && |rest| == |supply| - StartupPages(phys)
    ensures r != 0 ==> rest == []
  {
    hide Walk; hide EntryAt; hide LargePage; hide Index; hide Tree; hide Needs;
    bt := new BootTable(page);
    WindowNumbers();
    WindowNeeds(phys);
    ghost var m0 := bt.mem;
    r, rest := MapWindow(bt, 0, 0, IDENTITY_PAGES, supply);
    if r < 0 { return -ENOMEM, bt, rest; }
    ghost var m1 := bt.mem;
    r, rest := MapWindow(bt, STRAIGHT_START, 0, IDENTITY_PAGES, rest);
    if r < 0 { return -ENOMEM, bt, rest; }
    ghost var m2 := bt.mem;
    WindowKept(m1, m2, bt.root, 0, IDENTITY_PAGES, 0, STRAIGHT_PAGE, IDENTITY_PAGES);
    r, rest := MapWindow(bt, KERNEL_START, phys, KERNEL_PAGES, rest);
    if r < 0 { return -ENOMEM, bt, rest; }
    WindowKept(m2, bt.mem, bt.root, 0, IDENTITY_PAGES, 0, KERNEL_PAGE, KERNEL_PAGES);
    WindowKept(m2, bt.mem, bt.root, STRAIGHT_PAGE, IDENTITY_PAGES, 0, KERNEL_PAGE, KERNEL_PAGES);
    WindowTranslates(bt.mem, bt.root, 0, IDENTITY_PAGES, 0);
    WindowTranslates(bt.mem, bt.root, STRAIGHT_START, IDENTITY_PAGES, 0);
    if phys % LARGE == 0 {
      WindowTranslates(bt.mem, bt.root, KERNEL_START, KERNEL_PAGES, phys);
    } else {
      KernelHole(bt.mem, bt.root, phys);
    }
    r := 0;
  }

  // ---------- Teardown ----------

  // The table pages below the first `i` entries of a table, each after what hangs below it: the order in
  // which they are given back.
  function Below(mem: Memory, p: nat, level: nat, i: nat): (pages: seq<nat>)
    requires i <= ENTRIES
    decreases level, i
  {
    if level <= 1 || i == 0 || p !in mem || |mem[p]| != ENTRIES then []
    else
      var e := mem[p][i - 1];
      Below(mem, p, level, i - 1) + if e.Table? then Below(mem, e.page, level - 1, ENTRIES) + [e.page] else []
  }

  lemma ParentOf(mem: Memory, root: nat, info: map<nat, Node>, x: nat)
    requires Tree(mem, root, info) && x in mem && x != root
    ensures x in info && info[x].level < 4
    ensures info[x].parent in mem && info[info[x].parent].level == info[x].level + 1
    ensures info[x].slot < |mem[info[x].parent]| == ENTRIES && mem[info[x].parent][info[x].slot] == Table(x)
  {
    assert Hangs(mem, info, x);
  }

  lemma ChildOf(mem: Memory, root: nat, info: map<nat, Node>, p: nat, i: nat)
    requires Tree(mem, root, info) && p in mem && i < ENTRIES && mem[p][i].Table?
    ensures var x := mem[p][i].page;
      x in mem && x != root && info[p].level > 1 && info[x] == Node(info[p].level - 1, p, i)
  {
  }

  // The ancestor of a table page at a level.
  ghost function Up(mem: Memory, root: nat, info: map<nat, Node>, x: nat, level: nat): (a: nat)
    requires Tree(mem, root, info) && x in mem && info[x].level <= level <= 4
    ensures a in mem && info[a].level == level
    decreases level - info[x].level
  {
    if info[x].level == level then x
    else
      ParentOf(mem, root, info, x);
      Up(mem, root, info, info[x].parent, level)
  }

  lemma {:induction false} UpStep(mem: Memory, root: nat, info: map<nat, Node>, x: nat, level: nat)
    requires Tree(mem, root, info) && x in mem && info[x].level <= level < 4
    ensures Up(mem, root, info, x, level + 1) == info[Up(mem, root, info, x, level)].parent
    decreases level - info[x].level
  {
    hide Children; hide Parents; hide Leaves;
    ParentOf(mem, root, info, x);
    if info[x].level < level { UpStep(mem, root, info, info[x].parent, level); }
  }

  ghost predicate HangsIn(mem: Memory, root: nat, info: map<nat, Node>, p: nat, i: nat, x: nat)
    requires Tree(mem, root, info) && p in mem
  {
    && x in mem && info[x].level < info[p].level
    && var a := Up(mem, root, info, x, info[p].level - 1);
       info[a].parent == p && info[a].slot < i
  }

  // One more entry brings in its table and what hangs below that, and these are new.
  lemma HangsInStep(mem: Memory, root: nat, info: map<nat, Node>, p: nat, i: nat, x: nat)
    requires Tree(mem, root, info) && p in mem && info[p].level > 1 && 0 < i <= ENTRIES
    ensures mem[p][i - 1].Table? ==> mem[p][i - 1].page in mem
    ensures var e := mem[p][i - 1]; HangsIn(mem, root, info, p, i, x) <==>
      HangsIn(mem, root, info, p, i - 1, x)
        || (e.Table? && (x == e.page || HangsIn(mem, root, info, e.page, ENTRIES, x)))
    ensures var e := mem[p][i - 1]; e.Table? && (x == e.page || HangsIn(mem, root, info, e.page, ENTRIES, x)) ==>
      !HangsIn(mem, root, info, p, i - 1, x)
  {
    hide Children; hide Parents; hide Leaves;
    var e := mem[p][i - 1];
    if e.Table? { ChildOf(mem, root, info, p, i - 1); }
    if x in mem && info[x].level < info[p].level {
      var a := Up(mem, root, info, x, info[p].level - 1);
      ParentOf(mem, root, info, a);
      if x != a {
        UpStep(mem, root, info, x, info[a].level - 1);
        ParentOf(mem, root, info, Up(mem, root, info, x, info[a].level - 1));
      }
    }
  }

  // The listing holds exactly the pages with an ancestor in one of its entries.
  lemma {:induction false} BelowIs(mem: Memory, root: nat, info: map<nat, Node>, p: nat, i: nat, x: nat)
    requires Tree(mem, root, info) && p in mem && i <= ENTRIES
    ensures x in Below(mem, p, info[p].level, i) <==> HangsIn(mem, root, info, p, i, x)
    decreases info[p].level, i
  {
    hide Children; hide Parents; hide Leaves;
    if info[p].level > 1 && i > 0 {
      BelowIs(mem, root, info, p, i - 1, x);
      HangsInStep(mem, root, info, p, i, x);
      if mem[p][i - 1].Table? {
        ChildOf(mem, root, info, p, i - 1);
        BelowIs(mem, root, info, mem[p][i - 1].page, ENTRIES, x);
      }
    }
  }

  lemma {:induction false} BelowOnce(mem: Memory, root: nat, info: map<nat, Node>, p: nat, i: nat)
    requires Tree(mem, root, info) && p in mem && i <= ENTRIES
    ensures NoRepeats(Below(mem, p, info[p].level, i))
    decreases info[p].level, i
  {
    hide Children; hide Parents; hide Leaves;
    var level := info[p].level;
    if level > 1 && i > 0 {
      BelowOnce(mem, root, info, p, i - 1);
      var e := mem[p][i - 1];
      if e.Table? {
        ChildOf(mem, root, info, p, i - 1);
        var first, next := Below(mem, p, level, i - 1), Below(mem, e.page, level - 1, ENTRIES);
        BelowOnce(mem, root, info, e.page, ENTRIES);
        forall x | x in first ensures x !in next + [e.page] {
          BelowIs(mem, root, info, p, i - 1, x);
          BelowIs(mem, root, info, e.page, ENTRIES, x);
          HangsInStep(mem, root, info, p, i, x);
        }
        BelowIs(mem, root, info, e.page, ENTRIES, e.page);
        Joined(next, [e.page]);
        Joined(first, next + [e.page]);
      }
    }
  }

  ghost predicate NoRepeats(s: seq<nat>) {
    forall j, k :: 0 <= j < k < |s| ==> s[j] != s[k]
  }

  lemma Joined(s: seq<nat>, t: seq<nat>)
    requires NoRepeats(s) && NoRepeats(t) && forall x :: x in s ==> x !in t
    ensures NoRepeats(s + t)
  {
    forall j, k | 0 <= j < k < |s + t| ensures (s + t)[j] != (s + t)[k] {
      if j < |s| <= k { assert s[j] in s && t[k - |s|] in t; }
    }
  }

  // Everything hangs below the root, so the whole listing is the whole table, each page once.
  lemma AllBelowOnce(mem: Memory, root: nat, info: map<nat, Node>)
    requires Tree(mem, root, info)
    ensures var pages := Below(mem, root, 4, ENTRIES) + [root];
      NoRepeats(pages) && forall x :: x in pages <==> x in mem
  {
    hide Children; hide Parents; hide Leaves; hide Below;
    BelowOnce(mem, root, info, root, ENTRIES);
    forall x: nat ensures x in Below(mem, root, 4, ENTRIES) <==> x in mem && x != root {
      BelowIs(mem, root, info, root, ENTRIES, x);
      if x in mem && x != root {
        ParentOf(mem, root, info, x);
        ParentOf(mem, root, info, Up(mem, root, info, x, 3));
        OneRoot(mem, root, info, info[Up(mem, root, info, x, 3)].parent);
      }
    }
    Joined(Below(mem, root, 4, ENTRIES), [root]);
  }

  lemma OneRoot(mem: Memory, root: nat, info: map<nat, Node>, x: nat)
    requires Tree(mem, root, info) && x in mem && info[x].level == 4
    ensures x == root
  {
    if x != root { ParentOf(mem, root, info, x); }
  }

  // The three loops of ihk_smp_free_page_tables. Each gives back what hangs in the entries it has passed.
  method FreeThirdLevel(bt: BootTable, table: nat) returns (freed: seq<nat>)
    requires bt.Valid() && table in bt.mem
    ensures freed == Below(bt.mem, table, 2, ENTRIES)
  {
    freed := [];
    for i := 0 to ENTRIES
      invariant freed == Below(bt.mem, table, 2, i)
    {
      var e := bt.mem[table][i];
      if e.Absent? || e.Leaf? { continue; }
      freed := freed + [e.page];
    }
  }

  method FreeSecondLevel(bt: BootTable, table: nat) returns (freed: seq<nat>)
    requires bt.Valid() && table in bt.mem && bt.info[table].level == 3
    ensures freed == Below(bt.mem, table, 3, ENTRIES)
  {
    freed := [];
    for i := 0 to ENTRIES
      invariant freed == Below(bt.mem, table, 3, i)
    {
      var e := bt.mem[table][i];
      if !e.Table? { continue; }
      ChildOf(bt.mem, bt.root, bt.info, table, i);
      var below := FreeThirdLevel(bt, e.page);
      freed := freed + below + [e.page];
    }
  }

  method FreePageTables(bt: BootTable) returns (freed: seq<nat>)
    requires bt.Valid()
    ensures NoRepeats(freed) && forall x :: x in freed <==> x in bt.mem
  {
    hide NoRepeats;
    freed := [];
    for i := 0 to ENTRIES
      invariant freed == Below(bt.mem, bt.root, 4, i)
    {
      var e := bt.mem[bt.root][i];
      if !e.Table? { continue; }
      ChildOf(bt.mem, bt.root, bt.info, bt.root, i);
      var below := FreeSecondLevel(bt, e.page);
      freed := freed + below + [e.page];
    }
    AllBelowOnce(bt.mem, bt.root, bt.info);
    freed := freed + [bt.root];
  }
}
