/**
 The boot page table of a guest kernel: 4-level paging (section 4.5 of the Intel SDM Volume 3A)
 with 2 MiB and 4 KiB leaves.  Table pages live in a memory of pages of 512 entries; the
 kernel's page supply is a parameter.
 */
module PageTable {
  import opened Options

  const PAGE := 4096
  const LARGE := 0x20_0000
  const ENTRIES := 512
  // Large pages in the 48-bit address space.
  const LARGE_PAGES := 0x800_0000

  // A table entry: not present, a lower table, or a frame (large when the table is a PMD).
  datatype Entry = Absent | Table(page: nat) | Leaf(frame: nat)

  type Memory = map<nat, seq<Entry>>

  // The 9-bit index of an address at a level; level 4 is the PGD, level 1 the PTE table.
  function Index(v: nat, level: nat): (i: nat)
    requires 1 <= level <= 4
    ensures i < ENTRIES
  {
    match level
    case 1 => (v / PAGE) % ENTRIES
    case 2 => (v / LARGE) % ENTRIES
    case 3 => (v / 0x4000_0000) % ENTRIES
    case 4 => (v / 0x80_0000_0000) % ENTRIES
  }

  // The number of the large page of an address, over the 48 bits that are translated.
  function LargePage(v: nat): nat { (v / LARGE) % LARGE_PAGES }

  lemma SameLargePage(v: nat, u: nat)
    ensures LargePage(v) == LargePage(u) <==>
      Index(v, 4) == Index(u, 4) && Index(v, 3) == Index(u, 3) && Index(v, 2) == Index(u, 2)
  {
    hide Index; hide LargePage;
    Split(v);
    Split(u);
  }

  lemma Split(v: nat)
    ensures LargePage(v) == Index(v, 4) * 0x4_0000 + Index(v, 3) * 0x200 + Index(v, 2)
  {
    var n := v / LARGE;
    var m, i2 := n / ENTRIES, n % ENTRIES;
    var k, i3 := m / ENTRIES, m % ENTRIES;
    var h, i4 := k / ENTRIES, k % ENTRIES;
    Quotient(v, 0x4000_0000, m, i2 * LARGE + v % LARGE);
    Quotient(v, 0x80_0000_0000, k, i3 * 0x4000_0000 + i2 * LARGE + v % LARGE);
    Quotient(n, LARGE_PAGES, h, i4 * 0x4_0000 + i3 * 0x200 + i2);
  }

  lemma Quotient(v: nat, d: nat, q: nat, r: nat)
    requires d in {0x4000_0000, 0x80_0000_0000, LARGE_PAGES} && v == q * d + r && r < d
    ensures v / d == q && v % d == r
  {
  }

  // Where a table page hangs: its level, and the entry that points at it.
  datatype Node = Node(level: nat, parent: nat, slot: nat)

  // Tables form a tree of four levels below the root: entries point one level down, every page but the
  // root is pointed at by exactly one entry.
  ghost predicate Tree(mem: Memory, root: nat, info: map<nat, Node>) {
    Levels(mem, root, info) && Children(mem, root, info) && Leaves(mem, info) && Parents(mem, root, info)
  }

  ghost predicate Levels(mem: Memory, root: nat, info: map<nat, Node>) {
    && info.Keys == mem.Keys && root in mem && info[root].level == 4
    && (forall p :: p in mem ==> |mem[p]| == ENTRIES && 1 <= info[p].level <= 4)
  }

  ghost predicate Children(mem: Memory, root: nat, info: map<nat, Node>) {
    forall p, i :: p in mem && p in info && 0 <= i < |mem[p]| && mem[p][i].Table? && info[p].level >= 1 ==>
      && mem[p][i].page in mem && mem[p][i].page != root && mem[p][i].page in info
      && info[mem[p][i].page] == Node(info[p].level - 1, p, i)
  }

  ghost predicate Leaves(mem: Memory, info: map<nat, Node>) {
    forall p, i :: p in mem && p in info && 0 <= i < |mem[p]| && mem[p][i].Leaf? ==> info[p].level <= 2
  }

  ghost predicate Parents(mem: Memory, root: nat, info: map<nat, Node>) {
    forall q {:trigger Hangs(mem, info, q)} :: q in mem && q != root ==> Hangs(mem, info, q)
  }

  ghost predicate Hangs(mem: Memory, info: map<nat, Node>, q: nat) {
    q in info && info[q].parent in mem && info[q].slot < |mem[info[q].parent]|
      && mem[info[q].parent][info[q].slot] == Table(q)
  }

  // ---------- The hardware walk ----------

  // The table of the given level that an address goes through.
  function TableAt(mem: Memory, root: nat, v: nat, level: nat): (r: Option<nat>)
    requires 1 <= level <= 4
    decreases 4 - level
  {
    if level == 4 then (if root in mem then Some(root) else None)
    else
      var up := TableAt(mem, root, v, level + 1);
      if up.None? || up.value !in mem || |mem[up.value]| != ENTRIES then None
      else
        var e := mem[up.value][Index(v, level + 1)];
        if e.Table? then Some(e.page) else None
  }

  function EntryAt(mem: Memory, root: nat, v: nat, level: nat): (e: Entry)
    requires 1 <= level <= 4
  {
    var t := TableAt(mem, root, v, level);
    if t.None? || t.value !in mem || |mem[t.value]| != ENTRIES then Absent else mem[t.value][Index(v, level)]
  }

  function Walk(mem: Memory, root: nat, v: nat): Option<nat> {
    var e2 := EntryAt(mem, root, v, 2);
    if e2.Leaf? then Some(e2.frame + v % LARGE)
    else
      var e1 := EntryAt(mem, root, v, 1);
      if e1.Leaf? then Some(e1.frame + v % PAGE) else None
  }

  lemma {:induction false} LevelAt(mem: Memory, root: nat, info: map<nat, Node>, v: nat, level: nat)
    requires Levels(mem, root, info) && Children(mem, root, info) && 1 <= level <= 4
    ensures var t := TableAt(mem, root, v, level);
      t.Some? ==> t.value in mem && t.value in info && info[t.value].level == level
    ensures var t := TableAt(mem, root, v, level); t.Some? && level < 4 ==>
      TableAt(mem, root, v, level + 1) == Some(info[t.value].parent) && info[t.value].slot == Index(v, level + 1)
    decreases 4 - level
  {
    hide Index;
    if level < 4 {
      LevelAt(mem, root, info, v, level + 1);
      var up := TableAt(mem, root, v, level + 1);
      if up.Some? {
        var e := mem[up.value][Index(v, level + 1)];
        assert e.Table? ==> info[e.page] == Node(level, up.value, Index(v, level + 1));
      }
    }
  }

  // Two addresses that reach the same table agree on all indices above it.
  lemma {:induction false} SameTable(mem: Memory, root: nat, info: map<nat, Node>, v: nat, u: nat, level: nat)
    requires Levels(mem, root, info) && Children(mem, root, info) && 1 <= level <= 4
    requires TableAt(mem, root, v, level).Some? && TableAt(mem, root, v, level) == TableAt(mem, root, u, level)
    ensures forall k :: level < k <= 4 ==> Index(v, k) == Index(u, k)
    decreases 4 - level
  {
    hide Index; hide Levels; hide Children;
    if level < 4 {
      LevelAt(mem, root, info, v, level);
      LevelAt(mem, root, info, u, level);
      SameTable(mem, root, info, v, u, level + 1);
    }
  }

  // ---------- Hooking in an empty table ----------

  function Zeroed(): (t: seq<Entry>)
    ensures |t| == ENTRIES && forall i :: 0 <= i < ENTRIES ==> t[i] == Absent
  {
    seq(ENTRIES, _ => Absent)
  }

  function AddTable(mem: Memory, p: nat, i: nat, q: nat): Memory
    requires p in mem && i < |mem[p]|
  {
    mem[q := Zeroed()][p := mem[p][i := Table(q)]]
  }

  lemma AddTableTree(mem: Memory, root: nat, info: map<nat, Node>, p: nat, i: nat, q: nat)
    requires Tree(mem, root, info) && p in mem && i < ENTRIES && q !in mem && mem[p][i].Absent? && info[p].level > 1
    ensures Tree(AddTable(mem, p, i, q), root, info[q := Node(info[p].level - 1, p, i)])
  {
    AddTableParents(mem, root, info, p, i, q);
    AddTableChildren(mem, root, info, p, i, q);
  }

  lemma AddTableChildren(mem: Memory, root: nat, info: map<nat, Node>, p: nat, i: nat, q: nat)
    requires Levels(mem, root, info) && Children(mem, root, info) && p in mem && i < ENTRIES && q !in mem
      && mem[p][i].Absent? && info[p].level > 1
    ensures Children(AddTable(mem, p, i, q), root, info[q := Node(info[p].level - 1, p, i)])
  {
  }

  lemma AddTableParents(mem: Memory, root: nat, info: map<nat, Node>, p: nat, i: nat, q: nat)
    requires Levels(mem, root, info) && Parents(mem, root, info) && p in mem && i < ENTRIES && q !in mem
      && mem[p][i].Absent? && info[p].level > 1
    ensures Parents(AddTable(mem, p, i, q), root, info[q := Node(info[p].level - 1, p, i)])
  {
    var mem', info' := AddTable(mem, p, i, q), info[q := Node(info[p].level - 1, p, i)];
    forall x | x in mem' && x != root ensures Hangs(mem', info', x) {
      if x != q { assert Hangs(mem, info, x); }
    }
  }

  // The new table is reached only where nothing was reached before.
  lemma {:induction false} AddTableAt(mem: Memory, root: nat, info: map<nat, Node>, p: nat, i: nat, q: nat, v: nat,
      level: nat)
    requires Levels(mem, root, info) && Children(mem, root, info) && p in mem && i < ENTRIES && q !in mem
      && mem[p][i].Absent? && 1 <= level <= 4
    ensures var t, t' := TableAt(mem, root, v, level), TableAt(AddTable(mem, p, i, q), root, v, level);
      t' == t || (t.None? && t' == Some(q))
    decreases 4 - level
  {
    hide Index;
    if level < 4 {
      AddTableAt(mem, root, info, p, i, q, v, level + 1);
      LevelAt(mem, root, info, v, level + 1);
    }
  }

  lemma AddTableWalk(mem: Memory, root: nat, info: map<nat, Node>, p: nat, i: nat, q: nat, v: nat)
    requires Levels(mem, root, info) && Children(mem, root, info) && p in mem && i < ENTRIES && q !in mem
      && mem[p][i].Absent?
    ensures Walk(AddTable(mem, p, i, q), root, v) == Walk(mem, root, v)
  {
    AddTableAt(mem, root, info, p, i, q, v, 2);
    AddTableAt(mem, root, info, p, i, q, v, 1);
    LevelAt(mem, root, info, v, 2);
    LevelAt(mem, root, info, v, 1);
  }

  // ---------- Writing a leaf ----------

  function SetLeaf(mem: Memory, p: nat, i: nat, frame: nat): Memory
    requires p in mem && i < |mem[p]|
  {
    mem[p := mem[p][i := Leaf(frame)]]
  }

  lemma SetLeafTree(mem: Memory, root: nat, info: map<nat, Node>, p: nat, i: nat, frame: nat)
    requires Tree(mem, root, info) && p in mem && i < ENTRIES && !mem[p][i].Table? && info[p].level <= 2
    ensures Tree(SetLeaf(mem, p, i, frame), root, info)
  {
    var mem' := SetLeaf(mem, p, i, frame);
    forall x | x in mem' && x != root ensures Hangs(mem', info, x) {
      assert Hangs(mem, info, x);
    }
  }

  lemma {:induction false} SetLeafAt(mem: Memory, root: nat, p: nat, i: nat, frame: nat, v: nat, level: nat)
    requires p in mem && i < |mem[p]| && !mem[p][i].Table? && 1 <= level <= 4
    ensures TableAt(SetLeaf(mem, p, i, frame), root, v, level) == TableAt(mem, root, v, level)
    decreases 4 - level
  {
    if level < 4 { SetLeafAt(mem, root, p, i, frame, v, level + 1); }
  }

  // A leaf written through the walk of v at a level shows up exactly for the addresses that share v's
  // indices down to that level.
  lemma SetLeafEntry(mem: Memory, root: nat, info: map<nat, Node>, v: nat, level: nat, frame: nat, u: nat, k: nat)
    requires Tree(mem, root, info) && 1 <= level <= 2 && 1 <= k <= 2
    requires TableAt(mem, root, v, level).Some? && !EntryAt(mem, root, v, level).Table?
    ensures TableAt(mem, root, v, level).value in mem
    ensures var mem' := SetLeaf(mem, TableAt(mem, root, v, level).value, Index(v, level), frame);
      EntryAt(mem', root, u, k) ==
      if k == level && (forall m :: level <= m <= 4 ==> Index(u, m) == Index(v, m)) then Leaf(frame)
      else EntryAt(mem, root, u, k)
  {
    LevelAt(mem, root, info, v, level);
    LevelAt(mem, root, info, u, k);
    var p := TableAt(mem, root, v, level).value;
    SetLeafAt(mem, root, p, Index(v, level), frame, u, k);
    if k == level && (forall m :: level <= m <= 4 ==> Index(u, m) == Index(v, m)) {
      SameIndices(mem, root, v, u, level);
    } else if TableAt(mem, root, u, k) == Some(p) {
      SameTable(mem, root, info, v, u, level);
    }
  }

  // The upper levels do not change.
  lemma SetLeafUpper(mem: Memory, root: nat, info: map<nat, Node>, p: nat, i: nat, frame: nat, u: nat, k: nat)
    requires Tree(mem, root, info) && p in mem && info[p].level <= 2 && i < ENTRIES && !mem[p][i].Table? && 3 <= k <= 4
    ensures EntryAt(SetLeaf(mem, p, i, frame), root, u, k) == EntryAt(mem, root, u, k)
  {
    hide Index;
    LevelAt(mem, root, info, u, k);
    SetLeafAt(mem, root, p, i, frame, u, k);
  }

  lemma {:induction false} SameIndices(mem: Memory, root: nat, v: nat, u: nat, level: nat)
    requires 1 <= level <= 4 && forall m :: level <= m <= 4 ==> Index(u, m) == Index(v, m)
    ensures TableAt(mem, root, v, level) == TableAt(mem, root, u, level)
    decreases 4 - level
  {
    if level < 4 { SameIndices(mem, root, v, u, level + 1); }
  }

  // Writing a large leaf where no table was: its large page translates to the frame, the rest as before.
  lemma SetLargeWalk(mem: Memory, root: nat, info: map<nat, Node>, v: nat, frame: nat, u: nat)
    requires Tree(mem, root, info) && TableAt(mem, root, v, 2).Some? && EntryAt(mem, root, v, 2).Absent?
    ensures TableAt(mem, root, v, 2).value in mem
    ensures Walk(SetLeaf(mem, TableAt(mem, root, v, 2).value, Index(v, 2), frame), root, u) ==
      if LargePage(u) == LargePage(v) then Some(frame + u % LARGE) else Walk(mem, root, u)
    ensures LargePage(u) == LargePage(v) ==> Walk(mem, root, u) == None
  {
    hide Index;
    SetLeafEntry(mem, root, info, v, 2, frame, u, 2);
    SetLeafEntry(mem, root, info, v, 2, frame, u, 1);
    SameLargePage(u, v);
    if LargePage(u) == LargePage(v) { SameIndices(mem, root, v, u, 2); }
  }

  // Writing a small leaf replaces the translation of its own page only.
  lemma SetSmallWalk(mem: Memory, root: nat, info: map<nat, Node>, v: nat, frame: nat, u: nat)
    requires Tree(mem, root, info) && TableAt(mem, root, v, 1).Some?
    ensures TableAt(mem, root, v, 1).value in mem && !EntryAt(mem, root, v, 1).Table? && !EntryAt(mem, root, v, 2).Leaf?
    ensures Walk(SetLeaf(mem, TableAt(mem, root, v, 1).value, Index(v, 1), frame), root, u) ==
      if LargePage(u) == LargePage(v) && Index(u, 1) == Index(v, 1) then Some(frame + u % PAGE) else Walk(mem, root, u)
  {
    hide Index;
    LevelAt(mem, root, info, v, 1);
    SetLeafEntry(mem, root, info, v, 1, frame, u, 2);
    SetLeafEntry(mem, root, info, v, 1, frame, u, 1);
    SameLargePage(u, v);
    if LargePage(u) == LargePage(v) { SameIndices(mem, root, v, u, 2); }
  }

  lemma AddTableEntry(mem: Memory, root: nat, info: map<nat, Node>, p: nat, q: nat, v: nat, level: nat, k: nat)
    requires Levels(mem, root, info) && Children(mem, root, info) && 1 < level <= 4 && 1 <= k < level
    requires TableAt(mem, root, v, level) == Some(p) && EntryAt(mem, root, v, level).Absent? && q !in mem
    ensures p in mem && EntryAt(AddTable(mem, p, Index(v, level), q), root, v, k) == EntryAt(mem, root, v, k) == Absent
    ensures TableAt(AddTable(mem, p, Index(v, level), q), root, v, level - 1) == Some(q)
  {
    hide Index;
    LevelAt(mem, root, info, v, level);
    NothingBelow(mem, root, v, level, k);
    var mem' := AddTable(mem, p, Index(v, level), q);
    AddTableAt(mem, root, info, p, Index(v, level), q, v, level);
    assert TableAt(mem', root, v, level - 1) == Some(q);
    AddTableAt(mem, root, info, p, Index(v, level), q, v, k);
  }

  lemma {:induction false} NothingBelow(mem: Memory, root: nat, v: nat, level: nat, k: nat)
    requires 1 < level <= 4 && 1 <= k < level && EntryAt(mem, root, v, level).Absent?
    ensures TableAt(mem, root, v, k) == None
    decreases level - k
  {
    hide Index;
    if k < level - 1 { NothingBelow(mem, root, v, level, k + 1); }
  }

  // Hooking in a table on the walk of v is invisible at level 2 from other large pages.
  lemma AddTableOthers(mem: Memory, root: nat, info: map<nat, Node>, p: nat, q: nat, v: nat, level: nat, u: nat)
    requires Levels(mem, root, info) && Children(mem, root, info) && 1 < level <= 4
    requires TableAt(mem, root, v, level) == Some(p) && EntryAt(mem, root, v, level).Absent? && q !in mem
    requires LargePage(u) != LargePage(v)
    ensures p in mem && EntryAt(AddTable(mem, p, Index(v, level), q), root, u, 2) == EntryAt(mem, root, u, 2)
  {
    hide Index;
    LevelAt(mem, root, info, v, level);
    LevelAt(mem, root, info, u, 2);
    AddTableAt(mem, root, info, p, Index(v, level), q, u, 2);
    SameLargePage(u, v);
    if TableAt(mem, root, u, 2) == Some(p) { SameTable(mem, root, info, v, u, 2); }
  }

  // ---------- The kernel's operations ----------

  const ENOMEM := 12
  const EBUSY := 16

  // Pages the kernel may hand out next: new and distinct.
  ghost predicate FreshPages(mem: Memory, supply: seq<nat>) {
    && (forall k :: 0 <= k < |supply| ==> supply[k] !in mem)
    && (forall j, k :: 0 <= j < k < |supply| ==> supply[j] != supply[k])
  }

  // The large page of v now translates from `paddr`, it did not translate before, and nothing else changed.
  ghost predicate MappedLarge(mem: Memory, mem': Memory, root: nat, v: nat, paddr: nat) {
    && (forall u: nat :: LargePage(u) == LargePage(v) ==>
      Walk(mem', root, u) == Some(paddr + u % LARGE) && Walk(mem, root, u) == None)
    && (forall u: nat :: LargePage(u) != LargePage(v) ==> Walk(mem', root, u) == Walk(mem, root, u))
  }

  // The 4 KiB page of v now translates to the frame of `paddr`, whatever it was before, and nothing else changed.
  ghost predicate MappedSmall(mem: Memory, mem': Memory, root: nat, v: nat, paddr: nat) {
    && (forall u: nat :: SamePage(u, v) ==> Walk(mem', root, u) == Some(paddr - paddr % PAGE + u % PAGE))
    && (forall u: nat :: !SamePage(u, v) ==> Walk(mem', root, u) == Walk(mem, root, u))
  }

  predicate SamePage(u: nat, v: nat) { LargePage(u) == LargePage(v) && Index(u, 1) == Index(v, 1) }

  ghost predicate SameWalks(mem: Memory, mem': Memory, root: nat) {
    forall u: nat :: Walk(mem', root, u) == Walk(mem, root, u)
  }

  // Level 2 looks the same from every other large page.
  ghost predicate SameElsewhere(mem: Memory, mem': Memory, root: nat, v: nat) {
    forall u: nat :: LargePage(u) != LargePage(v) ==> EntryAt(mem', root, u, 2) == EntryAt(mem, root, u, 2)
  }

  // Two addresses go through the same entry of a level.
  predicate Shares(u: nat, v: nat, level: nat)
    requires 1 <= level <= 4
  {
    forall m :: level <= m <= 4 ==> Index(u, m) == Index(v, m)
  }

  // What is absent in the two upper levels, before and after an entry on the walk of v is filled.
  ghost predicate OpenedAt(mem: Memory, mem': Memory, root: nat, v: nat, level: nat) {
    forall u: nat, k :: 3 <= k <= 4 ==>
      (EntryAt(mem', root, u, k).Absent? <==> EntryAt(mem, root, u, k).Absent? && !(k == level && Shares(u, v, k)))
  }

  // The same when both levels are filled.
  ghost predicate Opened(mem: Memory, mem': Memory, root: nat, v: nat) {
    forall u: nat, k :: 3 <= k <= 4 ==>
      (EntryAt(mem', root, u, k).Absent? <==> EntryAt(mem, root, u, k).Absent? && !Shares(u, v, k))
  }

  lemma AddTableUpper(mem: Memory, root: nat, info: map<nat, Node>, p: nat, q: nat, v: nat, level: nat, u: nat, k: nat)
    requires Levels(mem, root, info) && Children(mem, root, info) && 1 < level <= 4 && 3 <= k <= 4
    requires TableAt(mem, root, v, level) == Some(p) && EntryAt(mem, root, v, level).Absent? && q !in mem
    ensures p in mem && |mem[p]| == ENTRIES
    ensures EntryAt(AddTable(mem, p, Index(v, level), q), root, u, k).Absent? <==>
      EntryAt(mem, root, u, k).Absent? && !(k == level && Shares(u, v, k))
  {
    hide Index;
    LevelAt(mem, root, info, v, level);
    LevelAt(mem, root, info, u, k);
    AddTableAt(mem, root, info, p, Index(v, level), q, u, k);
    if k == level && Shares(u, v, k) {
      SameIndices(mem, root, v, u, k);
    } else if TableAt(mem, root, u, k) == Some(p) {
      SameTable(mem, root, info, v, u, level);
    }
  }

  lemma NothingOpened(mem: Memory, root: nat, v: nat, level: nat)
    requires 1 <= level <= 4 && !EntryAt(mem, root, v, level).Absent?
    ensures OpenedAt(mem, mem, root, v, level)
  {
    hide Index; hide TableAt;
    forall u: nat, k | 3 <= k <= 4 && k == level && Shares(u, v, k) ensures !EntryAt(mem, root, u, k).Absent? {
      SameIndices(mem, root, v, u, k);
      assert Index(u, k) == Index(v, k);
    }
  }

  lemma OpensBoth(mem: Memory, mid: Memory, mem': Memory, root: nat, v: nat)
    requires OpenedAt(mem, mid, root, v, 4) && OpenedAt(mid, mem', root, v, 3)
    ensures Opened(mem, mem', root, v)
  {
    hide EntryAt; hide Shares;
  }

  // A step that opens nothing in the upper levels: a third-level table, or a leaf.
  lemma StaysOpened(mem: Memory, mid: Memory, mem': Memory, root: nat, v: nat, level: nat)
    requires Opened(mem, mid, root, v) && OpenedAt(mid, mem', root, v, level) && level <= 2
    ensures Opened(mem, mem', root, v)
  {
    hide EntryAt; hide Shares;
  }

  // How many tables the walk of v lacks down to a level.
  function Missing(mem: Memory, root: nat, v: nat, bottom: nat): (n: nat)
    requires 1 <= bottom <= 4
    decreases 4 - bottom
  {
    if bottom == 4 then 0
    else Missing(mem, root, v, bottom + 1) + if EntryAt(mem, root, v, bottom + 1).Absent? then 1 else 0
  }

  ghost predicate WantsLarge(mem: Memory, root: nat, v: nat, paddr: nat) {
    EntryAt(mem, root, v, 2).Absent? && v % LARGE == 0 && paddr % LARGE == 0
  }

  // Mapping a small page leaves every existing translation alone exactly when its page was free or already
  // led to the same frame.
  lemma MappedSmallKeeps(mem: Memory, mem': Memory, root: nat, v: nat, paddr: nat)
    requires MappedSmall(mem, mem', root, v, paddr) && !EntryAt(mem, root, v, 2).Leaf?
    ensures (forall u: nat :: Walk(mem, root, u).Some? ==> Walk(mem', root, u) == Walk(mem, root, u)) <==>
      !EntryAt(mem, root, v, 1).Leaf? || EntryAt(mem, root, v, 1).frame == paddr - paddr % PAGE
  {
    hide Index; hide TableAt;
    forall u: nat | SamePage(u, v)
      ensures EntryAt(mem, root, u, 1) == EntryAt(mem, root, v, 1)
      && EntryAt(mem, root, u, 2) == EntryAt(mem, root, v, 2) {
      SameLargePage(u, v);
      SameIndices(mem, root, v, u, 1);
      SameIndices(mem, root, v, u, 2);
    }
    assert SamePage(v, v) && Walk(mem', root, v) == Some(paddr - paddr % PAGE + v % PAGE);
  }

  // What the operations read off a tree: the root is where walks start, only the last two levels hold
  // leaves, and nothing hangs below an absent entry.
  lemma Parts(mem: Memory, root: nat, info: map<nat, Node>, v: nat)
    requires Tree(mem, root, info)
    ensures TableAt(mem, root, v, 4) == Some(root)
    ensures !EntryAt(mem, root, v, 4).Leaf? && !EntryAt(mem, root, v, 3).Leaf?
    ensures EntryAt(mem, root, v, 4).Absent? ==> EntryAt(mem, root, v, 3).Absent?
    ensures EntryAt(mem, root, v, 3).Absent? ==> EntryAt(mem, root, v, 2).Absent?
    ensures Missing(mem, root, v, 2) ==
      (if EntryAt(mem, root, v, 4).Absent? then 1 else 0) + if EntryAt(mem, root, v, 3).Absent? then 1 else 0
    ensures Missing(mem, root, v, 1) == Missing(mem, root, v, 2) + if EntryAt(mem, root, v, 2).Absent? then 1 else 0
  {
    hide Index;
    LevelAt(mem, root, info, v, 4);
    LevelAt(mem, root, info, v, 3);
    if EntryAt(mem, root, v, 4).Absent? { NothingBelow(mem, root, v, 4, 3); }
    if EntryAt(mem, root, v, 3).Absent? {
      if TableAt(mem, root, v, 3).Some? { NothingBelow(mem, root, v, 3, 2); }
    }
    assert Missing(mem, root, v, 4) == 0;
    assert Missing(mem, root, v, 3) == if EntryAt(mem, root, v, 4).Absent? then 1 else 0;
  }

  lemma Chain(mem: Memory, mid: Memory, mem': Memory, root: nat, v: nat, paddr: nat)
    requires SameWalks(mem, mid, root) && SameElsewhere(mem, mid, root, v)
    ensures SameElsewhere(mid, mem', root, v) ==> SameElsewhere(mem, mem', root, v)
    ensures SameWalks(mid, mem', root) ==> SameWalks(mem, mem', root)
    ensures MappedLarge(mid, mem', root, v, paddr) ==> MappedLarge(mem, mem', root, v, paddr)
    ensures MappedSmall(mid, mem', root, v, paddr) ==> MappedSmall(mem, mem', root, v, paddr)
  {
    hide Walk; hide EntryAt; hide Index; hide LargePage;
  }

  lemma HookIn(mem: Memory, root: nat, info: map<nat, Node>, v: nat, level: nat, table: nat, page: nat)
    requires Tree(mem, root, info) && 1 < level <= 4 && page !in mem
    requires TableAt(mem, root, v, level) == Some(table) && EntryAt(mem, root, v, level).Absent?
    ensures table in mem && |mem[table]| == ENTRIES
    ensures var mem' := AddTable(mem, table, Index(v, level), page);
      && Tree(mem', root, info[page := Node(level - 1, table, Index(v, level))])
      && SameWalks(mem, mem', root) && SameElsewhere(mem, mem', root, v)
      && TableAt(mem', root, v, level - 1) == Some(page) && OpenedAt(mem, mem', root, v, level)
      && forall k :: 1 <= k < level ==> EntryAt(mem', root, v, k) == EntryAt(mem, root, v, k)
  {
    hide Walk; hide Index; hide Shares;
    LevelAt(mem, root, info, v, level);
    var i := Index(v, level);
    var mem' := AddTable(mem, table, i, page);
    AddTableTree(mem, root, info, table, i, page);
    forall u: nat ensures Walk(mem', root, u) == Walk(mem, root, u) {
      AddTableWalk(mem, root, info, table, i, page, u);
    }
    forall u: nat | LargePage(u) != LargePage(v) ensures EntryAt(mem', root, u, 2) == EntryAt(mem, root, u, 2) {
      AddTableOthers(mem, root, info, table, page, v, level, u);
    }
    forall u: nat, k | 3 <= k <= 4
      ensures EntryAt(mem', root, u, k).Absent? <==>
        EntryAt(mem, root, u, k).Absent? && !(k == level && Shares(u, v, k))
    {
      AddTableUpper(mem, root, info, table, page, v, level, u, k);
    }
    forall k | 1 <= k < level ensures EntryAt(mem', root, v, k) == EntryAt(mem, root, v, k) {
      AddTableEntry(mem, root, info, table, page, v, level, k);
    }
    AddTableEntry(mem, root, info, table, page, v, level, level - 1);
  }

  class BootTable {
    const root: nat
    var mem: Memory
    ghost var info: map<nat, Node>

    ghost predicate Valid()
      reads this
    {
      Tree(mem, root, info)
    }

    constructor (page: nat)
      ensures Valid() && root == page && mem.Keys == {page}
      ensures forall u: nat ::
        Walk(mem, root, u) == None && EntryAt(mem, root, u, 2) == EntryAt(mem, root, u, 4) == Absent
    {
      root := page;
      mem := map[page := Zeroed()];
      info := map[page := Node(4, 0, 0)];
    }

    // The next table down on the walk of v, hooked in empty when there is none.
    method Descend(v: nat, level: nat, table: nat, supply: seq<nat>) returns (next: Option<nat>, rest: seq<nat>)
      requires Valid() && 1 < level <= 4 && FreshPages(mem, supply)
      requires TableAt(mem, root, v, level) == Some(table) && !EntryAt(mem, root, v, level).Leaf?
      modifies this
      ensures Valid() && FreshPages(mem, rest)
      ensures SameWalks(old(mem), mem, root) && SameElsewhere(old(mem), mem, root, v)
      ensures next.Some? ==> TableAt(mem, root, v, level - 1) == next && OpenedAt(old(mem), mem, root, v, level)
      ensures next.Some? ==> |rest| == |supply| - if EntryAt(old(mem), root, v, level).Absent? then 1 else 0
      ensures next.None? ==> supply == rest == [] && EntryAt(old(mem), root, v, level).Absent?
      ensures forall k :: 1 <= k < level ==> EntryAt(mem, root, v, k) == EntryAt(old(mem), root, v, k)
    {
      hide Walk; hide Index; hide Tree; hide OpenedAt;
      var entry := EntryAt(mem, root, v, level);
      if entry.Table? {
        NothingOpened(mem, root, v, level);
        return Some(entry.page), supply;
      }
      if supply == [] { return None, supply; }
      var page := supply[0];
      HookIn(mem, root, info, v, level, table, page);
      info := info[page := Node(level - 1, table, Index(v, level))];
      mem := AddTable(mem, table, Index(v, level), page);
      assert 1 <= level - 1 < level;
      return Some(page), supply[1..];
    }

    method WriteLarge(v: nat, table: nat, paddr: nat)
      requires Valid() && TableAt(mem, root, v, 2) == Some(table) && EntryAt(mem, root, v, 2).Absent?
      modifies this
      ensures Valid() && MappedLarge(old(mem), mem, root, v, paddr) && SameElsewhere(old(mem), mem, root, v)
      ensures mem.Keys == old(mem.Keys)
      ensures OpenedAt(old(mem), mem, root, v, 2)
    {
      hide Walk;
      LevelAt(mem, root, info, v, 2);
      SetLeafTree(mem, root, info, table, Index(v, 2), paddr);
      forall u: nat { SetLargeWalk(mem, root, info, v, paddr, u); }
      ghost var mem' := SetLeaf(mem, table, Index(v, 2), paddr);
      forall u: nat | LargePage(u) != LargePage(v) ensures EntryAt(mem', root, u, 2) == EntryAt(mem, root, u, 2) {
        SetLeafEntry(mem, root, info, v, 2, paddr, u, 2);
        SameLargePage(u, v);
      }
      forall u: nat, k | 3 <= k <= 4 ensures EntryAt(mem', root, u, k) == EntryAt(mem, root, u, k) {
        SetLeafUpper(mem, root, info, table, Index(v, 2), paddr, u, k);
      }
      mem := SetLeaf(mem, table, Index(v, 2), paddr);
    }

    method WriteSmall(v: nat, table: nat, paddr: nat)
      requires Valid() && TableAt(mem, root, v, 1) == Some(table)
      modifies this
      ensures Valid() && MappedSmall(old(mem), mem, root, v, paddr) && SameElsewhere(old(mem), mem, root, v)
      ensures mem.Keys == old(mem.Keys)
      ensures OpenedAt(old(mem), mem, root, v, 1)
    {
      hide Walk;
      LevelAt(mem, root, info, v, 1);
      var frame := paddr - paddr % PAGE;
      forall u: nat { SetSmallWalk(mem, root, info, v, frame, u); }
      SetLeafTree(mem, root, info, table, Index(v, 1), frame);
      forall u: nat ensures EntryAt(SetLeaf(mem, table, Index(v, 1), frame), root, u, 2) == EntryAt(mem, root, u, 2) {
        SetLeafEntry(mem, root, info, v, 1, frame, u, 2);
      }
      forall u: nat, k | 3 <= k <= 4
        ensures EntryAt(SetLeaf(mem, table, Index(v, 1), frame), root, u, k) == EntryAt(mem, root, u, k) {
        SetLeafUpper(mem, root, info, table, Index(v, 1), frame, u, k);
      }
      mem := SetLeaf(mem, table, Index(v, 1), frame);
    }

    // The tables down to level 2.
    method DescendTwice(v: nat, supply: seq<nat>) returns (next: Option<nat>, rest: seq<nat>)
      requires Valid() && FreshPages(mem, supply)
      modifies this
      ensures Valid() && FreshPages(mem, rest)
      ensures SameWalks(old(mem), mem, root) && SameElsewhere(old(mem), mem, root, v)
      ensures next.Some? ==> TableAt(mem, root, v, 2) == next && |rest| == |supply| - Missing(old(mem), root, v, 2)
      ensures next.Some? ==> Opened(old(mem), mem, root, v)
      ensures next.None? ==> rest == [] && |supply| < Missing(old(mem), root, v, 2)
      ensures EntryAt(mem, root, v, 2) == EntryAt(old(mem), root, v, 2)
      ensures next.None? ==> EntryAt(old(mem), root, v, 2).Absent?
    {
      hide *;
      ghost var m0 := mem;
      OwnParts(v);
      var t3, rest3 := Descend(v, 4, root, supply);
      ghost var m1 := mem;
      if t3.None? { return None, rest3; }
      OwnParts(v);
      next, rest := Descend(v, 3, t3.value, rest3);
      if next.Some? { OpensBoth(m0, m1, mem, root, v); }
      Chain(m0, m1, mem, root, v, 0);
    }

    lemma OwnParts(v: nat)
      requires Valid()
      ensures TableAt(mem, root, v, 4) == Some(root)
      ensures !EntryAt(mem, root, v, 4).Leaf? && !EntryAt(mem, root, v, 3).Leaf?
      ensures EntryAt(mem, root, v, 4).Absent? ==> EntryAt(mem, root, v, 3).Absent?
      ensures EntryAt(mem, root, v, 3).Absent? ==> EntryAt(mem, root, v, 2).Absent?
      ensures Missing(mem, root, v, 2) ==
        (if EntryAt(mem, root, v, 4).Absent? then 1 else 0) + if EntryAt(mem, root, v, 3).Absent? then 1 else 0
      ensures Missing(mem, root, v, 1) == Missing(mem, root, v, 2) + if EntryAt(mem, root, v, 2).Absent? then 1 else 0
    {
      Parts(mem, root, info, v);
    }

    // ihk_smp_map_kernel.
    method MapKernel(v: nat, paddr: nat, supply: seq<nat>) returns (r: int, rest: seq<nat>)
      requires Valid() && FreshPages(mem, supply)
      modifies this
      ensures Valid() && FreshPages(mem, rest) && SameElsewhere(old(mem), mem, root, v)
      ensures r == 0 || r == -ENOMEM || r == -EBUSY
      ensures r == -EBUSY <==> EntryAt(old(mem), root, v, 2).Leaf?
      ensures r == 0 && WantsLarge(old(mem), root, v, paddr) ==>
        MappedLarge(old(mem), mem, root, v, paddr) && |rest| == |supply| - Missing(old(mem), root, v, 2)
      ensures r == 0 && !WantsLarge(old(mem), root, v, paddr) ==>
        MappedSmall(old(mem), mem, root, v, paddr) && |rest| == |supply| - Missing(old(mem), root, v, 1)
      ensures r == 0 ==> Opened(old(mem), mem, root, v)
      ensures r != 0 ==> SameWalks(old(mem), mem, root)
      ensures r == -ENOMEM ==>
        rest == [] && |supply| < Missing(old(mem), root, v, if WantsLarge(old(mem), root, v, paddr) then 2 else 1)
    {
      hide Walk; hide Index; hide EntryAt; hide TableAt; hide Tree; hide Missing; hide MappedLarge; hide MappedSmall;
      hide SameWalks; hide SameElsewhere; hide OpenedAt; hide Opened;
      ghost var m0 := mem;
      OwnParts(v);
      var t2, rest2 := DescendTwice(v, supply);
      ghost var m1 := mem;
      if t2.None? { return -ENOMEM, rest2; }
      var entry := EntryAt(mem, root, v, 2);
      if entry.Leaf? { return -EBUSY, rest2; }
      if entry.Absent? && v % LARGE == 0 && paddr % LARGE == 0 {
        WriteLarge(v, t2.value, paddr);
        StaysOpened(m0, m1, mem, root, v, 2);
        Chain(m0, m1, mem, root, v, paddr);
        return 0, rest2;
      }
      var t1, rest1 := Descend(v, 2, t2.value, rest2);
      ghost var m2 := mem;
      Chain(m0, m1, m2, root, v, paddr);
      if t1.None? { return -ENOMEM, rest1; }
      StaysOpened(m0, m1, m2, root, v, 2);
      WriteSmall(v, t1.value, paddr);
      StaysOpened(m0, m2, mem, root, v, 1);
      Chain(m0, m2, mem, root, v, paddr);
      return 0, rest1;
    }
  }

  // Mapping the page at 0x1000 a second time, to another frame, succeeds and replaces the first translation.
  method SecondMappingReplaces() returns (r1: int, r2: int, first: Option<nat>, second: Option<nat>)
    ensures r1 == 0 && first == Some(0x1000) && r2 == 0 && second == Some(0x5000)
  {
    hide Tree; hide TableAt; hide LargePage;
    var t := new BootTable(0);
    var supply := [1, 2, 3, 4, 5, 6];
    var rest;
    ghost var before := t.mem;
    t.OwnParts(0x1000);
    r1, rest := t.MapKernel(0x1000, 0x1000, supply);
    assert SamePage(0x1000, 0x1000);
    first := Walk(t.mem, t.root, 0x1000);
    NeighbourUnmapped(before, t.mem, t.root);
    t.OwnParts(0x1000);
    r2, rest := t.MapKernel(0x1000, 0x5000, rest);
    second := Walk(t.mem, t.root, 0x1000);
  }

  lemma NeighbourUnmapped(mem: Memory, mem': Memory, root: nat)
    requires MappedSmall(mem, mem', root, 0x1000, 0x1000) && forall u: nat :: Walk(mem, root, u) == None
    ensures !EntryAt(mem', root, 0x1000, 2).Leaf?
  {
    hide TableAt;
    assert !SamePage(0x2000, 0x1000);
    assert Walk(mem', root, 0x2000) == None;
    SameIndices(mem', root, 0x1000, 0x2000, 2);
    assert EntryAt(mem', root, 0x2000, 2) == EntryAt(mem', root, 0x1000, 2);
  }
}
