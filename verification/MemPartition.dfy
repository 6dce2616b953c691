// The partition of physical memory between IHK (free chunks) and the co-kernels (used chunks).
module MemPartition {
  import opened Options
  import opened MemChunks
  import opened MemLayout
  import opened MemHeld
  import opened MemRelease
  import MemReserve
  import MemPartial
  import opened MemLedger
  import opened MemAssign

  const ENOMEM := 12
  const EBUSY := 16
  const EINVAL := 22

  datatype Owned = Owned(os: nat, chunk: Chunk)

  function Chunks(us: seq<Owned>): (cs: seq<Chunk>)
    ensures |cs| == |us| && forall i :: 0 <= i < |us| ==> cs[i] == us[i].chunk
  {
    seq(|us|, i requires 0 <= i < |us| => us[i].chunk)
  }

  ghost predicate Good(fs: Frames, free: seq<Chunk>, used: seq<Chunk>) {
    Sorted(used) && Held(fs, free, AsSet(used))
  }

  // ---------- The list of used chunks ----------

  function InsertOwned(us: seq<Owned>, u: Owned): (r: seq<Owned>) {
    var k := Place(Chunks(us), u.chunk.addr);
    us[..k] + [u] + us[k..]
  }

  lemma InsertOwnedChunks(us: seq<Owned>, u: Owned)
    ensures Chunks(InsertOwned(us, u)) == Insert(Chunks(us), u.chunk)
    ensures forall v :: v in InsertOwned(us, u) <==> v in us || v == u
  {
    hide Place;
    var k := Place(Chunks(us), u.chunk.addr);
    assert us == us[..k] + us[k..];
    assert InsertOwned(us, u)[k] == u;
  }

  function WithoutOwned(us: seq<Owned>, i: nat): (r: seq<Owned>)
    requires i < |us|
  {
    us[..i] + us[i + 1..]
  }

  lemma WithoutOwnedChunks(us: seq<Owned>, i: nat)
    requires i < |us|
    ensures Chunks(WithoutOwned(us, i)) == Without(Chunks(us), i)
  {
  }

  // Chunks that an OS has just been given join the used list in address order.
  method AddUsed(fs: Frames, free: seq<Chunk>, used0: seq<Owned>, os: nat, taken: seq<Chunk>, ghost sane: bool)
    returns (used: seq<Owned>)
    requires Distinct(taken)
    requires sane ==> Sorted(Chunks(used0)) && AsSet(taken) !! AsSet(Chunks(used0))
    requires sane ==> Held(fs, free, AsSet(taken) + AsSet(Chunks(used0)))
    ensures forall u :: u in used <==> u in used0 || (u.os == os && u.chunk in taken)
    ensures sane ==> Good(fs, free, Chunks(used))
  {
    hide Held; hide Sorted; hide AsSet; hide InsertOwned; hide Chunks; hide Distinct;
    used := used0;
    ghost var all := AsSet(taken) + AsSet(Chunks(used0));
    var k := 0;
    AddUsedStart(used0, taken);
    while k < |taken|
      invariant 0 <= k <= |taken|
      invariant forall u :: u in used <==> u in used0 || (u.os == os && u.chunk in taken[..k])
      invariant sane ==> Sorted(Chunks(used)) && AsSet(Chunks(used)) == AsSet(Chunks(used0)) + AsSet(taken[..k])
    {
      InsertOwnedChunks(used, Owned(os, taken[k]));
      if sane { AddUsedStep(fs, free, Chunks(used0), Chunks(used), taken, k); }
      assert taken[..k + 1] == taken[..k] + [taken[k]];
      used := InsertOwned(used, Owned(os, taken[k]));
      k := k + 1;
    }
    assert taken[..|taken|] == taken;
    if sane { AddUsedEnd(fs, free, Chunks(used0), Chunks(used), taken); }
  }

  lemma AddUsedStart(used: seq<Owned>, taken: seq<Chunk>)
    ensures AsSet(Chunks(used)) == AsSet(Chunks(used)) + AsSet(taken[..0])
  {
  }

  lemma AddUsedStep(fs: Frames, free: seq<Chunk>, used0: seq<Chunk>, used: seq<Chunk>, taken: seq<Chunk>, k: nat)
    requires Distinct(taken) && k < |taken| && AsSet(taken) !! AsSet(used0)
    requires Held(fs, free, AsSet(taken) + AsSet(used0))
    requires Sorted(used) && AsSet(used) == AsSet(used0) + AsSet(taken[..k])
    ensures Sorted(Insert(used, taken[k])) && AsSet(Insert(used, taken[k])) == AsSet(used0) + AsSet(taken[..k + 1])
  {
    var c, rest := taken[k], AsSet(taken) + AsSet(used0);
    TakenSoFar(used0, taken, k);
    hide *;
    HeldParts(fs, free, rest);
    SoundOf(fs, AsSet(free) + rest);
    SomeApart(AsSet(free) + rest, used, c);
    InsertSorted(used, c);
    InsertSet(used, c);
  }

  lemma TakenSoFar(used0: seq<Chunk>, taken: seq<Chunk>, k: nat)
    requires Distinct(taken) && k < |taken| && AsSet(taken) !! AsSet(used0)
    ensures AsSet(taken[..k + 1]) == AsSet(taken[..k]) + {taken[k]} && taken[k] in AsSet(taken)
    ensures taken[k] !in AsSet(used0) + AsSet(taken[..k]) && AsSet(taken[..k]) <= AsSet(taken)
  {
    assert taken[..k + 1] == taken[..k] + [taken[k]];
    assert taken[k] in AsSet(taken);
  }

  lemma SomeApart(s: set<Chunk>, cs: seq<Chunk>, c: Chunk)
    requires PairDisjoint(s) && c in s && AsSet(cs) <= s && c !in AsSet(cs)
    ensures DisjointFrom(cs, c)
  {
    forall i | 0 <= i < |cs| ensures Disjoint(cs[i], c) {
      assert cs[i] in AsSet(cs);
    }
  }

  lemma AddUsedEnd(fs: Frames, free: seq<Chunk>, used0: seq<Chunk>, used: seq<Chunk>, taken: seq<Chunk>)
    requires Held(fs, free, AsSet(taken) + AsSet(used0)) && Sorted(used) && AsSet(used) == AsSet(used0) + AsSet(taken)
    ensures Good(fs, free, used)
  {
    hide Held;
    assert AsSet(used) == AsSet(taken) + AsSet(used0);
  }

  // ---------- Moving a used chunk to the free list ----------

  lemma ReturnGood(fs: Frames, free: seq<Chunk>, used: seq<Chunk>, i: nat)
    requires Good(fs, free, used) && i < |used|
    ensures Good(fs, Insert(free, used[i]), Without(used, i))
    ensures AsSet(Insert(free, used[i])) + AsSet(Without(used, i)) == AsSet(free) + AsSet(used)
  {
    hide *;
    GoodParts(fs, free, used);
    InSet(used);
    PutHeld(fs, free, AsSet(used), used[i]);
    WithoutSorted(used, i);
    WithoutSet(used, i);
    InsertSet(free, used[i]);
    GoodIntro(fs, Insert(free, used[i]), Without(used, i));
  }

  lemma GoodParts(fs: Frames, free: seq<Chunk>, used: seq<Chunk>)
    requires Good(fs, free, used)
    ensures Sorted(used) && Held(fs, free, AsSet(used)) && Sorted(free)
  {
  }

  lemma GoodIntro(fs: Frames, free: seq<Chunk>, used: seq<Chunk>)
    requires Sorted(used) && Held(fs, free, AsSet(used))
    ensures Good(fs, free, used)
  {
  }

  // Taking a chunk off the free list and giving its pages back to Linux.
  lemma GiveBackGood(fs: Frames, free: seq<Chunk>, used: seq<Chunk>, i: nat)
    requires Good(fs, free, used) && i < |free|
    ensures ValidFrames(fs) && Aligned(fs) && Sound(fs, free[i]) && free[i].size % PAGE == 0
    ensures Good(GivenBack(fs, free[i]), Without(free, i), used)
  {
    hide *;
    var c := free[i];
    GoodParts(fs, free, used);
    TakeHeld(fs, free, AsSet(used), i);
    GiveBackHeld(fs, Without(free, i), AsSet(used) + {c}, c);
    assert AsSet(used) + {c} - {c} == AsSet(used);
    GoodIntro(GivenBack(fs, c), Without(free, i), used);
  }

  ghost predicate SameBytes(free: seq<Chunk>, free': seq<Chunk>) {
    forall n, b: nat :: CoveredOn(free', n, b) <==> CoveredOn(free, n, b)
  }

  // Nothing was cut when taking chunks failed or took none.
  lemma FailedTake(fs: Frames, free0: seq<Chunk>, free: seq<Chunk>, taken: seq<Chunk>, numa: int, rest: set<Chunk>)
    requires Held(fs, free0, rest)
    requires Moving(fs, free0, free, taken, numa, rest) || (taken == [] && free == free0)
    ensures Distinct(taken) && AsSet(taken) !! rest && Held(fs, free, AsSet(taken) + rest)
    ensures AsSet(free) + AsSet(taken) == AsSet(free0)
  {
    hide Held; hide Moved; hide AsSet; hide Moving;
    MovingStart(fs, free0, numa, rest);
    MovingParts(fs, free0, free, taken, numa, rest);
  }

  lemma FailedBytes(free0: seq<Chunk>, free: seq<Chunk>, taken: seq<Chunk>, free2: seq<Chunk>)
    requires AsSet(free) + AsSet(taken) == AsSet(free0)
    requires forall n, b: nat :: CoveredOn(free2, n, b) <==> CoveredOn(free, n, b) || CoveredOn(taken, n, b)
    ensures SameBytes(free0, free2)
  {
    forall n, b: nat ensures CoveredOn(free2, n, b) <==> CoveredOn(free0, n, b) {
      InSet(free); InSet(taken); InSet(free0);
      assert forall c :: c in free || c in taken <==> c in free0;
    }
  }

  // When a collection meets its request with something to hand over.
  lemma SuccessExactly(free0: seq<Chunk>, free: seq<Chunk>, taken: seq<Chunk>, want: nat, numa: int)
    requires Collected(free0, free, taken, want, numa) && (taken == [] <==> Total(taken, numa) == 0)
    ensures taken != [] <==> 0 < want && (want == ALL ==> 0 < Total(free0, numa))
  {
  }

  lemma CollectedKept(fs: Frames, free0: seq<Chunk>, free: seq<Chunk>, taken: seq<Chunk>, want: nat, numa: int,
      rest: set<Chunk>)
    requires Collected(free0, free, taken, want, numa)
    ensures Distinct(taken)
    ensures Kept(fs, free0, free, taken, numa, rest) ==>
      Held(fs, free, AsSet(taken) + rest) && AsSet(taken) !! rest && Carved(fs, free0, free, taken, numa)
  {
    hide Held; hide Carved; hide Total; hide AsSet;
  }

  // The chunks of the other OSes, in order.
  function Others(us: seq<Owned>, os: nat): (r: seq<Owned>) {
    if us == [] then [] else Others(us[..|us| - 1], os) + if us[|us| - 1].os == os then [] else [us[|us| - 1]]
  }

  lemma {:induction false} OthersAre(us: seq<Owned>, os: nat)
    ensures forall u :: u in Others(us, os) <==> u in us && u.os != os
  {
    if us != [] {
      OthersAre(us[..|us| - 1], os);
      assert us == us[..|us| - 1] + [us[|us| - 1]];
    }
  }

  ghost function ChunksOf(us: seq<Owned>, os: nat): set<Chunk> { set u | u in us && u.os == os :: u.chunk }

  lemma ChunksOfStep(us: seq<Owned>, os: nat, i: nat)
    requires i < |us|
    ensures ChunksOf(us[..i + 1], os) == ChunksOf(us[..i], os) + if us[i].os == os then {us[i].chunk} else {}
  {
    assert us[..i + 1] == us[..i] + [us[i]];
    if us[i].os == os { assert us[i] in us[..i + 1]; }
  }

  lemma OthersStep(us: seq<Owned>, os: nat, i: nat)
    requires i < |us|
    ensures Others(us[..i + 1], os) == Others(us[..i], os) + if us[i].os == os then [] else [us[i]]
  {
    assert us[..i + 1][..i] == us[..i];
  }

  lemma MoveOver(kept: seq<Owned>, us: seq<Owned>, i: nat)
    requires i < |us|
    ensures kept + us[i..] == kept + [us[i]] + us[i + 1..]
  {
  }

  lemma ShutdownEnds(us: seq<Owned>, os: nat)
    ensures [] + us[0..] == us && us[..|us|] == us && Others(us[..0], os) == [] && ChunksOf(us[..0], os) == {}
  {
  }

  lemma ShutdownStep(fs: Frames, free: seq<Chunk>, kept: seq<Owned>, us: seq<Owned>, i: nat)
    requires i < |us| && Good(fs, free, Chunks(kept + us[i..]))
    ensures Good(fs, Insert(free, us[i].chunk), Chunks(kept + us[i + 1..]))
    ensures AsSet(Insert(free, us[i].chunk)) == AsSet(free) + {us[i].chunk}
  {
    hide Good; hide Insert; hide Chunks; hide AsSet;
    var all := kept + us[i..];
    assert all[|kept|] == us[i] && WithoutOwned(all, |kept|) == kept + us[i + 1..];
    WithoutOwnedChunks(all, |kept|);
    ReturnGood(fs, free, Chunks(all), |kept|);
    InsertSet(free, us[i].chunk);
  }

  ghost predicate FirstMatch(us: seq<Owned>, os: nat, size: nat, numa: int, i: nat) {
    i < |us| && Matches(us[i], os, size, numa) && forall j :: 0 <= j < i ==> !Matches(us[j], os, size, numa)
  }

  ghost predicate FirstFit(cs: seq<Chunk>, size: nat, numa: int, i: nat) {
    i < |cs| && Fits(cs[i], size, numa) && forall j :: 0 <= j < i ==> !Fits(cs[j], size, numa)
  }

  ghost predicate GaveBackFirst(fs: Frames, free: seq<Chunk>, fs': Frames, free': seq<Chunk>, size: nat, numa: int,
      freed: seq<nat>) {
    exists i: nat :: FirstFit(free, size, numa, i) && free' == Without(free, i) && GaveBack(fs, fs', free[i], freed)
  }

  ghost predicate ReturnedFirst(used: seq<Owned>, free: seq<Chunk>, used': seq<Owned>, free': seq<Chunk>, os: nat,
      size: nat, numa: int) {
    exists i: nat :: FirstMatch(used, os, size, numa, i) && used' == WithoutOwned(used, i)
      && free' == Insert(free, used[i].chunk)
  }

  predicate Matches(u: Owned, os: nat, size: nat, numa: int) { u.os == os && Fits(u.chunk, size, numa) }

  lemma {:induction false} TotalWhole(cs: seq<Chunk>, n: int)
    requires forall c :: c in cs ==> c.size % PAGE == 0
    ensures Total(cs, n) % PAGE == 0
  {
    if cs != [] {
      var front, c := cs[..|cs| - 1], cs[|cs| - 1];
      assert c in cs && forall d :: d in front ==> d in cs;
      TotalWhole(front, n);
      AlignedSum(Total(front, n), c.size);
    }
  }

  // In a whole partition all chunks are whole pages, and so is what an OS was given.
  lemma GivenWhole(fs: Frames, free: seq<Chunk>, used: seq<Owned>, os: nat, taken: seq<Chunk>, n: int)
    requires forall c :: c in taken ==> Owned(os, c) in used
    ensures Good(fs, free, Chunks(used)) ==> Total(taken, n) % PAGE == 0
  {
    if Good(fs, free, Chunks(used)) {
      GoodParts(fs, free, Chunks(used));
      HeldParts(fs, free, AsSet(Chunks(used)));
      hide Good; hide Held; hide Inv; hide Sorted; hide AllSound; hide PairDisjoint; hide ValidFrames; hide Total;
      forall c | c in taken ensures c.size % PAGE == 0 {
        var i :| 0 <= i < |used| && used[i] == Owned(os, c);
        assert Chunks(used)[i] == c;
        assert c in AsSet(free) + AsSet(Chunks(used));
      }
      TotalWhole(taken, n);
    }
  }

  // A request that is no whole number of pages and can be met ends in a partition that is not whole.
  lemma NeatExactly(fs: Frames, free0: seq<Chunk>, free: seq<Chunk>, used: seq<Owned>, os: nat, taken: seq<Chunk>,
      want: nat, numa: int)
    requires Collected(free0, free, taken, want, numa) && forall c :: c in taken ==> Owned(os, c) in used
    ensures Good(fs, free, Chunks(used)) ==> Neat(want)
  {
    hide Good; hide Total;
    GivenWhole(fs, free, used, os, taken, numa);
  }

  // The chunks were chosen best first, and the list is what that leaves.
  ghost predicate TakenByBest(fs: Frames, free0: seq<Chunk>, taken: seq<Chunk>, want: nat, numa: int,
      free: seq<Chunk>) {
    exists picks :: Chosen(free0, picks, taken, want, numa) && Leaves(fs, free0, picks, taken, free)
  }

  // What can happen to the partition.
  datatype Op =
    | Reserve(added: Frames, pages: seq<Chunk>, request: nat, numa: int)
    | Assign(os: nat, want: nat, numa: int, budget: nat)
    | ReleaseOs(os: nat, size: nat, numa: int)
    | Boot(os: nat)
    | Shutdown(os: nat)
    | ReleaseDevice(size: nat, numa: int)
    | Trim(want: nat, numa: int)

  ghost predicate Sensible(op: Op) {
    match op
    case Reserve(added, pages, request, numa) => MemReserve.PagesOf(added, pages, numa) && request <= ALL
    case Assign(_, want, _, _) => Neat(want) && want <= ALL
    case Trim(want, _) => want > 0 && want % PAGE == 0
    case _ => true
  }

  lemma TrimGood(fs0: Frames, free0: seq<Chunk>, fs: Frames, free: seq<Chunk>, numa: int, rest: set<Chunk>,
      freed: seq<nat>, want: nat, gone: nat, r: int)
    requires r == 0 ==> MemPartial.Trimmed(fs0, free0, fs, free, numa, rest, freed, want, gone)
    requires r != 0 ==> MemPartial.Trimming(fs0, free0, fs, free, numa, rest, freed, gone)
    ensures Held(fs, free, rest) && MemPartial.FreedOnce(fs0, fs, freed)
  {
    hide Held; hide Total; hide Gapped; hide AsSet; hide MemPartial.FreedOnce;
  }

  class Partition {
    var frames: Frames
    var free: seq<Chunk>
    var used: seq<Owned>
    // The OSes that are not in their initial status.
    var running: set<nat>

    ghost predicate Valid()
      reads this
    {
      Good(frames, free, Chunks(used))
    }

    constructor ()
      ensures Valid() && frames == map[] && free == [] && used == [] && running == {}
    {
      frames, free, used, running := map[], [], [], {};
    }

    method Boot(os: nat)
      modifies this`running
      ensures running == old(running) + {os}
    {
      running := running + {os};
    }

    // __ihk_smp_reserve_mem, once Linux has handed out the pages of `added` in the order of `pages`.
    method Reserve(added: Frames, pages: seq<Chunk>, request: nat, numa: int)
      returns (r: int, got: nat, freed: seq<nat>)
      requires Valid() && request <= ALL && MemReserve.PagesOf(added, pages, numa) && frames.Keys !! added.Keys
      modifies this`frames, this`free
      ensures Valid() && (r == 0 || r == -ENOMEM)
      ensures r == 0 <==> MemReserve.Wanted(request) == ALL || MemReserve.Wanted(request) <= Total(pages, numa)
      ensures r == 0 ==>
        MemReserve.Reserved(old(frames), added, pages, old(free), frames, free, numa, MemReserve.Wanted(request), got,
          freed)
      ensures r != 0 ==> MemReserve.Unreserved(old(frames), added, old(free), frames, free, freed) && got == 0
    {
      hide Good; hide Held; hide Sorted; hide AsSet; hide Chunks; hide Total; hide MemReserve.Wanted;
      hide MemReserve.Reserved; hide MemReserve.Unreserved; hide MemReserve.PagesOf;
      GoodParts(frames, free, Chunks(used));
      var fs, free';
      r, fs, free', got, freed := MemReserve.Reserve(frames, free, added, pages, request, numa, AsSet(Chunks(used)));
      frames, free := fs, free';
      GoodIntro(frames, free, Chunks(used));
    }

    // smp_ihk_os_assign_mem and __smp_ihk_os_assign_mem.
    method Assign(os: nat, want: nat, numa: int, budget: nat) returns (r: int, ghost taken: seq<Chunk>)
      requires Valid() && want <= ALL
      modifies this`free, this`used
      ensures r == 0 || r == -ENOMEM || r == -EBUSY
      ensures r == -EBUSY <==> os in running
      ensures r == -EBUSY ==> Valid() && used == old(used) && free == old(free)
      ensures r == 0 ==> (Valid() <==> Neat(want))
      ensures r == 0 ==> Collected(old(free), free, taken, want, numa) && taken != []
      ensures r == 0 ==> forall u :: u in used <==> u in old(used) || (u.os == os && u.chunk in taken)
      ensures r == 0 && Neat(want) ==> Carved(frames, old(free), free, taken, numa)
      ensures r == 0 ==> TakenByBest(frames, old(free), taken, want, numa, free)
      ensures r == -ENOMEM ==> Valid() && used == old(used) && SameBytes(old(free), free)
      ensures r == -ENOMEM ==> free == old(free) || FullyMerged(free)
      ensures budget > |old(free)| && os !in running ==>
        (r == 0 <==> 0 < want && if want == ALL then 0 < Total(old(free), numa) else want <= Total(old(free), numa))
    {
      hide Good; hide Held; hide Sorted; hide AsSet; hide Chunks; hide Total; hide Moving; hide Collected; hide Carved;
      hide SameBytes; hide FullyMerged; hide CoveredOn; hide Distinct; hide Neat; hide Kept; hide Chosen; hide Leaves;
      taken := [];
      if os in running { return -EBUSY, taken; }
      ghost var rest := AsSet(Chunks(used));
      GoodParts(frames, free, Chunks(used));
      var ok, free1, taken1, picks := Take(frames, free, want, numa, budget, rest);
      taken := taken1;
      if ok { SuccessExactly(free, free1, taken1, want, numa); }
      if !ok || taken1 == [] {
        FailedTake(frames, free, free1, taken1, numa, rest);
        var free2 := PutBack(frames, free1, taken1, rest);
        FailedBytes(free, free1, taken1, free2);
        free := free2;
        GoodIntro(frames, free, Chunks(used));
        return -ENOMEM, taken;
      }
      CollectedKept(frames, free, free1, taken1, want, numa, rest);
      var used1 := AddUsed(frames, free1, used, os, taken1, Neat(want));
      NeatExactly(frames, free, free1, used1, os, taken1, want, numa);
      free, used := free1, used1;
      r := 0;
    }

    // _smp_ihk_os_release_mem: the first chunk of the OS with that size and node goes back to the free list.
    method ReleaseOs(os: nat, size: nat, numa: int) returns (r: int)
      requires Valid()
      modifies this`free, this`used
      ensures Valid() && (r == 0 || r == -EINVAL || r == -EBUSY)
      ensures r == -EBUSY <==> os in running
      ensures r != 0 <==> os in running || forall u :: u in old(used) ==> !Matches(u, os, size, numa)
      ensures r == 0 ==> ReturnedFirst(old(used), old(free), used, free, os, size, numa)
      ensures r != 0 ==> used == old(used) && free == old(free)
    {
      hide Good;
      if os in running { return -EBUSY; }
      for i := 0 to |used|
        invariant used == old(used) && free == old(free) && Valid()
        invariant forall j :: 0 <= j < i ==> !Matches(used[j], os, size, numa)
      {
        if !Matches(used[i], os, size, numa) { continue; }
        ReturnGood(frames, free, Chunks(used), i);
        WithoutOwnedChunks(used, i);
        assert FirstMatch(used, os, size, numa, i);
        free, used := Insert(free, used[i].chunk), WithoutOwned(used, i);
        return 0;
      }
      r := -EINVAL;
    }

    // Shutting down an OS that is running returns every chunk it has. One that is not keeps what it was assigned.
    method Shutdown(os: nat)
      requires Valid()
      modifies this`free, this`used, this`running
      ensures Valid() && running == old(running) - {os}
      ensures os in old(running) ==> used == Others(old(used), os)
      ensures os in old(running) ==> AsSet(free) == AsSet(old(free)) + ChunksOf(old(used), os)
      ensures os !in old(running) ==> used == old(used) && free == old(free)
    {
      hide Good; hide Chunks; hide Insert; hide AsSet; hide ChunksOf; hide Others;
      if os !in running { return; }
      var all, kept := used, [];
      ShutdownEnds(all, os);
      for i := 0 to |all|
        invariant kept == Others(all[..i], os) && Good(frames, free, Chunks(kept + all[i..]))
        invariant used == all == old(used) && running == old(running)
        invariant AsSet(free) == AsSet(old(free)) + ChunksOf(all[..i], os)
      {
        OthersStep(all, os, i);
        ChunksOfStep(all, os, i);
        if all[i].os != os {
          MoveOver(kept, all, i);
          kept := kept + [all[i]];
          continue;
        }
        ShutdownStep(frames, free, kept, all, i);
        free := Insert(free, all[i].chunk);
      }
      assert kept + all[|all|..] == kept;
      used := kept;
      running := running - {os};
    }

    // __ihk_smp_release_mem: the first free chunk with that size and node is given back to Linux.
    method ReleaseDevice(size: nat, numa: int) returns (r: int, freed: seq<nat>)
      requires Valid()
      modifies this`frames, this`free
      ensures Valid() && (r == 0 || r == -EINVAL)
      ensures r != 0 <==> forall c :: c in old(free) ==> !Fits(c, size, numa)
      ensures r == 0 ==> GaveBackFirst(old(frames), old(free), frames, free, size, numa, freed)
      ensures r != 0 ==> frames == old(frames) && free == old(free) && freed == []
    {
      hide Good; hide Chunks;
      freed := [];
      for i := 0 to |free|
        invariant frames == old(frames) && free == old(free) && Valid() && freed == []
        invariant forall j :: 0 <= j < i ==> !Fits(free[j], size, numa)
      {
        if !Fits(free[i], size, numa) { continue; }
        GiveBackGood(frames, free, Chunks(used), i);
        freed := ReleaseChunk(frames, free[i]);
        assert FirstFit(free, size, numa, i);
        frames, free := GivenBack(frames, free[i]), Without(free, i);
        return 0, freed;
      }
      r := -EINVAL;
    }

    // __ihk_smp_release_mem_partially, on a free list in which no two chunks touch.
    method Trim(want: nat, numa: int) returns (r: int, freed: seq<nat>, gone: nat)
      requires Valid() && Gapped(free) && want > 0 && want % PAGE == 0
      modifies this`frames, this`free
      ensures Valid() && (r == 0 || r == -1)
      ensures r == 0 <==> want <= Total(old(free), numa)
      ensures r == 0 ==>
        MemPartial.Trimmed(old(frames), old(free), frames, free, numa, AsSet(Chunks(used)), freed, want, gone)
      ensures r == 0 ==> MemPartial.SmallestFirst(old(frames), old(free), free, want, numa)
      ensures r != 0 ==> forall i :: 0 <= i < |free| ==> free[i].numa != numa
      ensures MemPartial.FreedOnce(old(frames), frames, freed)
    {
      hide Good; hide Held; hide Sorted; hide AsSet; hide Chunks; hide Gapped; hide Total; hide MemPartial.Trimmed;
      hide MemPartial.Trimming; hide MemPartial.FreedOnce; hide MemPartial.SmallestFirst;
      GoodParts(frames, free, Chunks(used));
      ghost var rest := AsSet(Chunks(used));
      var fs, free';
      r, fs, free', freed, gone := MemPartial.ReleasePartially(frames, free, want, numa, rest);
      TrimGood(frames, free, fs, free', numa, rest, freed, want, gone, r);
      frames, free := fs, free';
      GoodIntro(frames, free, Chunks(used));
    }
  }

  // One request, and what it means for Linux. Linux never hands out pages that are still reserved, and a node is
  // trimmed only while no two free chunks touch.
  method Do(p: Partition, op: Op) returns (e: Event)
    requires p.Valid() && Sensible(op)
    modifies p
    ensures p.Valid() && Legal(old(p.frames), e) && p.frames == After(old(p.frames), e)
    ensures e.added == map[] || (op.Reserve? && e.added == op.added)
  {
    hide Good; hide Legal; hide After; hide MemReserve.PagesOf; hide Gapped; hide MemReserve.Reserved;
    hide MemReserve.Unreserved; hide MemPartial.Trimmed; hide MemPartial.FreedOnce; hide GaveBackFirst; hide Collected;
    hide Carved; hide SameBytes; hide FullyMerged; hide Total; hide MemReserve.Wanted; hide Neat; hide Chunks;
    hide AsSet; hide ChunksOf; hide Others; hide ReturnedFirst;
    e := QUIET;
    QuietLegal(p.frames);
    match op {
      case Reserve(added, pages, request, numa) =>
        if p.frames.Keys !! added.Keys {
          ghost var frames0, free0 := p.frames, p.free;
          GoodFrames(frames0, free0, p.used);
          var r, got, freed := p.Reserve(added, pages, request, numa);
          e := Event(added, freed);
          if r == 0 {
            ReservedLegal(frames0, added, pages, free0, p.frames, p.free, numa, MemReserve.Wanted(request), got, freed);
          } else {
            UnreservedLegal(frames0, added, pages, free0, p.frames, p.free, numa, freed);
          }
        }
      case Assign(os, want, numa, budget) => var r, taken := p.Assign(os, want, numa, budget);
      case ReleaseOs(os, size, numa) => var r := p.ReleaseOs(os, size, numa);
      case Boot(os) => p.Boot(os);
      case Shutdown(os) => p.Shutdown(os);
      case ReleaseDevice(size, numa) =>
        ghost var frames0, free0 := p.frames, p.free;
        GoodFrames(frames0, free0, p.used);
        var r, freed := p.ReleaseDevice(size, numa);
        e := Event(map[], freed);
        if r == 0 { GaveBackLegal(frames0, free0, p.frames, p.free, size, numa, freed); }
      case Trim(want, numa) =>
        if Gapped(p.free) {
          ghost var frames0 := p.frames;
          var r, freed, gone := p.Trim(want, numa);
          e := Event(map[], freed);
          FreedLegal(frames0, p.frames, freed);
        }
    }
  }

  lemma GoodFrames(fs: Frames, free: seq<Chunk>, used: seq<Owned>)
    requires Good(fs, free, Chunks(used))
    ensures ValidFrames(fs)
  {
    hide *;
    GoodParts(fs, free, Chunks(used));
    HeldParts(fs, free, AsSet(Chunks(used)));
  }

  lemma ReservedLegal(fs: Frames, added: Frames, pages: seq<Chunk>, free0: seq<Chunk>, fs': Frames, free: seq<Chunk>,
      numa: int, want: nat, got: nat, freed: seq<nat>)
    requires fs.Keys !! added.Keys && MemReserve.PagesOf(added, pages, numa)
    requires MemReserve.Reserved(fs, added, pages, free0, fs', free, numa, want, got, freed)
    ensures Legal(fs, Event(added, freed)) && fs' == After(fs, Event(added, freed))
  {
    hide MemReserve.PagesOf; hide MemReserve.AlmostExact; hide Total; hide AsSet;
    MemReserve.PagesParts(added, pages, numa);
  }

  lemma UnreservedLegal(fs: Frames, added: Frames, pages: seq<Chunk>, free0: seq<Chunk>, fs': Frames,
      free: seq<Chunk>, numa: int, freed: seq<nat>)
    requires ValidFrames(fs) && fs.Keys !! added.Keys && MemReserve.PagesOf(added, pages, numa)
    requires MemReserve.Unreserved(fs, added, free0, fs', free, freed)
    ensures Legal(fs, Event(added, freed)) && fs' == After(fs, Event(added, freed))
  {
    hide MemReserve.PagesOf; hide ValidFrames; hide Less;
    MemReserve.PagesParts(added, pages, numa);
    MemReserve.OnlyOld(fs, added, freed);
  }

  lemma FreedLegal(fs: Frames, fs': Frames, freed: seq<nat>)
    requires MemPartial.FreedOnce(fs, fs', freed)
    ensures Legal(fs, Event(map[], freed)) && fs' == After(fs, Event(map[], freed))
  {
    assert fs + map[] == fs;
  }

  lemma GaveBackLegal(fs: Frames, free: seq<Chunk>, fs': Frames, free': seq<Chunk>, size: nat, numa: int,
      freed: seq<nat>)
    requires ValidFrames(fs) && GaveBackFirst(fs, free, fs', free', size, numa, freed)
    ensures Legal(fs, Event(map[], freed)) && fs' == After(fs, Event(map[], freed))
  {
    hide ValidFrames; hide Legal; hide After;
    var i: nat :| FirstFit(free, size, numa, i) && free' == Without(free, i) && GaveBack(fs, fs', free[i], freed);
    assert Less(fs, []) == fs && [] + freed == freed;
    GiveBackLess(fs, fs, free[i], [], freed);
    FreedLegal(fs, fs', freed);
  }

  // Every run keeps the partition whole, and its frames are at all times those handed out and not given back.
  // `Balance` says what that means for each compound page.
  method Run(p: Partition, ops: seq<Op>) returns (es: seq<Event>)
    requires p.Valid() && forall i :: 0 <= i < |ops| ==> Sensible(ops[i])
    modifies p
    ensures p.Valid() && |es| == |ops|
    ensures AllLegal(old(p.frames), es) && p.frames == Ledger(old(p.frames), es)
    ensures forall i :: 0 <= i < |es| ==> es[i].added == map[] || (ops[i].Reserve? && es[i].added == ops[i].added)
  {
    hide Good; hide Legal; hide After; hide AllLegal; hide Ledger; hide Sensible;
    es := [];
    NothingYet(p.frames);
    for i := 0 to |ops|
      invariant p.Valid() && |es| == i && AllLegal(old(p.frames), es) && p.frames == Ledger(old(p.frames), es)
      invariant forall j :: 0 <= j < i ==> es[j].added == map[] || (ops[j].Reserve? && es[j].added == ops[j].added)
    {
      ghost var fs := p.frames;
      var e := Do(p, ops[i]);
      LedgerNext(old(p.frames), es, e);
      es := es + [e];
    }
  }

  lemma NothingYet(fs: Frames)
    ensures AllLegal(fs, []) && Ledger(fs, []) == fs
  {
  }

  // What a whole partition means for a caller: chunks of both lists do not overlap, none starts inside a
  // compound page, and every compound page starts in exactly one chunk.
  lemma Whole(fs: Frames, free: seq<Chunk>, used: seq<Chunk>)
    requires Good(fs, free, used)
    ensures Sorted(free) && Sorted(used) && forall c, d :: c in free && d in used ==> Disjoint(c, d)
    ensures forall c :: c in free || c in used ==> IsHead(fs, c.addr)
    ensures forall h: nat :: IsHead(fs, h) ==> exists c :: (c in free || c in used) && c.Holds(h) &&
                                                          forall d :: (d in free || d in used) && d.Holds(h) ==> d == c
  {
    hide *;
    GoodParts(fs, free, used);
    HeldParts(fs, free, AsSet(used));
    InSet(free);
    InSet(used);
    var s := AsSet(free) + AsSet(used);
    assert forall c :: c in free || c in used <==> c in s;
    SoundHeads(fs, s);
    ListsApart(free, used);
    forall h: nat | IsHead(fs, h)
      ensures exists c ::
        (c in free || c in used) && c.Holds(h) && forall d :: (d in free || d in used) && d.Holds(h) ==> d == c
    {
      HeadInExactlyOne(fs, s, h);
    }
  }

  lemma SoundHeads(fs: Frames, s: set<Chunk>)
    requires AllSound(fs, s)
    ensures forall c :: c in s ==> IsHead(fs, c.addr)
  {
    forall c | c in s ensures IsHead(fs, c.addr) { assert Sound(fs, c); }
  }

  lemma ListsApart(free: seq<Chunk>, used: seq<Chunk>)
    requires AsSet(free) !! AsSet(used) && PairDisjoint(AsSet(free) + AsSet(used))
    ensures forall c, d :: c in free && d in used ==> Disjoint(c, d)
  {
    forall c, d | c in free && d in used ensures Disjoint(c, d) {
      assert c in AsSet(free) && d in AsSet(used);
    }
  }
}
