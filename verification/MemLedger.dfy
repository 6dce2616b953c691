// What Linux has handed out and got back over a run of requests.
module MemLedger {
  import opened MemChunks
  import opened MemLayout
  import opened MemRelease

  // One request: the pages handed out for it, and the compound pages given back during it.
  datatype Event = Event(added: Frames, freed: seq<nat>)

  const QUIET := Event(map[], [])

  ghost function After(fs: Frames, e: Event): Frames { Less(fs + e.added, e.freed) }

  // What is handed out was not held, and what is given back was, each compound page once.
  ghost predicate Legal(fs: Frames, e: Event) {
    && fs.Keys !! e.added.Keys && ValidFrames(e.added)
    && (forall i, j :: 0 <= i < j < |e.freed| ==> e.freed[i] != e.freed[j])
    && (forall h: nat :: h in e.freed ==> IsHead(fs + e.added, h))
  }

  // The frames handed out and not given back.
  ghost function Ledger(fs: Frames, es: seq<Event>): (r: Frames) {
    if es == [] then fs else After(Ledger(fs, es[..|es| - 1]), es[|es| - 1])
  }

  ghost predicate AllLegal(fs: Frames, es: seq<Event>) {
    forall i :: 0 <= i < |es| ==> Legal(Ledger(fs, es[..i]), es[i])
  }

  lemma QuietLegal(fs: Frames)
    ensures Legal(fs, QUIET) && After(fs, QUIET) == fs
  {
    assert fs + map[] == fs;
  }

  lemma LedgerNext(fs: Frames, es: seq<Event>, e: Event)
    requires AllLegal(fs, es) && Legal(Ledger(fs, es), e)
    ensures AllLegal(fs, es + [e]) && Ledger(fs, es + [e]) == After(Ledger(fs, es), e)
  {
    hide Legal; hide After;
    var all := es + [e];
    assert all[..|es|] == es;
    forall i | 0 <= i < |all| ensures Legal(Ledger(fs, all[..i]), all[i]) {
      if i < |es| { assert all[..i] == es[..i]; }
    }
  }

  // How often a compound page was handed out and given back.
  function HandedOut(es: seq<Event>, h: nat): (n: nat) {
    if es == [] then 0 else HandedOut(es[..|es| - 1], h) + if IsHead(es[|es| - 1].added, h) then 1 else 0
  }

  function Returned(es: seq<Event>, h: nat): (n: nat) {
    if es == [] then 0 else Returned(es[..|es| - 1], h) + if h in es[|es| - 1].freed then 1 else 0
  }

  ghost function Holding(fs: Frames, h: nat): (n: nat) { if IsHead(fs, h) then 1 else 0 }

  lemma EventBalance(fs: Frames, e: Event, h: nat)
    requires Legal(fs, e)
    ensures Holding(fs, h) + Holding(e.added, h) == Holding(After(fs, e), h) + if h in e.freed then 1 else 0
  {
    assert IsHead(fs + e.added, h) <==> IsHead(fs, h) || IsHead(e.added, h);
  }

  // Every compound page is given back as often as it was held at first or handed out, but for once if it is
  // still held.
  lemma {:induction false} Balance(fs: Frames, es: seq<Event>, h: nat)
    requires AllLegal(fs, es)
    ensures Holding(fs, h) + HandedOut(es, h) == Returned(es, h) + Holding(Ledger(fs, es), h)
  {
    if es != [] {
      var n := |es| - 1;
      assert AllLegal(fs, es[..n]) by {
        forall i | 0 <= i < n ensures Legal(Ledger(fs, es[..n][..i]), es[..n][i]) {
          assert es[..n][..i] == es[..i];
        }
      }
      hide Legal; hide After; hide Holding;
      Balance(fs, es[..n], h);
      EventBalance(Ledger(fs, es[..n]), es[n], h);
    }
  }
}
