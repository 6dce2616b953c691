// Giving a chunk back to Linux.
module MemRelease {
  import opened MemChunks
  import opened MemLayout

  ghost predicate Ascending(s: seq<nat>) {
    forall i, j :: 0 <= i < j < |s| ==> s[i] < s[j]
  }

  // The compound pages of the chunk that start below va, in order.
  ghost predicate FreedTo(fs: Frames, c: Chunk, va: nat, freed: seq<nat>) {
    Ascending(freed) && forall h: nat :: h in freed <==> IsHead(fs, h) && c.Holds(h) && h < va
  }

  lemma FreedStep(fs: Frames, c: Chunk, va: nat, freed: seq<nat>)
    requires ValidFrames(fs) && IsHead(fs, va) && c.Holds(va) && FreedTo(fs, c, va, freed)
    ensures FreedTo(fs, c, fs[va].End(), freed + [va])
  {
    assert Whole(fs, fs[va]);
    assert forall i :: 0 <= i < |freed| ==> freed[i] in freed;
  }

  // __ihk_smp_release_chunk: each compound page that starts in the chunk is freed once, and nothing else.
  // The walk stays on heads, so the branch that skips tail pages is never taken.
  method ReleaseChunk(fs: Frames, c: Chunk) returns (freed: seq<nat>)
    requires ValidFrames(fs) && Aligned(fs) && Sound(fs, c) && c.size % PAGE == 0
    ensures Ascending(freed) && forall h: nat :: h in freed <==> IsHead(fs, h) && c.Holds(h)
  {
    hide ValidFrames; hide Aligned; hide Sound; hide FreedTo;
    freed := [];
    Start(fs, c);
    var va: nat, left: nat := c.addr, c.size;
    while left > 0
      invariant left > 0 ==> va + left == c.End() && IsHead(fs, va) && c.addr <= va
      invariant left == 0 ==> c.End() <= va
      invariant left % PAGE == 0 && FreedTo(fs, c, va, freed)
      decreases left
    {
      var f := fs[va];
      NextHead(fs, c, va);
      FreedStep(fs, c, va, freed);
      freed := freed + [va];
      if f.size == PAGE {
        left := left - PAGE;
      } else {
        assert f.head == va;
        left := if f.size <= left then left - f.size else 0;
      }
      va := va + f.size;
    }
    Finish(fs, c, va, freed);
  }

  lemma Start(fs: Frames, c: Chunk)
    requires Sound(fs, c)
    ensures FreedTo(fs, c, c.addr, []) && IsHead(fs, c.addr)
  {
  }

  lemma Finish(fs: Frames, c: Chunk, va: nat, freed: seq<nat>)
    requires FreedTo(fs, c, va, freed) && c.End() <= va
    ensures Ascending(freed) && forall h: nat :: h in freed <==> IsHead(fs, h) && c.Holds(h)
  {
  }

  lemma NextHead(fs: Frames, c: Chunk, va: nat)
    requires ValidFrames(fs) && Aligned(fs) && Sound(fs, c) && c.Holds(va) && IsHead(fs, va)
    ensures fs[va].End() < c.End() ==> IsHead(fs, fs[va].End())
    ensures PAGE <= fs[va].size && fs[va].size % PAGE == 0
  {
    var f := fs[va];
    assert Whole(fs, f);
    assert f.size % PAGE == 0;
    if f.End() < c.End() {
      assert c.Holds(f.End());
      AfterIsHead(fs, va);
    }
  }

  // The compound pages that start in chunk c have been freed, each once and in order, and no others.
  ghost predicate GaveBack(fs: Frames, fs': Frames, c: Chunk, freed: seq<nat>) {
    fs' == GivenBack(fs, c) && Ascending(freed) && forall h: nat :: h in freed <==> IsHead(fs, h) && c.Holds(h)
  }

  // The frames whose compound pages have not been freed.
  ghost function Less(fs: Frames, freed: seq<nat>): Frames {
    map p | p in fs && fs[p].head !in freed :: fs[p]
  }

  lemma GiveBackLess(fs: Frames, fs': Frames, c: Chunk, freed: seq<nat>, more: seq<nat>)
    requires ValidFrames(fs') && fs' == Less(fs, freed)
    requires forall h: nat :: h in more <==> IsHead(fs', h) && c.Holds(h)
    ensures GivenBack(fs', c) == Less(fs, freed + more)
  {
    forall p | p in fs' ensures fs'[p].head in more <==> c.Holds(fs'[p].head) {
      assert Whole(fs', fs'[p]);
      assert IsHead(fs', fs'[p].head);
    }
  }
}
