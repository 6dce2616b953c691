// Compound pages under the chunks, and the invariant that ties both together.
module MemLayout {
  import opened MemChunks

  const PAGE := 4096

  // What Linux knows of the page frame that holds a byte: where the compound page it is part of starts
  // and how many bytes that has. A single page is a compound page of PAGE bytes.
  datatype Frame = Frame(head: nat, size: nat) {
    function End(): nat { head + size }
  }

  type Frames = map<nat, Frame>

  ghost predicate Whole(fs: Frames, f: Frame) {
    forall q: nat :: f.head <= q < f.End() ==> q in fs && fs[q] == f
  }

  ghost predicate ValidFrames(fs: Frames) {
    forall p :: p in fs ==> fs[p].head <= p < fs[p].End() && Whole(fs, fs[p])
  }

  // Compound pages are made of whole pages.
  ghost predicate Aligned(fs: Frames) {
    forall p :: p in fs ==> fs[p].head % PAGE == 0 && fs[p].size % PAGE == 0
  }

  predicate IsHead(fs: Frames, p: nat) { p in fs && fs[p].head == p }

  // PageTail of the page that holds byte x.
  predicate InTail(fs: Frames, x: nat)
    requires x in fs
  {
    fs[x].head + PAGE <= x
  }

  // Starts at a head, and is made of frames that are known.
  ghost predicate Sound(fs: Frames, c: Chunk) {
    c.size > 0 && IsHead(fs, c.addr) && forall p: nat :: c.Holds(p) ==> p in fs
  }

  ghost predicate PairDisjoint(s: set<Chunk>) {
    forall c, d :: c in s && d in s && c != d ==> Disjoint(c, d)
  }

  ghost predicate HeldIn(s: set<Chunk>, b: nat) { exists c :: c in s && c.Holds(b) }

  ghost predicate AllSound(fs: Frames, s: set<Chunk>) {
    forall c :: c in s ==> Sound(fs, c)
  }

  ghost predicate HeadsHeld(fs: Frames, s: set<Chunk>) {
    forall h: nat :: IsHead(fs, h) ==> HeldIn(s, h)
  }

  // Chunks do not overlap, none starts inside a compound page, and every compound head is in one of them.
  ghost predicate Inv(fs: Frames, s: set<Chunk>) {
    ValidFrames(fs) && PairDisjoint(s) && AllSound(fs, s) && HeadsHeld(fs, s)
  }

  // ---------- Facts about frames ----------

  lemma AfterIsHead(fs: Frames, p: nat)
    requires ValidFrames(fs) && p in fs && fs[p].End() in fs
    ensures IsHead(fs, fs[p].End())
  {
    var f: Frame, e: nat := fs[p], fs[p].End();
    var g: Frame := fs[e];
    assert Whole(fs, f) && Whole(fs, g);
    assert f.head <= e - 1 < f.End();
    assert fs[e - 1] == f;
    assert g.head > e - 1;
  }

  // The head of a byte of a sound chunk is in the chunk.
  lemma HeadInside(fs: Frames, c: Chunk, p: nat)
    requires ValidFrames(fs) && Sound(fs, c) && c.Holds(p) && p in fs
    ensures c.addr <= fs[p].head <= p && IsHead(fs, fs[p].head)
  {
    assert Whole(fs, fs[p]);
    assert fs[p].head <= c.addr ==> fs[c.addr] == fs[p];
  }

  // Every compound head is in exactly one chunk.
  lemma HeadInExactlyOne(fs: Frames, s: set<Chunk>, h: nat)
    requires PairDisjoint(s) && HeadsHeld(fs, s) && IsHead(fs, h)
    ensures exists c :: c in s && c.Holds(h) && forall d :: d in s && d.Holds(h) ==> d == c
  {
    assert HeldIn(s, h);
    var c :| c in s && c.Holds(h);
    forall d | d in s && d.Holds(h) ensures d == c {
      assert d != c ==> Disjoint(c, d);
    }
  }

  // ---------- Cutting a chunk ----------

  // Where the rest of a chunk cut at x begins: at x, or after the compound page that x is inside.
  function RestStart(fs: Frames, x: nat): (y: nat)
    requires x in fs
  {
    if fs[x].head == x then x else fs[x].End()
  }

  function Front(c: Chunk, x: nat): (r: Chunk)
    requires c.addr <= x
  {
    c.(size := x - c.addr)
  }

  function Rest(c: Chunk, y: nat): (r: Chunk)
    requires y <= c.End()
  {
    Chunk(y, c.End() - y, c.numa)
  }

  // The pieces that stay when a chunk is cut at x: the front, and the rest if any remains.
  ghost function Pieces(fs: Frames, c: Chunk, x: nat): (s: set<Chunk>)
    requires c.addr <= x && x in fs
  {
    {Front(c, x)} + if RestStart(fs, x) < c.End() then {Rest(c, RestStart(fs, x))} else {}
  }

  ghost predicate Cuts(fs: Frames, c: Chunk, x: nat) { c.addr < x < c.End() && x in fs }

  lemma RestIsHead(fs: Frames, c: Chunk, x: nat)
    requires ValidFrames(fs) && Sound(fs, c) && Cuts(fs, c, x)
    ensures x <= RestStart(fs, x) && (RestStart(fs, x) < c.End() ==> IsHead(fs, RestStart(fs, x)))
  {
    if RestStart(fs, x) < c.End() && fs[x].head != x {
      assert c.Holds(RestStart(fs, x));
      AfterIsHead(fs, x);
    }
  }

  lemma CutSound(fs: Frames, c: Chunk, x: nat)
    requires ValidFrames(fs) && Sound(fs, c) && Cuts(fs, c, x)
    ensures forall d :: d in Pieces(fs, c, x) ==> Sound(fs, d)
  {
    RestIsHead(fs, c, x);
    hide ValidFrames;
    var y := RestStart(fs, x);
    assert forall p: nat :: Front(c, x).Holds(p) ==> c.Holds(p);
    assert Sound(fs, Front(c, x));
    if y < c.End() {
      assert forall p: nat :: Rest(c, y).Holds(p) ==> c.Holds(p);
      assert Sound(fs, Rest(c, y));
    }
    hide Sound;
  }

  lemma CutHeads(fs: Frames, c: Chunk, x: nat, h: nat)
    requires ValidFrames(fs) && Sound(fs, c) && Cuts(fs, c, x) && IsHead(fs, h) && c.Holds(h)
    ensures HeldIn(Pieces(fs, c, x), h)
  {
    var y := RestStart(fs, x);
    assert Whole(fs, fs[x]);
    assert h < x || y <= h;
    if h < x {
      assert Front(c, x) in Pieces(fs, c, x) && Front(c, x).Holds(h);
    } else {
      assert Rest(c, y) in Pieces(fs, c, x) && Rest(c, y).Holds(h);
    }
  }

  lemma CutDisjoint(fs: Frames, s: set<Chunk>, c: Chunk, x: nat)
    requires PairDisjoint(s) && c in s && Cuts(fs, c, x) && x <= RestStart(fs, x)
    ensures PairDisjoint(s - {c} + Pieces(fs, c, x))
  {
    hide RestStart;
    forall d | d in s - {c} ensures Disjoint(d, c) {}
  }

  lemma CutHeld(fs: Frames, s: set<Chunk>, c: Chunk, x: nat, h: nat)
    requires ValidFrames(fs) && Sound(fs, c) && Cuts(fs, c, x) && IsHead(fs, h) && HeldIn(s, h)
    ensures HeldIn(s - {c} + Pieces(fs, c, x), h)
  {
    var s' := s - {c} + Pieces(fs, c, x);
    var d :| d in s && d.Holds(h);
    if d == c {
      CutHeads(fs, c, x, h);
      var e :| e in Pieces(fs, c, x) && e.Holds(h);
      assert e in s';
    } else {
      assert d in s';
    }
  }

  lemma CutKeepsHeads(fs: Frames, s: set<Chunk>, c: Chunk, x: nat)
    requires ValidFrames(fs) && Sound(fs, c) && Cuts(fs, c, x) && HeadsHeld(fs, s)
    ensures HeadsHeld(fs, s - {c} + Pieces(fs, c, x))
  {
    hide HeldIn; hide IsHead; hide Pieces; hide ValidFrames; hide Sound;
    forall h: nat | IsHead(fs, h) ensures HeldIn(s - {c} + Pieces(fs, c, x), h) {
      CutHeld(fs, s, c, x, h);
    }
  }

  // Cutting keeps the invariant.
  lemma CutInv(fs: Frames, s: set<Chunk>, c: Chunk, x: nat)
    requires Inv(fs, s) && c in s && Cuts(fs, c, x)
    ensures Inv(fs, s - {c} + Pieces(fs, c, x))
  {
    hide *;
    InvParts(fs, s);
    SoundOf(fs, s);
    CutBounds(fs, c, x);
    RestIsHead(fs, c, x);
    CutSound(fs, c, x);
    CutDisjoint(fs, s, c, x);
    CutKeepsHeads(fs, s, c, x);
    SwapSound(fs, s, {c}, Pieces(fs, c, x));
    InvIntro(fs, s - {c} + Pieces(fs, c, x));
  }

  lemma CutBounds(fs: Frames, c: Chunk, x: nat)
    requires Cuts(fs, c, x)
    ensures c.addr <= x && x in fs
  {
  }

  lemma InvParts(fs: Frames, s: set<Chunk>)
    requires Inv(fs, s)
    ensures ValidFrames(fs) && PairDisjoint(s) && AllSound(fs, s) && HeadsHeld(fs, s)
  {
  }

  lemma InvIntro(fs: Frames, s: set<Chunk>)
    requires ValidFrames(fs) && PairDisjoint(s) && AllSound(fs, s) && HeadsHeld(fs, s)
    ensures Inv(fs, s)
  {
  }

  lemma SoundOf(fs: Frames, s: set<Chunk>)
    requires AllSound(fs, s)
    ensures forall c :: c in s ==> Sound(fs, c) && c.size > 0
  {
  }

  lemma SwapSound(fs: Frames, s: set<Chunk>, gone: set<Chunk>, come: set<Chunk>)
    requires AllSound(fs, s) && forall c :: c in come ==> Sound(fs, c)
    ensures AllSound(fs, s - gone + come)
  {
    hide Sound;
  }

  // ---------- Joining, adding and giving back chunks ----------

  lemma JoinSound(fs: Frames, c: Chunk, d: Chunk)
    requires Sound(fs, c) && Sound(fs, d) && Joins(c, d)
    ensures Sound(fs, Join(c, d))
  {
    assert forall p: nat :: Join(c, d).Holds(p) ==> c.Holds(p) || d.Holds(p);
  }

  lemma JoinHeld(s: set<Chunk>, c: Chunk, d: Chunk, h: nat)
    requires Joins(c, d) && HeldIn(s, h)
    ensures HeldIn(s - {c, d} + {Join(c, d)}, h)
  {
    var e :| e in s && e.Holds(h);
    if e == c || e == d {
      assert Join(c, d) in s - {c, d} + {Join(c, d)} && Join(c, d).Holds(h);
    } else {
      assert e in s - {c, d} + {Join(c, d)};
    }
  }

  lemma JoinHeads(fs: Frames, s: set<Chunk>, c: Chunk, d: Chunk)
    requires HeadsHeld(fs, s) && Joins(c, d)
    ensures HeadsHeld(fs, s - {c, d} + {Join(c, d)})
  {
    hide HeldIn; hide IsHead; hide Join; hide Joins;
    forall h: nat | IsHead(fs, h) ensures HeldIn(s - {c, d} + {Join(c, d)}, h) {
      JoinHeld(s, c, d, h);
    }
  }

  lemma JoinInv(fs: Frames, s: set<Chunk>, c: Chunk, d: Chunk)
    requires Inv(fs, s) && c in s && d in s && Joins(c, d)
    ensures Inv(fs, s - {c, d} + {Join(c, d)})
  {
    hide *;
    InvParts(fs, s);
    SoundOf(fs, s);
    JoinHeads(fs, s, c, d);
    JoinSound(fs, c, d);
    JoinDisjoint(s, c, d);
    SwapSound(fs, s, {c, d}, {Join(c, d)});
    InvIntro(fs, s - {c, d} + {Join(c, d)});
  }

  lemma JoinDisjoint(s: set<Chunk>, c: Chunk, d: Chunk)
    requires PairDisjoint(s) && c in s && d in s && Joins(c, d) && forall e :: e in s ==> e.size > 0
    ensures PairDisjoint(s - {c, d} + {Join(c, d)})
  {
    forall e | e in s - {c, d} ensures Disjoint(e, Join(c, d)) {
      assert Disjoint(e, c) && Disjoint(e, d);
    }
  }

  // Without the frames whose compound page starts in c.
  function GivenBack(fs: Frames, c: Chunk): (r: Frames) {
    map p | p in fs && !c.Holds(fs[p].head) :: fs[p]
  }

  lemma GiveBackValid(fs: Frames, c: Chunk)
    requires ValidFrames(fs)
    ensures ValidFrames(GivenBack(fs, c))
  {
    var fs' := GivenBack(fs, c);
    forall p | p in fs' ensures Whole(fs', fs'[p]) {
      assert Whole(fs, fs[p]);
    }
  }

  lemma GiveBackSound(fs: Frames, c: Chunk, d: Chunk)
    requires ValidFrames(fs) && Sound(fs, d) && Disjoint(c, d)
    ensures Sound(GivenBack(fs, c), d)
  {
    forall p: nat | d.Holds(p) ensures p in GivenBack(fs, c) {
      HeadInside(fs, d, p);
    }
  }

  // Giving back a chunk, that is the compound pages that start in it, keeps the invariant for the others.
  lemma GiveBackInv(fs: Frames, s: set<Chunk>, c: Chunk)
    requires Inv(fs, s) && c in s
    ensures Inv(GivenBack(fs, c), s - {c})
  {
    hide Sound; hide Whole;
    var fs', s' := GivenBack(fs, c), s - {c};
    GiveBackValid(fs, c);
    forall d | d in s' ensures Sound(fs', d) {
      GiveBackSound(fs, c, d);
    }
    forall h: nat | IsHead(fs', h) ensures HeldIn(s', h) {
      assert HeldIn(s, h);
      var d :| d in s && d.Holds(h);
      assert d in s';
    }
  }
}
