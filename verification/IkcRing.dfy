/**
 The lock-free packet ring shared by two kernels, as a step system.

 Any number of producers and consumers interleave freely.  One step is one load of
 a shared counter, one compare-and-exchange, or the copy of one machine word; memory
 is sequentially consistent and the 64-bit counters are unbounded.  A step that is
 not enabled leaves the state alone, so every finite sequence of steps is a schedule
 and a statement about all sequences is a statement about all interleavings.
 */
module IkcRing {

  type Word = int
  type Packet = seq<Word>

  // After this many looks at a full ring a producer gives up.
  const WRITE_QUEUE_RETRY := 128
  const EBUSY := 16

  // `memory` is whatever the slots held before the ring was initialised.
  datatype Config = Config(pktcount: nat, words: nat, producers: set<nat>, consumers: set<nat>, memory: seq<Packet>)
  {
    predicate Valid() {
      1 <= pktcount == |memory| && forall i :: 0 <= i < pktcount ==> |memory[i]| == words
    }
  }

  // `answer` is what the last call returned, 0 before the first.
  datatype Producer =
    | Idle(answer: int)
    | Start(pkt: Packet, attempt: nat)
    | LoadedRead(pkt: Packet, attempt: nat, r: nat)
    | Trying(pkt: Packet, attempt: nat, r: nat, w: nat)
    | CopyingIn(pkt: Packet, w: nat, k: nat)
    | CopiedIn(pkt: Packet, w: nat)
  {
    // The producer has won ticket `w` and has not published it yet.
    predicate Holds() { CopyingIn? || CopiedIn? }
  }

  // A consumer that has lost the race for a ticket starts again.
  datatype Consumer =
    | Ready(answer: int)
    | Again
    | SawRead(r: nat)
    | Taking(r: nat)
    | CopyingOut(r: nat, dest: Packet)

  // `claimed`, `copied` and `delivered` are history: the packet behind each ticket, the
  // tickets whose copy loop ended, and the packets handed to callers, in order.
  datatype State = State(
    slots: seq<Packet>, readOff: nat, maxReadOff: nat, writeOff: nat,
    producers: map<nat, Producer>, consumers: map<nat, Consumer>,
    claimed: seq<Packet>, copied: set<nat>, delivered: seq<(nat, Packet)>)

  datatype Step =
    | Begin(p: nat, pkt: Packet)
    | LoadReadOff(p: nat)
    | LoadWriteOff(p: nat)
    | CasWriteOff(p: nat)
    | CopyWordIn(p: nat)
    | EndCopyIn(p: nat)
    | CasMaxReadOff(p: nat)
    | SeeReadOff(c: nat)
    | SeeMaxReadOff(c: nat)
    | CasReadOff(c: nat)
    | CopyWordOut(c: nat)
    | EndCopyOut(c: nat)

  function Init(c: Config): State {
    State(c.memory, 0, 0, 0,
          map p | p in c.producers :: Idle(0), map i | i in c.consumers :: Ready(0), [], {}, [])
  }

  function SetP(s: State, p: nat, x: Producer): State { s.(producers := s.producers[p := x]) }
  function SetC(s: State, c: nat, x: Consumer): State { s.(consumers := s.consumers[c := x]) }

  // The ring has pktcount slots of the packet length.
  ghost predicate ShapeOk(c: Config, s: State) {
    c.Valid() && |s.slots| == c.pktcount && forall i :: 0 <= i < c.pktcount ==> |s.slots[i]| == c.words
  }

  function Apply(c: Config, s: State, step: Step): (s': State)
    requires ShapeOk(c, s)
    ensures ShapeOk(c, s') && s'.producers.Keys == s.producers.Keys && s'.consumers.Keys == s.consumers.Keys
  {
    match step
    case Begin(p, pkt) =>
      if p in s.producers && s.producers[p].Idle? && |pkt| == c.words then SetP(s, p, Start(pkt, 0)) else s
    case LoadReadOff(p) =>
      if p in s.producers && s.producers[p].Start?
      then SetP(s, p, LoadedRead(s.producers[p].pkt, s.producers[p].attempt, s.readOff)) else s
    case LoadWriteOff(p) =>
      if p !in s.producers || !s.producers[p].LoadedRead? then s else
      var LoadedRead(pkt, attempt, r) := s.producers[p];
      if s.writeOff - r != c.pktcount - 1 then SetP(s, p, Trying(pkt, attempt, r, s.writeOff))
      else if attempt + 1 > WRITE_QUEUE_RETRY then SetP(s, p, Idle(-EBUSY))
      else SetP(s, p, Start(pkt, attempt + 1))
    case CasWriteOff(p) =>
      if p !in s.producers || !s.producers[p].Trying? then s else
      var Trying(pkt, attempt, r, w) := s.producers[p];
      if s.writeOff == w
      then SetP(s, p, CopyingIn(pkt, w, 0)).(writeOff := w + 1, claimed := s.claimed + [pkt])
      else SetP(s, p, Start(pkt, attempt))
    case CopyWordIn(p) =>
      if p !in s.producers || !s.producers[p].CopyingIn? then s else
      var CopyingIn(pkt, w, k) := s.producers[p];
      if k < c.words && k < |pkt|
      then SetP(s, p, CopyingIn(pkt, w, k + 1)).(slots := PutWord(s.slots, w % c.pktcount, k, pkt[k]))
      else s
    case EndCopyIn(p) =>
      if p !in s.producers || !s.producers[p].CopyingIn? then s else
      var CopyingIn(pkt, w, k) := s.producers[p];
      if k == c.words then SetP(s, p, CopiedIn(pkt, w)).(copied := s.copied + {w}) else s
    case CasMaxReadOff(p) =>
      if p !in s.producers || !s.producers[p].CopiedIn? then s else
      var CopiedIn(pkt, w) := s.producers[p];
      if s.maxReadOff == w then SetP(s, p, Idle(0)).(maxReadOff := w + 1) else s
    case SeeReadOff(i) =>
      if i in s.consumers && (s.consumers[i].Ready? || s.consumers[i].Again?) then SetC(s, i, SawRead(s.readOff)) else s
    case SeeMaxReadOff(i) =>
      if i !in s.consumers || !s.consumers[i].SawRead? then s else
      var SawRead(r) := s.consumers[i];
      if r == s.maxReadOff then SetC(s, i, Ready(-1)) else SetC(s, i, Taking(r))
    case CasReadOff(i) =>
      if i !in s.consumers || !s.consumers[i].Taking? then s else
      var Taking(r) := s.consumers[i];
      if s.readOff == r then SetC(s, i, CopyingOut(r, [])).(readOff := r + 1) else SetC(s, i, Again)
    case CopyWordOut(i) =>
      if i !in s.consumers || !s.consumers[i].CopyingOut? then s else
      var CopyingOut(r, dest) := s.consumers[i];
      if |dest| < c.words then SetC(s, i, CopyingOut(r, dest + [s.slots[r % c.pktcount][|dest|]])) else s
    case EndCopyOut(i) =>
      if i !in s.consumers || !s.consumers[i].CopyingOut? then s else
      var CopyingOut(r, dest) := s.consumers[i];
      if |dest| == c.words then SetC(s, i, Ready(0)).(delivered := s.delivered + [(r, dest)]) else s
  }

  function PutWord(slots: seq<Packet>, i: nat, k: nat, x: Word): (r: seq<Packet>)
    requires i < |slots| && k < |slots[i]|
    ensures |r| == |slots| && forall j :: 0 <= j < |r| ==> |r[j]| == |slots[j]|
  {
    slots[i := slots[i][k := x]]
  }

  // The state after a schedule.
  function Final(c: Config, steps: seq<Step>): (s: State)
    requires c.Valid()
    ensures ShapeOk(c, s) && s.producers.Keys == c.producers && s.consumers.Keys == c.consumers
  {
    if steps == [] then Init(c) else Apply(c, Final(c, steps[..|steps| - 1]), steps[|steps| - 1])
  }

  // ---------- Index safety: any number of producers and consumers ----------

  ghost predicate CountersOrdered(s: State) {
    s.readOff <= s.maxReadOff <= s.writeOff == |s.claimed|
  }

  // A producer's ticket is not published yet, and its packet is the one recorded for the ticket.
  ghost predicate HoldersInRange(s: State) {
    forall p :: p in s.producers && s.producers[p].Holds() ==>
      s.maxReadOff <= s.producers[p].w < |s.claimed| && s.claimed[s.producers[p].w] == s.producers[p].pkt
  }

  ghost predicate HoldersDistinct(s: State) {
    forall p, q :: p in s.producers && q in s.producers && p != q && s.producers[p].Holds() && s.producers[q].Holds()
      ==> s.producers[p].w != s.producers[q].w
  }

  ghost predicate UnpublishedOwned(s: State) {
    forall t: nat :: s.maxReadOff <= t < s.writeOff ==> Owned(s, t)
  }

  ghost predicate Owned(s: State, t: nat) {
    exists p :: p in s.producers && s.producers[p].Holds() && s.producers[p].w == t
  }

  // A ticket is published only after its copy loop has ended.
  ghost predicate CopiedBeforePublished(s: State) {
    && (forall t: nat :: t < s.maxReadOff ==> t in s.copied)
    && (forall p :: p in s.producers && s.producers[p].CopiedIn? ==> s.producers[p].w in s.copied)
  }

  ghost predicate Delivered(s: State, t: nat) { exists i :: 0 <= i < |s.delivered| && s.delivered[i].0 == t }

  ghost predicate Held(s: State, t: nat) {
    exists i :: i in s.consumers && s.consumers[i].CopyingOut? && s.consumers[i].r == t
  }

  ghost predicate TakersInRange(s: State) {
    forall i :: i in s.consumers && s.consumers[i].CopyingOut? ==>
      s.consumers[i].r < s.readOff && !Delivered(s, s.consumers[i].r)
  }

  ghost predicate TakersDistinct(s: State) {
    forall i, j :: i in s.consumers && j in s.consumers && i != j && s.consumers[i].CopyingOut?
      && s.consumers[j].CopyingOut?
      ==> s.consumers[i].r != s.consumers[j].r
  }

  ghost predicate DeliveredDistinct(s: State) {
    && (forall i, j :: 0 <= i < j < |s.delivered| ==> s.delivered[i].0 != s.delivered[j].0)
    && (forall i :: 0 <= i < |s.delivered| ==> s.delivered[i].0 < s.readOff)
  }

  ghost predicate TakenAccounted(s: State) {
    forall t: nat :: t < s.readOff ==> Delivered(s, t) || Held(s, t)
  }

  // What has been loaded is never ahead of the shared counters.
  ghost predicate LoadsBehind(s: State) { ConsumersBehind(s) && ProducersBehind(s) }

  ghost predicate ConsumersBehind(s: State) {
    && (forall i :: i in s.consumers && s.consumers[i].SawRead? ==> s.consumers[i].r <= s.readOff)
    && (forall i :: i in s.consumers && s.consumers[i].Taking? ==> s.consumers[i].r < s.maxReadOff)
  }

  ghost predicate ProducersBehind(s: State) {
    && (forall p :: p in s.producers && (s.producers[p].LoadedRead? || s.producers[p].Trying?) ==>
      s.producers[p].r <= s.readOff)
    && (forall p :: p in s.producers && s.producers[p].Trying? ==> s.producers[p].w <= s.writeOff)
  }

  // Each unpublished ticket has exactly one producer; each taken ticket has been handed out, or
  // is being copied out, exactly once.
  ghost predicate IndexSafe(s: State) {
    && CountersOrdered(s) && LoadsBehind(s)
    && HoldersInRange(s) && HoldersDistinct(s) && UnpublishedOwned(s) && CopiedBeforePublished(s)
    && TakersInRange(s) && TakersDistinct(s) && DeliveredDistinct(s) && TakenAccounted(s)
  }
}
