/**
 The ring refines a bounded first-in first-out queue on every calm schedule.

 A schedule is calm when no producer claims a ticket while another producer sits between
 its load of the read counter and its load of the write counter, and no consumer takes a
 ticket while another consumer is copying a packet out.  One producer and one consumer are
 always calm; so are any producers that load the two counters together.
 */
module IkcRingFifo {
  import opened IkcRing
  import opened IkcRingIndex
  import opened RingMath

  // ---------- The discipline ----------

  ghost predicate CalmClaim(s: State, step: Step) {
    step.CasWriteOff? && step.p in s.producers ==>
      forall q :: q in s.producers && q != step.p ==> !s.producers[q].LoadedRead?
  }

  ghost predicate CalmStep(s: State, step: Step) {
    && CalmClaim(s, step)
    && (step.CasReadOff? && step.c in s.consumers ==>
      forall i :: i in s.consumers && i != step.c ==> !s.consumers[i].CopyingOut?)
  }

  ghost predicate Calm(c: Config, steps: seq<Step>)
    requires c.Valid()
  {
    forall i :: 0 <= i < |steps| ==> CalmStep(Final(c, steps[..i]), steps[i])
  }

  // ---------- The invariant ----------

  ghost predicate Capacity(c: Config, s: State) { s.writeOff - s.readOff <= c.pktcount - 1 }

  ghost predicate LoadsFit(c: Config, s: State) {
    && (forall p :: p in s.producers && s.producers[p].LoadedRead? ==> s.writeOff - s.producers[p].r <= c.pktcount - 1)
    && (forall p :: p in s.producers && s.producers[p].Trying? ==> s.producers[p].w - s.producers[p].r < c.pktcount - 1)
  }

  ghost predicate Lengths(c: Config, s: State) {
    && (forall t :: 0 <= t < |s.claimed| ==> |s.claimed[t]| == c.words)
    && (forall p :: p in s.producers && !s.producers[p].Idle? ==> |s.producers[p].pkt| == c.words)
    && (forall p :: p in s.producers && s.producers[p].CopyingIn? ==> s.producers[p].k <= c.words)
  }

  ghost function Slot(c: Config, s: State, t: nat): Packet
    requires ShapeOk(c, s)
  {
    s.slots[t % c.pktcount]
  }

  ghost predicate SlotHolds(c: Config, s: State, t: nat)
    requires ShapeOk(c, s)
  {
    t < |s.claimed| && Slot(c, s, t) == s.claimed[t]
  }

  // Every published packet that nobody has taken is intact in its slot.
  ghost predicate PublishedIntact(c: Config, s: State)
    requires ShapeOk(c, s)
  {
    forall t: nat :: s.readOff <= t < s.maxReadOff ==> SlotHolds(c, s, t)
  }

  // What a producer has written so far is still there.
  ghost predicate WritingIntact(c: Config, s: State)
    requires ShapeOk(c, s)
  {
    && (forall p :: p in s.producers && s.producers[p].CopyingIn? ==>
      Written(c, s, s.producers[p].pkt, s.producers[p].w, s.producers[p].k))
    && (forall p :: p in s.producers && s.producers[p].CopiedIn? ==>
      Written(c, s, s.producers[p].pkt, s.producers[p].w, c.words))
  }

  ghost predicate Written(c: Config, s: State, pkt: Packet, w: nat, k: nat)
    requires ShapeOk(c, s)
  {
    k <= |pkt| == c.words && forall j :: 0 <= j < k ==> Slot(c, s, w)[j] == pkt[j]
  }

  // The one consumer copying out holds the last ticket taken, its slot is intact, and what it has
  // copied is a prefix of the packet claimed under that ticket.
  ghost predicate ReadingIntact(c: Config, s: State)
    requires ShapeOk(c, s)
  {
    forall i :: i in s.consumers && s.consumers[i].CopyingOut? ==>
      && s.consumers[i].r + 1 == s.readOff && SlotHolds(c, s, s.consumers[i].r)
      && s.consumers[i].dest <= s.claimed[s.consumers[i].r]
      && |s.delivered| == s.consumers[i].r
  }

  // The n-th packet delivered is the n-th packet claimed.
  ghost predicate InOrder(s: State) {
    && |s.delivered| <= s.readOff <= |s.claimed|
    && (forall i :: 0 <= i < |s.delivered| ==> s.delivered[i] == (i, s.claimed[i]))
    && (|s.delivered| < s.readOff ==> exists i :: i in s.consumers && s.consumers[i].CopyingOut?)
  }

  ghost predicate FifoSafe(c: Config, s: State)
    requires ShapeOk(c, s)
  {
    Capacity(c, s) && LoadsFit(c, s) && Lengths(c, s) && PublishedIntact(c, s) && WritingIntact(c, s)
    && ReadingIntact(c, s) && InOrder(s)
  }

  // ---------- Preservation ----------

  lemma CapacityStep(c: Config, s: State, step: Step)
    requires ShapeOk(c, s) && CountersOrdered(s) && LoadsBehind(s)
    requires Capacity(c, s) && LoadsFit(c, s) && CalmClaim(s, step)
    ensures Capacity(c, Apply(c, s, step))
    ensures LoadsFit(c, Apply(c, s, step))
  {
  }

  lemma LengthsStep(c: Config, s: State, step: Step)
    requires ShapeOk(c, s) && Lengths(c, s)
    ensures Lengths(c, Apply(c, s, step))
  {
  }

  // A word stored under ticket w lands in the slot of no other ticket within a ring's length.
  lemma StoreMisses(c: Config, s: State, p: nat, t: nat)
    requires ShapeOk(c, s) && p in s.producers && s.producers[p].CopyingIn?
    requires t != s.producers[p].w && t - c.pktcount < s.producers[p].w < t + c.pktcount
    ensures Slot(c, Apply(c, s, CopyWordIn(p)), t) == Slot(c, s, t)
  {
    var w := s.producers[p].w;
    SlotsDiffer(if t < w then t else w, if t < w then w else t, c.pktcount);
  }

  lemma SlotsOnlyChangeByCopyIn(c: Config, s: State, step: Step)
    requires ShapeOk(c, s) && (step.CopyWordIn? ==> step.p !in s.producers || !s.producers[step.p].CopyingIn?)
    ensures Apply(c, s, step).slots == s.slots
  {
  }

  lemma ClaimedGrows(c: Config, s: State, step: Step)
    requires ShapeOk(c, s) && CountersOrdered(s)
    ensures s.claimed <= Apply(c, s, step).claimed
  {
  }

  lemma SlotHoldsStep(c: Config, s: State, step: Step, t: nat)
    requires ShapeOk(c, s) && CountersOrdered(s) && HoldersInRange(s) && Capacity(c, s)
    requires s.readOff <= t + 1 && t < s.maxReadOff && SlotHolds(c, s, t)
    ensures SlotHolds(c, Apply(c, s, step), t)
  {
    ClaimedGrows(c, s, step);
    if step.CopyWordIn? && step.p in s.producers && s.producers[step.p].CopyingIn? {
      assert s.producers[step.p].Holds();
      StoreMisses(c, s, step.p, t);
    } else {
      assert Apply(c, s, step).slots == s.slots;
    }
  }

  lemma PublishedStep(c: Config, s: State, step: Step, t: nat)
    requires ShapeOk(c, s) && IndexSafe(s) && FifoSafe(c, s)
    requires Apply(c, s, step).readOff <= t < Apply(c, s, step).maxReadOff
    ensures SlotHolds(c, Apply(c, s, step), t)
  {
    CountersStep(c, s, step);
    if t < s.maxReadOff {
      SlotHoldsStep(c, s, step, t);
    } else {
      var p := step.p;
      assert s.producers[p].CopiedIn? && s.producers[p].w == t && Written(c, s, s.producers[p].pkt, t, c.words);
      assert s.producers[p].Holds() && s.claimed[t] == s.producers[p].pkt;
    }
  }

  lemma WritingStep(c: Config, s: State, step: Step, s': State, p: nat)
    requires ShapeOk(c, s) && CountersOrdered(s) && HoldersInRange(s) && HoldersDistinct(s)
    requires Capacity(c, s) && Lengths(c, s) && WritingIntact(c, s)
    requires s' == Apply(c, s, step) && p in s'.producers && s'.producers[p].Holds()
    ensures Written(c, s', s'.producers[p].pkt, s'.producers[p].w, if s'.producers[p].CopyingIn? then s'.producers[p].k
      else c.words)
  {
    hide Apply;
    if step.CopyWordIn? && step.p in s.producers && s.producers[step.p].CopyingIn? {
      StillHolds(c, s, step, s', p);
      StoringStep(c, s, step.p, p);
    } else {
      SlotsOnlyChangeByCopyIn(c, s, step);
      HolderBefore(c, s, step, s', p);
    }
  }

  lemma StillHolds(c: Config, s: State, step: Step, s': State, p: nat)
    requires ShapeOk(c, s) && step.CopyWordIn? && s' == Apply(c, s, step)
    requires p in s'.producers && s'.producers[p].Holds()
    ensures s.producers[p].Holds()
  {
  }

  lemma HolderBefore(c: Config, s: State, step: Step, s': State, p: nat)
    requires ShapeOk(c, s) && (step.CopyWordIn? ==> step.p !in s.producers || !s.producers[step.p].CopyingIn?)
    requires s' == Apply(c, s, step) && p in s'.producers && s'.producers[p].Holds()
    ensures p in s.producers
    ensures s.producers[p] == s'.producers[p]
      || (s'.producers[p].CopyingIn? && s'.producers[p].k == 0 && s.producers[p].Trying?
        && s.producers[p].pkt == s'.producers[p].pkt)
      || (s'.producers[p].CopiedIn? && s.producers[p] == CopyingIn(s'.producers[p].pkt, s'.producers[p].w, c.words))
  {
  }

  lemma StoringStep(c: Config, s: State, w: nat, p: nat)
    requires ShapeOk(c, s) && CountersOrdered(s) && HoldersInRange(s) && HoldersDistinct(s)
    requires Capacity(c, s) && Lengths(c, s) && WritingIntact(c, s)
    requires w in s.producers && s.producers[w].CopyingIn? && p in s.producers && s.producers[p].Holds()
    ensures var s' := Apply(c, s, CopyWordIn(w));
      Written(c, s', s'.producers[p].pkt, s'.producers[p].w, if s'.producers[p].CopyingIn? then s'.producers[p].k
        else c.words)
  {
    if p != w {
      assert s.producers[w].Holds();
      StoreMisses(c, s, w, s.producers[p].w);
    }
  }

  lemma TakerBefore(c: Config, s: State, step: Step, s': State, i: nat)
    requires ShapeOk(c, s)
    requires s' == Apply(c, s, step) && i in s'.consumers && s'.consumers[i].CopyingOut?
    ensures i in s.consumers
    ensures s.consumers[i] == s'.consumers[i]
      || (step == CasReadOff(i) && s'.consumers[i] == CopyingOut(s.readOff, []) && s.consumers[i] == Taking(s.readOff)
          && s'.readOff == s.readOff + 1 && s'.delivered == s.delivered)
      || (step == CopyWordOut(i) && s.consumers[i].CopyingOut? && s'.readOff == s.readOff && s'.delivered == s.delivered
          && |s.consumers[i].dest| < c.words
            && s'.consumers[i] ==
            CopyingOut(s.consumers[i].r, s.consumers[i].dest + [Slot(c, s, s.consumers[i].r)[|s.consumers[i].dest|]]))
  {
  }

  // While one consumer copies, on a calm step nobody else takes or delivers.
  lemma OthersWait(c: Config, s: State, step: Step, s': State, i: nat)
    requires ShapeOk(c, s) && TakersDistinct(s) && ReadingIntact(c, s) && CalmStep(s, step)
    requires s' == Apply(c, s, step) && i in s.consumers && i in s'.consumers
    requires s.consumers[i].CopyingOut? && s'.consumers[i] == s.consumers[i]
    ensures s'.readOff == s.readOff && s'.delivered == s.delivered
  {
  }

  lemma ReadingStep(c: Config, s: State, step: Step, s': State, i: nat)
    requires ShapeOk(c, s) && CountersOrdered(s) && HoldersInRange(s) && TakersDistinct(s) && LoadsBehind(s)
    requires Capacity(c, s) && Lengths(c, s) && PublishedIntact(c, s) && ReadingIntact(c, s) && InOrder(s)
      && CalmStep(s, step)
    requires s' == Apply(c, s, step) && i in s'.consumers && s'.consumers[i].CopyingOut?
    ensures var r := s'.consumers[i].r;
      r + 1 == s'.readOff && SlotHolds(c, s', r) && s'.consumers[i].dest <= s'.claimed[r] && |s'.delivered| == r
  {
    var r := s'.consumers[i].r;
    ClaimedGrows(c, s, step);
    TakerBefore(c, s, step, s', i);
    assert r < s.maxReadOff;
    assert SlotHolds(c, s, r);
    SlotHoldsStep(c, s, step, r);
    if s.consumers[i] == s'.consumers[i] {
      OthersWait(c, s, step, s', i);
    } else if s.consumers[i].Taking? {
      DeliveredAllBefore(s, step);
    }
  }

  lemma DeliveredAllBefore(s: State, step: Step)
    requires InOrder(s) && CalmStep(s, step) && step.CasReadOff? && step.c in s.consumers
      && !s.consumers[step.c].CopyingOut?
    ensures |s.delivered| == s.readOff
  {
  }

  lemma DeliveredChange(c: Config, s: State, step: Step, s': State)
    requires ShapeOk(c, s) && s' == Apply(c, s, step)
    ensures s'.delivered == s.delivered
      || (step.EndCopyOut? && step.c in s.consumers && s.consumers[step.c].CopyingOut?
        && |s.consumers[step.c].dest| == c.words
          && s'.delivered == s.delivered + [(s.consumers[step.c].r, s.consumers[step.c].dest)]
            && s'.readOff == s.readOff)
    ensures s'.readOff == s.readOff
      || (step.CasReadOff? && step.c in s.consumers && s.consumers[step.c] == Taking(s.readOff)
        && step.c in s'.consumers && s'.consumers[step.c].CopyingOut?
          && s'.delivered == s.delivered && s'.readOff == s.readOff + 1)
  {
  }

  lemma InOrderStep(c: Config, s: State, step: Step, s': State)
    requires ShapeOk(c, s) && CountersOrdered(s) && Lengths(c, s) && ReadingIntact(c, s) && InOrder(s)
    requires CountersOrdered(s') && CalmStep(s, step)
    requires s' == Apply(c, s, step)
    ensures InOrder(s')
  {
    hide Apply;
    ClaimedGrows(c, s, step);
    DeliveredChange(c, s, step, s');
    if step.EndCopyOut? && s'.delivered != s.delivered {
      assert s.consumers[step.c].dest == s.claimed[s.consumers[step.c].r];
    }
    if s'.delivered == s.delivered && s'.readOff == s.readOff && |s.delivered| < s.readOff {
      var i :| i in s.consumers && s.consumers[i].CopyingOut?;
      StillCopying(c, s, step, s', i);
    }
  }

  lemma StillCopying(c: Config, s: State, step: Step, s': State, i: nat)
    requires ShapeOk(c, s) && i in s.consumers && s.consumers[i].CopyingOut?
    requires s' == Apply(c, s, step) && s'.delivered == s.delivered
    ensures i in s'.consumers && s'.consumers[i].CopyingOut?
  {
  }

  lemma FifoSafeStep(c: Config, s: State, step: Step)
    requires ShapeOk(c, s) && IndexSafe(s) && FifoSafe(c, s) && CalmStep(s, step)
    ensures FifoSafe(c, Apply(c, s, step))
  {
    hide Apply;
    var s' := Apply(c, s, step);
    CapacityStep(c, s, step);
    LengthsStep(c, s, step);
    CountersStep(c, s, step);
    InOrderStep(c, s, step, s');
    forall t: nat | s'.readOff <= t < s'.maxReadOff ensures SlotHolds(c, s', t) {
      PublishedStep(c, s, step, t);
    }
    forall p | p in s'.producers && s'.producers[p].Holds()
      ensures Written(c, s', s'.producers[p].pkt, s'.producers[p].w, if s'.producers[p].CopyingIn?
        then s'.producers[p].k else c.words)
    {
      WritingStep(c, s, step, s', p);
    }
    forall i | i in s'.consumers && s'.consumers[i].CopyingOut?
      ensures var r := s'.consumers[i].r;
        r + 1 == s'.readOff && SlotHolds(c, s', r) && s'.consumers[i].dest <= s'.claimed[r] && |s'.delivered| == r
    {
      ReadingStep(c, s, step, s', i);
    }
  }

  // ---------- Main results ----------

  // Every calm schedule: the ring never holds more than pktcount - 1 packets, no slot being written,
  // published or read is overwritten, and the n-th packet delivered is the n-th claimed, unchanged.
  lemma {:induction false} CalmSchedulesAreFifoSafe(c: Config, steps: seq<Step>)
    requires c.Valid() && Calm(c, steps)
    ensures FifoSafe(c, Final(c, steps))
  {
    if steps != [] {
      var before := steps[..|steps| - 1];
      forall i | 0 <= i < |before| ensures CalmStep(Final(c, before[..i]), before[i]) {
        assert before[..i] == steps[..i];
      }
      CalmSchedulesAreFifoSafe(c, before);
      EveryScheduleIsIndexSafe(c, before);
      FifoSafeStep(c, Final(c, before), steps[|steps| - 1]);
    }
  }

  // The queue that the ring stands for: what is in the slots from the read counter up to the published counter.
  ghost function Queue(c: Config, s: State): (q: seq<Packet>)
    requires ShapeOk(c, s) && CountersOrdered(s)
    ensures |q| == s.maxReadOff - s.readOff
  {
    seq(s.maxReadOff - s.readOff, i requires 0 <= i < s.maxReadOff - s.readOff => Slot(c, s, s.readOff + i))
  }

  ghost predicate Publishes(s: State, step: Step) {
    step.CasMaxReadOff? && step.p in s.producers && s.producers[step.p].CopiedIn?
      && s.producers[step.p].w == s.maxReadOff
  }

  ghost predicate Takes(s: State, step: Step) {
    step.CasReadOff? && step.c in s.consumers && s.consumers[step.c] == Taking(s.readOff)
  }

  // The consumer answers its caller that there is no packet.
  ghost predicate FindsNone(s: State, step: Step) {
    step.SeeMaxReadOff? && step.c in s.consumers && s.consumers[step.c] == SawRead(s.maxReadOff)
  }

  // The consumer hands its caller what it has copied.
  ghost predicate HandsOver(c: Config, s: State, step: Step) {
    step.EndCopyOut? && step.c in s.consumers && s.consumers[step.c].CopyingOut?
      && |s.consumers[step.c].dest| == c.words
  }

  // A step that publishes appends the producer's packet; a step that takes a ticket removes the first packet,
  // which is the one claimed under that ticket; no other step changes the queue.
  ghost predicate QueueMove(s: State, step: Step, q: seq<Packet>, q': seq<Packet>)
    requires CountersOrdered(s)
  {
    if Publishes(s, step) then q' == q + [s.producers[step.p].pkt]
    else if Takes(s, step) then q != [] && q' == q[1..] && s.readOff < |s.claimed| && q[0] == s.claimed[s.readOff]
    else q' == q
  }

  // A consumer that answers "none" does so on an empty queue, and what it hands over is the packet claimed
  // under the ticket it has taken.
  ghost predicate FifoMove(c: Config, s: State, step: Step, s': State)
    requires ShapeOk(c, s) && ShapeOk(c, s') && CountersOrdered(s) && CountersOrdered(s')
  {
    && QueueMove(s, step, Queue(c, s), Queue(c, s'))
    && (Takes(s, step) ==> s'.consumers == s.consumers[step.c := CopyingOut(s.readOff, [])])
    && (FindsNone(s, step) ==> Queue(c, s) == [])
    && (HandsOver(c, s, step) ==> s.consumers[step.c].r < |s.claimed|)
    && s'.delivered == s.delivered + if HandsOver(c, s, step)
      then [(s.consumers[step.c].r, s.claimed[s.consumers[step.c].r])] else []
  }

  lemma QueueIsClaimed(c: Config, s: State)
    requires ShapeOk(c, s) && CountersOrdered(s) && PublishedIntact(c, s)
    ensures Queue(c, s) == s.claimed[s.readOff..s.maxReadOff]
  {
    forall i | 0 <= i < s.maxReadOff - s.readOff ensures Queue(c, s)[i] == s.claimed[s.readOff + i] {
      assert SlotHolds(c, s, s.readOff + i);
    }
  }

  // Every step of every calm schedule is a move of a first-in first-out queue that never exceeds its bound.
  lemma StepRefinesFifo(c: Config, before: seq<Step>, step: Step)
    requires c.Valid() && Calm(c, before + [step])
    ensures var s, s' := Final(c, before), Final(c, before + [step]);
      CountersOrdered(s) && CountersOrdered(s') && |Queue(c, s')| <= c.pktcount - 1 && FifoMove(c, s, step, s')
  {
    hide Apply; hide FifoMove; hide FifoSafe; hide IndexSafe;
    var all := before + [step];
    assert all[..|all| - 1] == before;
    CalmBefore(c, before, step);
    EveryScheduleIsIndexSafe(c, before);
    EveryScheduleIsIndexSafe(c, all);
    CalmSchedulesAreFifoSafe(c, before);
    CalmSchedulesAreFifoSafe(c, all);
    FifoMoves(c, Final(c, before), step, Final(c, all));
  }

  lemma FifoMoves(c: Config, s: State, step: Step, s': State)
    requires ShapeOk(c, s) && ShapeOk(c, s') && s' == Apply(c, s, step)
    requires IndexSafe(s) && FifoSafe(c, s) && IndexSafe(s') && FifoSafe(c, s')
    ensures CountersOrdered(s) && CountersOrdered(s') && |Queue(c, s')| <= c.pktcount - 1 && FifoMove(c, s, step, s')
  {
    hide Apply; hide QueueMove; hide Publishes; hide Takes; hide HandsOver; hide FindsNone; hide ShapeOk; hide Queue;
    hide IndexSafe; hide FifoSafe; hide PublishedIntact; hide ReadingIntact; hide HoldersInRange; hide ConsumersBehind;
    hide Lengths;
    FifoParts(c, s);
    FifoParts(c, s');
    QueueIsClaimed(c, s);
    QueueIsClaimed(c, s');
    CounterChange(c, s, step, s');
    ClaimedGrows(c, s, step);
    QueueMoves(s, step, s', Queue(c, s), Queue(c, s'));
    if FindsNone(s, step) { NoneIsEmpty(s, step); }
    if HandsOver(c, s, step) { HandsOverTaken(c, s, step); }
  }

  lemma FifoParts(c: Config, s: State)
    requires ShapeOk(c, s) && IndexSafe(s) && FifoSafe(c, s)
    ensures CountersOrdered(s) && ConsumersBehind(s) && HoldersInRange(s)
    ensures Capacity(c, s) && Lengths(c, s) && PublishedIntact(c, s) && ReadingIntact(c, s)
  {
    hide ShapeOk; hide ConsumersBehind; hide HoldersInRange; hide Lengths; hide PublishedIntact; hide ReadingIntact;
  }

  lemma NoneIsEmpty(s: State, step: Step)
    requires CountersOrdered(s) && ConsumersBehind(s) && FindsNone(s, step)
    ensures s.readOff == s.maxReadOff
  {
  }

  lemma CalmBefore(c: Config, before: seq<Step>, step: Step)
    requires c.Valid() && Calm(c, before + [step])
    ensures Calm(c, before)
  {
    var all := before + [step];
    forall i | 0 <= i < |before| ensures CalmStep(Final(c, before[..i]), before[i]) {
      assert before[..i] == all[..i] && before[i] == all[i];
    }
  }

  lemma CounterChange(c: Config, s: State, step: Step, s': State)
    requires ShapeOk(c, s) && s' == Apply(c, s, step)
    ensures s'.maxReadOff == s.maxReadOff + if Publishes(s, step) then 1 else 0
    ensures s'.readOff == s.readOff + if Takes(s, step) then 1 else 0
    ensures Takes(s, step) ==> s'.consumers == s.consumers[step.c := CopyingOut(s.readOff, [])]
    ensures s'.delivered == s.delivered + if HandsOver(c, s, step)
      then [(s.consumers[step.c].r, s.consumers[step.c].dest)] else []
  {
  }

  lemma QueueMoves(s: State, step: Step, s': State, q: seq<Packet>, q': seq<Packet>)
    requires CountersOrdered(s) && CountersOrdered(s') && HoldersInRange(s) && ConsumersBehind(s)
      && s.claimed <= s'.claimed
    requires s'.maxReadOff == s.maxReadOff + if Publishes(s, step) then 1 else 0
    requires s'.readOff == s.readOff + if Takes(s, step) then 1 else 0
    requires q == s.claimed[s.readOff..s.maxReadOff] && q' == s'.claimed[s'.readOff..s'.maxReadOff]
    ensures QueueMove(s, step, q, q')
  {
    if Publishes(s, step) {
      assert s.producers[step.p].Holds();
    }
  }

  lemma HandsOverTaken(c: Config, s: State, step: Step)
    requires ShapeOk(c, s) && CountersOrdered(s) && Lengths(c, s) && ReadingIntact(c, s) && HandsOver(c, s, step)
    ensures s.consumers[step.c].r < |s.claimed| && s.consumers[step.c].dest == s.claimed[s.consumers[step.c].r]
  {
  }
}
