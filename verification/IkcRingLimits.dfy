/**
 How many producers and consumers the ring really tolerates.

 The full test compares with equality and loads the read counter before the write counter,
 so two producers can overfill the ring; a reader advances the read counter before it copies,
 so two consumers can see a slot reused under them.  Both limits are exact.
 */
module IkcRingLimits {
  import opened IkcRing
  import opened IkcRingIndex
  import opened IkcRingFifo

  // ---------- Building schedules ----------

  lemma Extend(c: Config, steps: seq<Step>, step: Step)
    requires c.Valid()
    ensures Final(c, steps + [step]) == Apply(c, Final(c, steps), step)
  {
    assert (steps + [step])[..|steps|] == steps;
  }

  // All the packets claimed so far are published, p is idle, and nobody else is touched below.
  ghost predicate Settled(s: State, p: nat, r: nat, w: nat) {
    p in s.producers && s.producers[p].Idle? && s.readOff == r && s.maxReadOff == s.writeOff == w == |s.claimed|
  }

  ghost predicate SameBut(s: State, s': State, p: nat) {
    s'.consumers == s.consumers && s'.delivered == s.delivered
    && s'.producers.Keys == s.producers.Keys
      && forall q :: q in s.producers && q != p ==> s'.producers[q] == s.producers[q]
  }

  lemma Claim(c: Config, steps: seq<Step>, p: nat, pkt: Packet, r: nat, w: nat) returns (more: seq<Step>)
    requires c.Valid() && |pkt| == c.words && Settled(Final(c, steps), p, r, w) && r <= w && w - r < c.pktcount - 1
    ensures var s, s' := Final(c, steps), Final(c, more);
      s' == s.(producers := s.producers[p := CopyingIn(pkt, w, 0)], writeOff := w + 1, claimed := s.claimed + [pkt])
  {
    var s := Final(c, steps);
    more := steps;
    Extend(c, more, Begin(p, pkt)); more := more + [Begin(p, pkt)];
    Extend(c, more, LoadReadOff(p)); more := more + [LoadReadOff(p)];
    Extend(c, more, LoadWriteOff(p)); more := more + [LoadWriteOff(p)];
    assert Final(c, more) == s.(producers := s.producers[p := Trying(pkt, 0, r, w)]);
    Extend(c, more, CasWriteOff(p)); more := more + [CasWriteOff(p)];
    assert s.producers[p := Trying(pkt, 0, r, w)][p := CopyingIn(pkt, w, 0)] == s.producers[p := CopyingIn(pkt, w, 0)];
  }

  ghost function Storing(c: Config, s: State, p: nat, pkt: Packet, w: nat, slot: Packet, k: nat): State
    requires ShapeOk(c, s)
  {
    s.(producers := s.producers[p := CopyingIn(pkt, w, k)], slots := s.slots[w % c.pktcount := slot])
  }

  lemma CopyOneWord(c: Config, s: State, p: nat, pkt: Packet, w: nat, slot: Packet, k: nat)
    requires ShapeOk(c, s) && |slot| == |pkt| == c.words && k < c.words && p in s.producers
    ensures Apply(c, Storing(c, s, p, pkt, w, slot, k), CopyWordIn(p)) ==
      Storing(c, s, p, pkt, w, slot[k := pkt[k]], k + 1)
  {
  }

  lemma CopyIn(c: Config, steps: seq<Step>, p: nat, pkt: Packet, w: nat) returns (more: seq<Step>)
    requires c.Valid() && |pkt| == c.words
    requires p in Final(c, steps).producers && Final(c, steps).producers[p] == CopyingIn(pkt, w, 0)
    ensures Final(c, more) == Storing(c, Final(c, steps), p, pkt, w, pkt, c.words)
  {
    hide Apply;
    var s := Final(c, steps);
    more := steps;
    var k, slot := 0, Slot(c, s, w);
    assert s.producers[p := CopyingIn(pkt, w, 0)] == s.producers;
    while k < c.words
      invariant k <= c.words == |slot|
      invariant slot[..k] == pkt[..k]
      invariant Final(c, more) == Storing(c, s, p, pkt, w, slot, k)
    {
      Extend(c, more, CopyWordIn(p)); more := more + [CopyWordIn(p)];
      CopyOneWord(c, s, p, pkt, w, slot, k);
      slot := slot[k := pkt[k]];
      k := k + 1;
    }
    assert slot == slot[..k] == pkt[..k] == pkt;
  }

  lemma PublishOne(c: Config, s: State, p: nat, pkt: Packet, w: nat)
    requires ShapeOk(c, s) && p in s.producers && s.producers[p] == CopyingIn(pkt, w, c.words) && s.maxReadOff == w
    ensures Apply(c, Apply(c, s, EndCopyIn(p)), CasMaxReadOff(p)) ==
      s.(producers := s.producers[p := Idle(0)], copied := s.copied + {w}, maxReadOff := w + 1)
  {
    assert s.producers[p := CopiedIn(pkt, w)][p := Idle(0)] == s.producers[p := Idle(0)];
  }

  // One undisturbed write: ticket w carries pkt, fully copied and published.
  lemma Write(c: Config, steps: seq<Step>, p: nat, pkt: Packet, r: nat, w: nat) returns (more: seq<Step>)
    requires c.Valid() && |pkt| == c.words && Settled(Final(c, steps), p, r, w) && r <= w && w - r < c.pktcount - 1
    ensures Settled(Final(c, more), p, r, w + 1)
    ensures SameBut(Final(c, steps), Final(c, more), p)
    ensures Final(c, more).claimed == Final(c, steps).claimed + [pkt]
    ensures Slot(c, Final(c, more), w) == pkt
  {
    hide Apply; hide Final;
    more := Claim(c, steps, p, pkt, r, w);
    more := CopyIn(c, more, p, pkt, w);
    PublishOne(c, Final(c, more), p, pkt, w);
    Extend(c, more, EndCopyIn(p)); more := more + [EndCopyIn(p)];
    Extend(c, more, CasMaxReadOff(p)); more := more + [CasMaxReadOff(p)];
  }

  // A consumer takes the oldest ticket and stops there.
  lemma Take(c: Config, steps: seq<Step>, p: nat, i: nat, r: nat, w: nat) returns (more: seq<Step>)
    requires c.Valid() && Settled(Final(c, steps), p, r, w) && r < w
    requires i in Final(c, steps).consumers && Final(c, steps).consumers[i].Ready?
    ensures Settled(Final(c, more), p, r + 1, w)
    ensures var s, s' := Final(c, steps), Final(c, more);
      s' == s.(readOff := r + 1, consumers := s.consumers[i := CopyingOut(r, [])])
  {
    more := steps;
    var s := Final(c, steps);
    Extend(c, more, SeeReadOff(i)); more := more + [SeeReadOff(i)];
    Extend(c, more, SeeMaxReadOff(i)); more := more + [SeeMaxReadOff(i)];
    Extend(c, more, CasReadOff(i)); more := more + [CasReadOff(i)];
    assert Final(c, more) == s.(readOff := r + 1, consumers := s.consumers[i := CopyingOut(r, [])]);
  }

  // A consumer that has taken ticket r copies whatever its slot holds now.
  lemma CopyOut(c: Config, steps: seq<Step>, i: nat, r: nat) returns (more: seq<Step>)
    requires c.Valid() && i in Final(c, steps).consumers && Final(c, steps).consumers[i] == CopyingOut(r, [])
    ensures var s, s' := Final(c, steps), Final(c, more);
      s' == s.(consumers := s.consumers[i := Ready(0)], delivered := s.delivered + [(r, Slot(c, s, r))])
  {
    hide Apply; hide Final;
    var s0 := Final(c, steps);
    more := steps;
    var k := 0;
    assert s0.consumers[i := CopyingOut(r, Slot(c, s0, r)[..0])] == s0.consumers;
    while k < c.words
      invariant k <= c.words
      invariant Final(c, more) == s0.(consumers := s0.consumers[i := CopyingOut(r, Slot(c, s0, r)[..k])])
    {
      Extend(c, more, CopyWordOut(i)); more := more + [CopyWordOut(i)];
      CopyOneOut(c, s0, i, r, k);
      k := k + 1;
    }
    assert Slot(c, s0, r)[..k] == Slot(c, s0, r);
    EndOut(c, s0, i, r);
    Extend(c, more, EndCopyOut(i)); more := more + [EndCopyOut(i)];
  }

  lemma CopyOneOut(c: Config, s: State, i: nat, r: nat, k: nat)
    requires ShapeOk(c, s) && i in s.consumers && k < c.words
    ensures Apply(c, s.(consumers := s.consumers[i := CopyingOut(r, Slot(c, s, r)[..k])]), CopyWordOut(i)) ==
      s.(consumers := s.consumers[i := CopyingOut(r, Slot(c, s, r)[..k + 1])])
  {
    var slot := Slot(c, s, r);
    assert slot[..k + 1] == slot[..k] + [slot[k]];
    assert s.consumers[i := CopyingOut(r, slot[..k])][i := CopyingOut(r, slot[..k + 1])] ==
      s.consumers[i := CopyingOut(r, slot[..k + 1])];
  }

  lemma EndOut(c: Config, s: State, i: nat, r: nat)
    requires ShapeOk(c, s) && i in s.consumers
    ensures Apply(c, s.(consumers := s.consumers[i := CopyingOut(r, Slot(c, s, r))]), EndCopyOut(i)) ==
      s.(consumers := s.consumers[i := Ready(0)], delivered := s.delivered + [(r, Slot(c, s, r))])
  {
    assert s.consumers[i := CopyingOut(r, Slot(c, s, r))][i := Ready(0)] == s.consumers[i := Ready(0)];
  }

  // ---------- Capacity ----------

  // Two producers and a consumer overfill any ring of at least two slots: one producer loads the read
  // counter, the other fills the ring, one packet is taken and one more written, and the first
  // producer's stale difference is then one more than the value it is compared with.
  lemma TwoProducersOverfill(c: Config, p: nat, q: nat, i: nat) returns (steps: seq<Step>)
    requires c.Valid() && c.pktcount >= 2 && p in c.producers && q in c.producers && p != q && i in c.consumers
    ensures !Capacity(c, Final(c, steps))
  {
    var pkt := seq(c.words, _ => 0);
    steps := LoadEarly(c, p, pkt);
    hide Apply;
    var n := 0;
    while n < c.pktcount - 1
      invariant n <= c.pktcount - 1 && Settled(Final(c, steps), q, 0, n)
      invariant Final(c, steps).producers[p] == LoadedRead(pkt, 0, 0) && Final(c, steps).consumers[i].Ready?
    {
      steps := Write(c, steps, q, pkt, 0, n);
      n := n + 1;
    }
    steps := Take(c, steps, q, i, 0, n);
    steps := Write(c, steps, q, pkt, 1, n);
    steps := FinishStale(c, steps, p, pkt);
  }

  lemma LoadEarly(c: Config, p: nat, pkt: Packet) returns (steps: seq<Step>)
    requires c.Valid() && |pkt| == c.words && p in c.producers
    ensures Final(c, steps) == Init(c).(producers := Init(c).producers[p := LoadedRead(pkt, 0, 0)])
  {
    Extend(c, [], Begin(p, pkt));
    Extend(c, [Begin(p, pkt)], LoadReadOff(p));
    steps := [Begin(p, pkt)] + [LoadReadOff(p)];
    assert [] + [Begin(p, pkt)] == [Begin(p, pkt)];
    assert Final(c, steps).producers == Init(c).producers[p := LoadedRead(pkt, 0, 0)];
  }

  lemma FinishStale(c: Config, steps: seq<Step>, p: nat, pkt: Packet) returns (more: seq<Step>)
    requires c.Valid() && p in c.producers && Final(c, steps).producers[p] == LoadedRead(pkt, 0, 0)
    requires Final(c, steps).readOff == 1 && Final(c, steps).writeOff == c.pktcount
    ensures !Capacity(c, Final(c, more))
  {
    Extend(c, steps, LoadWriteOff(p));
    Extend(c, steps + [LoadWriteOff(p)], CasWriteOff(p));
    more := steps + [LoadWriteOff(p)] + [CasWriteOff(p)];
  }

  lemma {:induction false} OneProducerFits(c: Config, steps: seq<Step>)
    requires c.Valid() && (forall p, q :: p in c.producers && q in c.producers ==> p == q)
    ensures Capacity(c, Final(c, steps)) && LoadsFit(c, Final(c, steps))
  {
    if steps != [] {
      hide Apply;
      var before := steps[..|steps| - 1];
      OneProducerFits(c, before);
      EveryScheduleIsIndexSafe(c, before);
      CapacityStep(c, Final(c, before), steps[|steps| - 1]);
    }
  }

  lemma NoConsumerStep(c: Config, s: State, step: Step)
    requires ShapeOk(c, s) && CountersOrdered(s) && LoadsBehind(s) && s.consumers == map[] && s.readOff == 0
    requires Capacity(c, s) && LoadsFit(c, s)
    ensures var s' := Apply(c, s, step); s'.readOff == 0 && Capacity(c, s') && LoadsFit(c, s')
  {
  }

  lemma {:induction false} NoConsumerFits(c: Config, steps: seq<Step>)
    requires c.Valid() && c.consumers == {}
    ensures Final(c, steps).readOff == 0 && Capacity(c, Final(c, steps)) && LoadsFit(c, Final(c, steps))
  {
    if steps != [] {
      hide Apply;
      var before := steps[..|steps| - 1];
      NoConsumerFits(c, before);
      EveryScheduleIsIndexSafe(c, before);
      NoConsumerStep(c, Final(c, before), steps[|steps| - 1]);
    }
  }

  ghost predicate NeverClaimed(s: State) {
    s.readOff == s.writeOff == 0
    && (forall p :: p in s.producers ==> s.producers[p].Idle? || s.producers[p].Start? || s.producers[p].LoadedRead?)
    && (forall p :: p in s.producers && s.producers[p].LoadedRead? ==> s.producers[p].r == 0)
    && (forall i :: i in s.consumers ==> !s.consumers[i].Taking?)
  }

  lemma OneSlotStep(c: Config, s: State, step: Step)
    requires ShapeOk(c, s) && c.pktcount == 1 && CountersOrdered(s) && LoadsBehind(s) && NeverClaimed(s)
    ensures NeverClaimed(Apply(c, s, step))
  {
  }

  lemma {:induction false} OneSlotStaysEmpty(c: Config, steps: seq<Step>)
    requires c.Valid() && c.pktcount == 1
    ensures NeverClaimed(Final(c, steps))
  {
    if steps != [] {
      hide Apply;
      var before := steps[..|steps| - 1];
      OneSlotStaysEmpty(c, before);
      EveryScheduleIsIndexSafe(c, before);
      OneSlotStep(c, Final(c, before), steps[|steps| - 1]);
    }
  }

  lemma AtMostOne(a: set<nat>)
    ensures |a| <= 1 <==> forall p, q :: p in a && q in a ==> p == q
  {
    if |a| <= 1 {
      forall p, q | p in a && q in a ensures p == q {
        assert {p, q} <= a;
        if p != q { SubsetSize({p, q}, a); }
      }
    } else {
      var p :| p in a;
      assert |a - {p}| == |a| - 1;
      var q :| q in a - {p};
      assert q in a && p != q;
    }
  }

  lemma SubsetSize(a: set<nat>, b: set<nat>)
    requires a <= b
    ensures |a| <= |b|
  {
    assert a + (b - a) == b;
  }

  // The ring never holds more than pktcount - 1 packets on any schedule exactly when there is at most
  // one producer, or nobody reads, or the ring has a single slot and so never accepts a packet.
  lemma CapacityExactly(c: Config)
    requires c.Valid()
    ensures (forall steps :: Capacity(c, Final(c, steps))) <==>
      |c.producers| <= 1 || c.consumers == {} || c.pktcount == 1
  {
    AtMostOne(c.producers);
    if |c.producers| <= 1 || c.consumers == {} || c.pktcount == 1 {
      forall steps ensures Capacity(c, Final(c, steps)) {
        if |c.producers| <= 1 { OneProducerFits(c, steps); }
        if c.consumers == {} { NoConsumerFits(c, steps); }
        if c.pktcount == 1 { OneSlotStaysEmpty(c, steps); }
      }
    } else {
      var p, q :| p in c.producers && q in c.producers && p != q;
      var i :| i in c.consumers;
      var steps := TwoProducersOverfill(c, p, q, i);
    }
  }

  // ---------- Contents ----------

  // What callers received is what was claimed under the same ticket.
  ghost predicate ContentsRight(s: State) {
    forall k :: 0 <= k < |s.delivered| ==>
      s.delivered[k].0 < |s.claimed| && s.delivered[k].1 == s.claimed[s.delivered[k].0]
  }

  // A second consumer lets a slot be reused while the first is still to copy it.
  lemma TwoConsumersMix(c: Config, p: nat, i: nat, j: nat) returns (steps: seq<Step>)
    requires c.Valid() && c.pktcount >= 2 && c.words >= 1 && p in c.producers && i in c.consumers && j in c.consumers
      && i != j
    ensures !ContentsRight(Final(c, steps))
  {
    var zeros, ones := seq(c.words, _ => 0), seq(c.words, _ => 1);
    steps := Write(c, [], p, zeros, 0, 0);
    steps := Take(c, steps, p, i, 0, 1);
    var t := 1;
    while t < c.pktcount
      invariant t <= c.pktcount && Settled(Final(c, steps), p, t, t)
      invariant var s := Final(c, steps);
        s.consumers[i] == CopyingOut(0, []) && s.consumers[j].Ready? && s.claimed[0] == zeros
    {
      steps := Write(c, steps, p, zeros, t, t);
      steps := Take(c, steps, p, j, t, t + 1);
      steps := CopyOut(c, steps, j, t);
      t := t + 1;
    }
    steps := Write(c, steps, p, ones, t, t);
    var s := Final(c, steps);
    assert t % c.pktcount == 0 == 0 % c.pktcount;
    assert Slot(c, s, 0) == ones && s.claimed[0] == zeros;
    steps := CopyOut(c, steps, i, 0);
    assert Final(c, steps).delivered[|s.delivered|] == (0, ones);
    assert ones[0] != zeros[0];
  }

  lemma LoneUsersAreCalm(c: Config, steps: seq<Step>)
    requires c.Valid() && |c.producers| <= 1 && |c.consumers| <= 1
    ensures Calm(c, steps)
  {
    hide Apply;
    AtMostOne(c.producers);
    AtMostOne(c.consumers);
  }

  // With at least two slots and a nonempty packet, the ring keeps its bound and delivers every packet
  // unchanged on all schedules exactly when it has one producer and one consumer.
  lemma FifoExactly(c: Config)
    requires c.Valid() && c.pktcount >= 2 && c.words >= 1 && c.producers != {} && c.consumers != {}
    ensures (forall steps :: Capacity(c, Final(c, steps)) && ContentsRight(Final(c, steps)))
      <==> |c.producers| == 1 && |c.consumers| == 1
  {
    if |c.producers| == 1 && |c.consumers| == 1 {
      forall steps ensures Capacity(c, Final(c, steps)) && ContentsRight(Final(c, steps)) {
        LoneUsersAreCalm(c, steps);
        CalmSchedulesAreFifoSafe(c, steps);
      }
    } else if |c.producers| != 1 {
      CapacityExactly(c);
    } else {
      AtMostOne(c.consumers);
      var i, j :| i in c.consumers && j in c.consumers && i != j;
      var p :| p in c.producers;
      var steps := TwoConsumersMix(c, p, i, j);
    }
  }
}
