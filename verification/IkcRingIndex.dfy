/**
 Index safety of the ring for every schedule, with no assumption on the number of
 producers or consumers or on how they interleave.
 */
module IkcRingIndex {
  import opened IkcRing

  lemma CountersStep(c: Config, s: State, step: Step)
    requires ShapeOk(c, s) && CountersOrdered(s) && LoadsBehind(s) && HoldersInRange(s)
    ensures CountersOrdered(Apply(c, s, step))
  {
  }

  lemma LoadsStep(c: Config, s: State, step: Step)
    requires ShapeOk(c, s) && CountersOrdered(s) && ConsumersBehind(s)
    ensures ConsumersBehind(Apply(c, s, step))
  {
  }

  lemma ProducerLoadsStep(c: Config, s: State, step: Step)
    requires ShapeOk(c, s) && CountersOrdered(s) && LoadsBehind(s)
    ensures ProducersBehind(Apply(c, s, step))
  {
  }

  lemma HoldersStep(c: Config, s: State, step: Step)
    requires ShapeOk(c, s) && CountersOrdered(s) && HoldersInRange(s) && HoldersDistinct(s)
    ensures HoldersInRange(Apply(c, s, step))
  {
  }

  lemma HoldersDistinctStep(c: Config, s: State, step: Step)
    requires ShapeOk(c, s) && CountersOrdered(s) && HoldersInRange(s) && HoldersDistinct(s)
    ensures HoldersDistinct(Apply(c, s, step))
  {
    var s' := Apply(c, s, step);
    forall p { HolderFrom(c, s, step, p); }
    hide Apply;
  }

  // A producer holds a ticket because it already did, or because it has just claimed the next one.
  lemma HolderFrom(c: Config, s: State, step: Step, p: nat)
    requires ShapeOk(c, s) && CountersOrdered(s)
    ensures var s' := Apply(c, s, step);
      p in s'.producers && s'.producers[p].Holds() ==>
        || (p in s.producers && s.producers[p].Holds() && s.producers[p].w == s'.producers[p].w)
        || (step == CasWriteOff(p) && s'.producers[p].w == |s.claimed|)
  {
  }

  lemma OwnedStep(c: Config, s: State, step: Step, t: nat)
    requires ShapeOk(c, s) && CountersOrdered(s) && UnpublishedOwned(s)
    requires Apply(c, s, step).maxReadOff <= t < Apply(c, s, step).writeOff
    ensures Owned(Apply(c, s, step), t)
  {
    var s' := Apply(c, s, step);
    if t < s.writeOff {
      assert Owned(s, t);
      var p :| p in s.producers && s.producers[p].Holds() && s.producers[p].w == t;
      assert p in s'.producers && s'.producers[p].Holds() && s'.producers[p].w == t;
    } else {
      assert s'.producers[step.p].Holds() && s'.producers[step.p].w == t;
    }
  }

  lemma CopiedStep(c: Config, s: State, step: Step)
    requires ShapeOk(c, s) && CopiedBeforePublished(s)
    ensures CopiedBeforePublished(Apply(c, s, step))
  {
  }

  lemma TakersStep(c: Config, s: State, step: Step)
    requires ShapeOk(c, s) && TakersInRange(s) && TakersDistinct(s)
    ensures TakersDistinct(Apply(c, s, step))
  {
  }

  lemma DeliveredStep(c: Config, s: State, step: Step)
    requires ShapeOk(c, s) && TakersInRange(s) && DeliveredDistinct(s)
    ensures DeliveredDistinct(Apply(c, s, step))
  {
    assert forall i :: 0 <= i < |s.delivered| ==> Delivered(s, s.delivered[i].0);
  }

  lemma TakerStep(c: Config, s: State, step: Step, i: nat)
    requires ShapeOk(c, s) && TakersInRange(s) && TakersDistinct(s) && DeliveredDistinct(s)
    requires var s' := Apply(c, s, step); i in s'.consumers && s'.consumers[i].CopyingOut?
    ensures var s' := Apply(c, s, step); s'.consumers[i].r < s'.readOff && !Delivered(s', s'.consumers[i].r)
  {
    var s' := Apply(c, s, step);
    var r := s'.consumers[i].r;
    if Delivered(s', r) {
      var j :| 0 <= j < |s'.delivered| && s'.delivered[j].0 == r;
      if j < |s.delivered| {
        assert s.delivered[j].0 == r && Delivered(s, r);
      } 
    }
  }

  lemma TakenStep(c: Config, s: State, step: Step, t: nat)
    requires ShapeOk(c, s) && TakenAccounted(s)
    requires t < Apply(c, s, step).readOff
    ensures Delivered(Apply(c, s, step), t) || Held(Apply(c, s, step), t)
  {
    var s' := Apply(c, s, step);
    if t >= s.readOff {
      assert s'.consumers[step.c].CopyingOut? && s'.consumers[step.c].r == t;
    } else if Delivered(s, t) {
      var i :| 0 <= i < |s.delivered| && s.delivered[i].0 == t;
      assert s'.delivered[i].0 == t;
    } else {
      assert Held(s, t);
      var i :| i in s.consumers && s.consumers[i].CopyingOut? && s.consumers[i].r == t;
      if step == EndCopyOut(i) && s' != s {
        assert s'.delivered[|s.delivered|].0 == t;
      } else {
        assert i in s'.consumers && s'.consumers[i].CopyingOut? && s'.consumers[i].r == t;
      }
    }
  }

  lemma IndexSafeStep(c: Config, s: State, step: Step)
    requires ShapeOk(c, s) && IndexSafe(s)
    ensures IndexSafe(Apply(c, s, step))
  {
    CountersStep(c, s, step);
    LoadsStep(c, s, step);
    ProducerLoadsStep(c, s, step);
    HoldersStep(c, s, step);
    HoldersDistinctStep(c, s, step);
    CopiedStep(c, s, step);
    TakersStep(c, s, step);
    DeliveredStep(c, s, step);
    var s' := Apply(c, s, step);
    forall i | i in s'.consumers && s'.consumers[i].CopyingOut?
      ensures s'.consumers[i].r < s'.readOff && !Delivered(s', s'.consumers[i].r)
    {
      TakerStep(c, s, step, i);
    }
    forall t: nat | s'.maxReadOff <= t < s'.writeOff ensures Owned(s', t) {
      OwnedStep(c, s, step, t);
    }
    forall t: nat | t < s'.readOff ensures Delivered(s', t) || Held(s', t) {
      TakenStep(c, s, step, t);
    }
  }

  // Every schedule: the counters stay ordered, each unpublished ticket belongs to exactly one
  // producer, publication follows the copy, and each ticket below readOff is consumed exactly once.
  lemma {:induction false} EveryScheduleIsIndexSafe(c: Config, steps: seq<Step>)
    requires c.Valid()
    ensures IndexSafe(Final(c, steps))
  {
    if steps != [] {
      var before := steps[..|steps| - 1];
      EveryScheduleIsIndexSafe(c, before);
      IndexSafeStep(c, Final(c, before), steps[|steps| - 1]);
    }
  }
}
