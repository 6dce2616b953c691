/**
 What callers of the ring get: the calls as an onlooker sees them, from the steps and the shared counters alone,
 and what each of them returns, on every schedule of any producers and consumers.
 */
module IkcRingCalls {
  import opened Options
  import opened IkcRing
  import opened IkcRingIndex

  // ---------- Writing ----------

  // A call to write: the packet it was given, the read counter it last loaded, how often it found the ring
  // full since, and the tickets it has drawn.
  datatype Call = Call(pkt: Packet, seen: nat, looks: nat, tickets: seq<nat>)

  ghost function Watch(c: Config, s: State, step: Step, s': State, p: nat, k: Option<Call>): Option<Call> {
    if step.Begin? && step.p == p && p in s.producers && s.producers[p].Idle? && |step.pkt| == c.words
    then Some(Call(step.pkt, 0, 0, []))
    else if k.None? || s' == s then k
    else if step == LoadReadOff(p) then Some(k.value.(seen := s.readOff))
    else if step == LoadWriteOff(p) && s.writeOff - k.value.seen == c.pktcount - 1
    then Some(k.value.(looks := k.value.looks + 1))
    else if step == CasWriteOff(p) && s'.writeOff != s.writeOff
    then Some(k.value.(tickets := k.value.tickets + [s.writeOff]))
    else k
  }

  // The latest call of a producer, if it has made one.
  ghost function CallOf(c: Config, steps: seq<Step>, p: nat): (k: Option<Call>)
    requires c.Valid()
  {
    if steps == [] then None
    else
      var n := |steps| - 1;
      Watch(c, Final(c, steps[..n]), steps[n], Final(c, steps), p, CallOf(c, steps[..n], p))
  }

  // A call under way goes on with its own packet and has drawn a ticket exactly when it holds one.
  ghost predicate Going(s: State, x: Producer, k: Call)
    requires !x.Idle?
  {
    && x.pkt == k.pkt && k.looks <= 128
    && k.tickets == (if x.Holds() then [x.w] else [])
    && (x.Start? || x.LoadedRead? || x.Trying? ==> x.attempt == k.looks)
    && (x.LoadedRead? ==> x.r == k.seen)
    && (x.Holds() ==> x.w < |s.claimed| && s.claimed[x.w] == k.pkt)
  }

  // A call that returned success has drawn one ticket, under which its own packet was published.
  ghost predicate Written(s: State, k: Call) {
    |k.tickets| == 1 && k.tickets[0] < s.maxReadOff <= |s.claimed| && s.claimed[k.tickets[0]] == k.pkt
  }

  // One that returned busy has drawn none and has found the ring full 129 times, the first look and 128 retries.
  ghost predicate GaveUp(k: Call) { k.tickets == [] && k.looks == 129 }

  ghost predicate CallOk(s: State, x: Producer, k: Option<Call>) {
    if k.None? then x == Idle(0)
    else if !x.Idle? then Going(s, x, k.value)
    else (x.answer == 0 && Written(s, k.value)) || (x.answer == -EBUSY && GaveUp(k.value))
  }

  lemma OthersLeave(c: Config, s: State, step: Step, p: nat)
    requires ShapeOk(c, s) && p in s.producers && !OfProducer(step, p)
    ensures var s' := Apply(c, s, step);
      s'.producers[p] == s.producers[p] && s.claimed <= s'.claimed
  {
  }

  lemma OtherSteps(c: Config, s: State, step: Step, p: nat, k: Option<Call>)
    requires ShapeOk(c, s) && CountersOrdered(s) && LoadsBehind(s) && HoldersInRange(s) && p in s.producers
    requires CallOk(s, s.producers[p], k) && !OfProducer(step, p)
    ensures var s' := Apply(c, s, step); CallOk(s', s'.producers[p], Watch(c, s, step, s', p, k))
  {
    hide Apply;
    CountersStep(c, s, step);
    PublishedGrows(c, s, step);
    OthersLeave(c, s, step, p);
    hide HoldersInRange; hide LoadsBehind;
  }

  lemma PublishedGrows(c: Config, s: State, step: Step)
    requires ShapeOk(c, s)
    ensures s.maxReadOff <= Apply(c, s, step).maxReadOff
  {
  }

  predicate OfProducer(step: Step, p: nat) {
    match step
    case Begin(q, _) => p == q
    case LoadReadOff(q) => p == q
    case LoadWriteOff(q) => p == q
    case CasWriteOff(q) => p == q
    case CopyWordIn(q) => p == q
    case EndCopyIn(q) => p == q
    case CasMaxReadOff(q) => p == q
    case _ => false
  }

  lemma OwnSteps(c: Config, s: State, step: Step, p: nat, k: Option<Call>)
    requires ShapeOk(c, s) && CountersOrdered(s) && LoadsBehind(s) && HoldersInRange(s) && p in s.producers
    requires CallOk(s, s.producers[p], k) && OfProducer(step, p)
    ensures var s' := Apply(c, s, step); CallOk(s', s'.producers[p], Watch(c, s, step, s', p, k))
  {
    CountersStep(c, s, step);
    if Apply(c, s, step) != s && !step.Begin? { assert k.Some?; }
  }

  // On every schedule a call that has returned 0 has its own packet under exactly one ticket, published; one that
  // has returned busy has none and has found the ring full 129 times; one that is under way keeps its packet.
  lemma {:induction false} EveryCallOk(c: Config, steps: seq<Step>, p: nat)
    requires c.Valid() && p in c.producers
    ensures var s := Final(c, steps); CallOk(s, s.producers[p], CallOf(c, steps, p))
  {
    if steps != [] {
      hide Apply; hide CallOk; hide Watch;
      var n := |steps| - 1;
      var s, k := Final(c, steps[..n]), CallOf(c, steps[..n], p);
      EveryCallOk(c, steps[..n], p);
      EveryScheduleIsIndexSafe(c, steps[..n]);
      if OfProducer(steps[n], p) { OwnSteps(c, s, steps[n], p, k); } else { OtherSteps(c, s, steps[n], p, k); }
    } else {
      hide Apply;
    }
  }

  // ---------- Whose packets are in the ring ----------

  // Who drew each ticket, and the packet that caller had been given.
  ghost function Drawn(c: Config, steps: seq<Step>): (d: seq<(nat, Packet)>)
    requires c.Valid()
  {
    if steps == [] then []
    else
      var n := |steps| - 1;
      var d, s, s' := Drawn(c, steps[..n]), Final(c, steps[..n]), Final(c, steps);
      if s'.writeOff == s.writeOff || !steps[n].CasWriteOff? then d
      else
        var k := CallOf(c, steps[..n], steps[n].p);
        d + [(steps[n].p, if k.Some? then k.value.pkt else [])]
  }

  lemma DrawStep(c: Config, s: State, step: Step, k: Option<Call>)
    requires ShapeOk(c, s) && CountersOrdered(s)
    requires step.CasWriteOff? && step.p in s.producers ==> CallOk(s, s.producers[step.p], k)
    ensures var s' := Apply(c, s, step);
      if step.CasWriteOff? && s'.writeOff != s.writeOff then k.Some? && s'.claimed == s.claimed + [k.value.pkt]
      else s'.claimed == s.claimed && s'.writeOff == s.writeOff
  {
  }

  // On every schedule the packet under each ticket is the one its caller was given.
  lemma {:induction false} TicketsAreCalls(c: Config, steps: seq<Step>)
    requires c.Valid()
    ensures var s, d := Final(c, steps), Drawn(c, steps);
      |s.claimed| == |d| && forall t :: 0 <= t < |d| ==> s.claimed[t] == d[t].1
  {
    if steps != [] {
      hide Apply; hide CallOk; hide CallOf;
      var n := |steps| - 1;
      var s, step := Final(c, steps[..n]), steps[n];
      TicketsAreCalls(c, steps[..n]);
      EveryScheduleIsIndexSafe(c, steps[..n]);
      if step.CasWriteOff? && step.p in c.producers {
        EveryCallOk(c, steps[..n], step.p);
        DrawStep(c, s, step, CallOf(c, steps[..n], step.p));
      } else {
        DrawStep(c, s, step, None);
      }
    } else {
      hide Apply;
    }
  }

  // ---------- Reading ----------

  // A call to read: whether its last look found the queue empty, the tickets it has taken, and what it has
  // handed to its caller.
  datatype Reading = Reading(empty: bool, taken: seq<nat>, given: seq<(nat, Packet)>)

  ghost function WatchRead(s: State, step: Step, s': State, i: nat, k: Option<Reading>): Option<Reading> {
    if step == SeeReadOff(i) && i in s.consumers && s.consumers[i].Ready? then Some(Reading(false, [], []))
    else if k.None? || s' == s then k
    else if step == SeeMaxReadOff(i) then Some(k.value.(empty := s.readOff == s.maxReadOff))
    else if step == CasReadOff(i) && s'.readOff != s.readOff
    then Some(k.value.(taken := k.value.taken + [s.readOff]))
    else if step == EndCopyOut(i) && |s'.delivered| > |s.delivered|
    then Some(k.value.(given := k.value.given + s'.delivered[|s.delivered|..]))
    else k
  }

  ghost function ReadingOf(c: Config, steps: seq<Step>, i: nat): (k: Option<Reading>)
    requires c.Valid()
  {
    if steps == [] then None
    else
      var n := |steps| - 1;
      WatchRead(Final(c, steps[..n]), steps[n], Final(c, steps), i, ReadingOf(c, steps[..n], i))
  }

  // A call that returned "none" had last found the queue empty and has taken nothing; one that returned a packet
  // has taken one ticket and handed over what it copied under that ticket; the others are under way.
  ghost predicate ReadingOk(x: Consumer, k: Option<Reading>) {
    if k.None? then x == Ready(0)
    else
      match x
      case Ready(answer) =>
        || (answer == -1 && k.value.empty && k.value.taken == [] && k.value.given == [])
        || (answer == 0 && |k.value.taken| == |k.value.given| == 1 && k.value.given[0].0 == k.value.taken[0])
      case CopyingOut(r, _) => k.value.taken == [r] && k.value.given == []
      case _ => k.value.taken == [] && k.value.given == []
  }

  lemma ReadStep(c: Config, s: State, step: Step, i: nat, k: Option<Reading>)
    requires ShapeOk(c, s) && CountersOrdered(s) && ConsumersBehind(s) && i in s.consumers
    requires ReadingOk(s.consumers[i], k)
    ensures var s' := Apply(c, s, step); ReadingOk(s'.consumers[i], WatchRead(s, step, s', i, k))
  {
    if Apply(c, s, step) != s && k.None? { assert s.consumers[i].Ready?; }
  }

  lemma {:induction false} EveryReadingOk(c: Config, steps: seq<Step>, i: nat)
    requires c.Valid() && i in c.consumers
    ensures ReadingOk(Final(c, steps).consumers[i], ReadingOf(c, steps, i))
  {
    if steps != [] {
      hide Apply; hide ReadingOk; hide WatchRead;
      var n := |steps| - 1;
      EveryReadingOk(c, steps[..n], i);
      EveryScheduleIsIndexSafe(c, steps[..n]);
      ReadStep(c, Final(c, steps[..n]), steps[n], i, ReadingOf(c, steps[..n], i));
    } else {
      hide Apply;
    }
  }

  // ---------- Nobody is stuck ----------

  // The step with which a call goes on.
  function NextWrite(c: Config, x: Producer, p: nat): Step {
    match x
    case Start(_, _) => LoadReadOff(p)
    case LoadedRead(_, _, _) => LoadWriteOff(p)
    case Trying(_, _, _, _) => CasWriteOff(p)
    case CopyingIn(_, _, k) => if k < c.words then CopyWordIn(p) else EndCopyIn(p)
    case _ => CasMaxReadOff(p)
  }

  function NextRead(c: Config, x: Consumer, i: nat): Step {
    match x
    case SawRead(_) => SeeMaxReadOff(i)
    case Taking(_) => CasReadOff(i)
    case CopyingOut(_, dest) => if |dest| < c.words then CopyWordOut(i) else EndCopyOut(i)
    case _ => SeeReadOff(i)
  }

  ghost predicate Lengths(c: Config, s: State) {
    && (forall p :: p in s.producers && s.producers[p].CopyingIn? ==>
          s.producers[p].k <= c.words == |s.producers[p].pkt|)
    && (forall p :: p in s.producers && !s.producers[p].Idle? ==> |s.producers[p].pkt| == c.words)
    && (forall i :: i in s.consumers && s.consumers[i].CopyingOut? ==> |s.consumers[i].dest| <= c.words)
  }

  lemma LengthsKept(c: Config, s: State, step: Step)
    requires ShapeOk(c, s) && Lengths(c, s)
    ensures Lengths(c, Apply(c, s, step))
  {
  }

  lemma {:induction false} EveryScheduleHasLengths(c: Config, steps: seq<Step>)
    requires c.Valid()
    ensures Lengths(c, Final(c, steps))
  {
    if steps != [] {
      hide Apply; hide Lengths;
      EveryScheduleHasLengths(c, steps[..|steps| - 1]);
      LengthsKept(c, Final(c, steps[..|steps| - 1]), steps[|steps| - 1]);
    }
  }

  lemma ReadMoves(c: Config, s: State, i: nat)
    requires ShapeOk(c, s) && Lengths(c, s) && i in s.consumers && !s.consumers[i].Ready?
    ensures Apply(c, s, NextRead(c, s.consumers[i], i)).consumers[i] != s.consumers[i]
  {
  }

  // A call moves by itself, unless it waits for the ticket before its own to be published.
  lemma WriteMoves(c: Config, s: State, p: nat)
    requires ShapeOk(c, s) && Lengths(c, s) && CountersOrdered(s) && HoldersInRange(s) && p in s.producers
      && !s.producers[p].Idle?
    requires s.producers[p].CopiedIn? ==> s.producers[p].w == s.maxReadOff
    ensures Apply(c, s, NextWrite(c, s.producers[p], p)).producers[p] != s.producers[p]
  {
  }

  // On every schedule a call under way can go on, or waits for another call that can.
  lemma NobodyStuck(c: Config, steps: seq<Step>, p: nat)
    requires c.Valid() && p in c.producers && !Final(c, steps).producers[p].Idle?
    ensures var s := Final(c, steps);
      exists q :: q in s.producers && !s.producers[q].Idle?
        && (q == p || (s.producers[p].CopiedIn? && s.producers[q].Holds()))
        && Apply(c, s, NextWrite(c, s.producers[q], q)).producers[q] != s.producers[q]
  {
    hide Apply; hide Final;
    var s := Final(c, steps);
    EveryScheduleIsIndexSafe(c, steps);
    EveryScheduleHasLengths(c, steps);
    if s.producers[p].CopiedIn? && s.producers[p].w != s.maxReadOff {
      assert s.producers[p].Holds();
      assert Owned(s, s.maxReadOff);
      var q :| q in s.producers && s.producers[q].Holds() && s.producers[q].w == s.maxReadOff;
      WriteMoves(c, s, q);
    } else {
      WriteMoves(c, s, p);
    }
  }

  lemma ReadersNeverStuck(c: Config, steps: seq<Step>, i: nat)
    requires c.Valid() && i in c.consumers && !Final(c, steps).consumers[i].Ready?
    ensures var s := Final(c, steps); Apply(c, s, NextRead(c, s.consumers[i], i)).consumers[i] != s.consumers[i]
  {
    hide Apply; hide Final;
    EveryScheduleHasLengths(c, steps);
    ReadMoves(c, Final(c, steps), i);
  }
}
