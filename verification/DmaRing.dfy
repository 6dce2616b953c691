/**
 The descriptor rings of the DMA core: requesters on the host fill a ring under its lock
 and set a doorbell; the core clears the doorbell and drains the rings.  As a step system:
 a step is one load or store of a shared index or of the doorbell, or one descriptor.
 A step that is not enabled changes nothing.
 */
module DmaRing {
  import opened RingMath

  const CHANNELS := 2
  const EBUSY := 16
  const EINVAL := 22

  datatype Desc = Desc(kind: int, param1: int, param2: int, param3: int, param4: int)

  // `cpu` is the hardware id of the requesting CPU, which a callback is to interrupt.
  datatype Request = Request(src: int, dest: int, size: int, callback: bool, notify: int, priv: int, cpu: nat)
  {
    function Count(): nat { if callback || notify != 0 then 2 else 1 }
  }

  const INTR := 0x1000_0000
  const CPU_MASK := 0x1_0000

  // The interrupt bit of param1, tested and set.
  predicate HasIntr(x: int) { (x / INTR) % 2 == 1 }

  function WithIntr(cpu: nat): (x: int) { if HasIntr(cpu) then cpu else cpu + INTR }

  function CopyDesc(req: Request): Desc { Desc(1, 0, req.src, req.dest, req.size) }

  // The second descriptor overwrites only some fields of what its slot held.
  function NotifyDesc(req: Request, slot: Desc): Desc {
    if req.callback then slot.(kind := 2, param1 := WithIntr(req.cpu))
    else slot.(kind := 2, param1 := 0, param2 := req.notify, param4 := req.priv)
  }

  // What a request submits; `second` is its notification, if it has one.
  function Intended(req: Request, second: Desc): seq<Desc> {
    if req.Count() > 1 then [CopyDesc(req), second] else [CopyDesc(req)]
  }

  // `requests`, `submitted` and `executed` are history: the requests whose descriptors have been passed to the
  // core, those descriptors, and the descriptors that have run. `done` counts the times the tail moved.
  datatype Channel = Channel(ring: seq<Desc>, head: nat, tail: nat, submitted: seq<Desc>, executed: seq<Desc>,
    done: nat, requests: seq<Request>)

  // `answer` is what the last call returned, 0 before the first.
  datatype Requester =
    | Idle(answer: int)
    | Locked(ch: nat, req: Request)
    | HasRoom(ch: nat, req: Request)
    | WroteFirst(ch: nat, req: Request)
    | WroteAll(ch: nat, req: Request, second: Desc)
    | Published(ch: nat)
    | Ringing(ch: nat)
  {
    predicate Holds() { !Idle? && !Ringing? }
    predicate Writing() { HasRoom? || WroteFirst? || WroteAll? }
  }

  datatype Core = Spin | Saw | Scan(i: nat) | Found(i: nat) | Ran(i: nat)

  datatype State = State(chans: seq<Channel>, doorbell: bool, core: Core, requesters: map<nat, Requester>)

  datatype Step =
    | Lock(p: nat, ch: int, req: Request)
    | CheckRoom(p: nat)
    | WriteFirst(p: nat)
    | WriteSecond(p: nat)
    | SetHead(p: nat)
    | Unlock(p: nat)
    | RingBell(p: nat)
    | SeeBell
    | ClearBell
    | TestHead
    | RunDesc
    | AdvanceTail

  function Next(len: nat, t: nat): nat { if t + 1 >= len then 0 else t + 1 }

  predicate Room(len: nat, h: nat, t: nat, ndesc: nat) {
    var t' := if t <= h then t + len else t;
    h + ndesc < t'
  }

  predicate LockFree(s: State, ch: nat) {
    forall q :: q in s.requesters && s.requesters[q].Holds() ==> s.requesters[q].ch != ch
  }

  predicate Shape(len: nat, s: State) {
    && len >= 1 && |s.chans| == CHANNELS
    && (forall i :: 0 <= i < CHANNELS ==> |s.chans[i].ring| == len && s.chans[i].head < len && s.chans[i].tail < len)
    && (forall p :: p in s.requesters && !s.requesters[p].Idle? ==> s.requesters[p].ch < CHANNELS)
  }

  function SetR(s: State, p: nat, x: Requester): State { s.(requesters := s.requesters[p := x]) }
  function SetC(s: State, i: nat, c: Channel): State requires i < |s.chans| { s.(chans := s.chans[i := c]) }

  predicate OfCore(step: Step) {
    step.SeeBell? || step.ClearBell? || step.TestHead? || step.RunDesc? || step.AdvanceTail?
  }

  function Requester1(len: nat, s: State, step: Step): (s': State)
    requires Shape(len, s)
    ensures Shape(len, s') && s'.core == s.core
  {
    match step
    case Lock(p, ch, req) =>
      if p !in s.requesters || !s.requesters[p].Idle? then s
      else if ch < 0 || ch >= CHANNELS then SetR(s, p, Idle(-EINVAL))
      else if LockFree(s, ch) then SetR(s, p, Locked(ch, req))
      else s
    case CheckRoom(p) =>
      if p !in s.requesters || !s.requesters[p].Locked? then s else
      var Locked(ch, req) := s.requesters[p];
      if Room(len, s.chans[ch].head, s.chans[ch].tail, req.Count()) then SetR(s, p, HasRoom(ch, req))
      else SetR(s, p, Idle(-EBUSY))
    case WriteFirst(p) =>
      if p !in s.requesters || !s.requesters[p].HasRoom? then s else
      var HasRoom(ch, req) := s.requesters[p];
      var c := s.chans[ch];
      SetC(SetR(s, p, if req.Count() > 1 then WroteFirst(ch, req) else WroteAll(ch, req, CopyDesc(req))), ch,
        c.(ring := c.ring[c.head := CopyDesc(req)]))
    case WriteSecond(p) =>
      if p !in s.requesters || !s.requesters[p].WroteFirst? then s else
      var WroteFirst(ch, req) := s.requesters[p];
      var c := s.chans[ch];
      var h := Next(len, c.head);
      SetC(SetR(s, p, WroteAll(ch, req, NotifyDesc(req, c.ring[h]))), ch,
        c.(ring := c.ring[h := NotifyDesc(req, c.ring[h])]))
    case SetHead(p) =>
      if p !in s.requesters || !s.requesters[p].WroteAll? then s else
      var WroteAll(ch, req, second) := s.requesters[p];
      var c := s.chans[ch];
      var h := Next(len, c.head);
      SetC(SetR(s, p, Published(ch)), ch,
           c.(head := if req.Count() > 1 then Next(len, h) else h, submitted := c.submitted + Intended(req, second),
              requests := c.requests + [req]))
    case Unlock(p) =>
      if p in s.requesters && s.requesters[p].Published? then SetR(s, p, Ringing(s.requesters[p].ch)) else s
    case RingBell(p) =>
      if p in s.requesters && s.requesters[p].Ringing? then SetR(s, p, Idle(0)).(doorbell := true) else s
    case _ => s
  }

  function Core1(len: nat, s: State, step: Step): (s': State)
    requires Shape(len, s)
    ensures Shape(len, s') && s'.requesters == s.requesters
  {
    match step
    case SeeBell => if s.core.Spin? && s.doorbell then s.(core := Saw) else s
    case ClearBell => if s.core.Saw? then s.(doorbell := false, core := Scan(0)) else s
    case TestHead =>
      if !s.core.Scan? then s
      else if s.core.i >= CHANNELS then s.(core := Spin)
      else if s.chans[s.core.i].head != s.chans[s.core.i].tail then s.(core := Found(s.core.i))
      else s.(core := Scan(s.core.i + 1))
    case RunDesc =>
      if !s.core.Found? || s.core.i >= CHANNELS then s else
      var c := s.chans[s.core.i];
      SetC(s, s.core.i, c.(executed := c.executed + [c.ring[c.tail]])).(core := Ran(s.core.i))
    case AdvanceTail =>
      if !s.core.Ran? || s.core.i >= CHANNELS then s else
      var c := s.chans[s.core.i];
      SetC(s, s.core.i, c.(tail := Next(len, c.tail), done := c.done + 1)).(core := Scan(s.core.i))
    case _ => s
  }

  function Apply(len: nat, s: State, step: Step): (s': State)
    requires Shape(len, s)
    ensures Shape(len, s')
  {
    if OfCore(step) then Core1(len, s, step) else Requester1(len, s, step)
  }

  function Init(rings: seq<seq<Desc>>, requesters: set<nat>): State
    requires |rings| == CHANNELS
  {
    State([Channel(rings[0], 0, 0, [], [], 0, []), Channel(rings[1], 0, 0, [], [], 0, [])], false, Spin,
      map p | p in requesters :: Idle(0))
  }

  // `memory` is whatever the descriptor pages held at first.
  function Final(len: nat, memory: seq<seq<Desc>>, requesters: set<nat>, steps: seq<Step>): (s: State)
    requires len >= 1 && |memory| == CHANNELS && |memory[0]| == |memory[1]| == len
    ensures Shape(len, s)
  {
    if steps == [] then Init(memory, requesters)
    else Apply(len, Final(len, memory, requesters, steps[..|steps| - 1]), steps[|steps| - 1])
  }

  // ---------- Invariants ----------

  // The indices are the two counts modulo the ring; the head never catches the tail; the slots between
  // them hold exactly the descriptors submitted and not done; what ran is a prefix of what was submitted.
  ghost predicate ChannelOk(len: nat, c: Channel, running: bool)
    requires len >= 1
  {
    && |c.ring| == len && CountsOk(len, c)
    && (forall t: nat :: c.done <= t < |c.submitted| ==> c.ring[t % len] == c.submitted[t])
    && c.executed == c.submitted[..c.done + if running && c.done < |c.submitted| then 1 else 0]
    && (running ==> c.done < |c.submitted|)
  }

  ghost predicate CountsOk(len: nat, c: Channel)
    requires len >= 1
  {
    && c.done <= |c.submitted| && |c.submitted| - c.done <= len - 1
    && c.head == |c.submitted| % len && c.tail == c.done % len
  }

  ghost predicate ChannelsOk(len: nat, s: State)
    requires Shape(len, s)
  {
    && (forall i :: 0 <= i < CHANNELS ==> ChannelOk(len, s.chans[i], s.core == Ran(i)))
    && (s.core.Found? ==> s.core.i < CHANNELS && s.chans[s.core.i].done < |s.chans[s.core.i].submitted|)
    && (s.core.Ran? ==> s.core.i < CHANNELS)
  }

  // One requester at a time holds a channel.
  ghost predicate LocksOk(s: State) {
    forall p, q :: p in s.requesters && q in s.requesters && p != q && s.requesters[p].Holds()
      && s.requesters[q].Holds()
      ==> s.requesters[p].ch != s.requesters[q].ch
  }

  // A requester that found room still has it, however far the core has come since.
  ghost predicate RoomOk(len: nat, s: State)
    requires Shape(len, s)
  {
    forall p :: p in s.requesters && s.requesters[p].Writing() ==> HasRoomFor(len, s, s.requesters[p])
  }

  ghost predicate HasRoomFor(len: nat, s: State, r: Requester)
    requires Shape(len, s) && r.Writing() && r.ch < CHANNELS
  {
    |s.chans[r.ch].submitted| - s.chans[r.ch].done + r.req.Count() <= len - 1
  }

  // The slots past the head hold what the requester is about to submit, as far as it has written.
  ghost predicate WrittenOk(len: nat, s: State)
    requires Shape(len, s)
  {
    forall p :: p in s.requesters && (s.requesters[p].WroteFirst? || s.requesters[p].WroteAll?) ==>
      Written(len, s, s.requesters[p])
  }

  ghost predicate Written(len: nat, s: State, r: Requester)
    requires Shape(len, s) && (r.WroteFirst? || r.WroteAll?) && r.ch < CHANNELS
  {
    var c := s.chans[r.ch];
    c.ring[c.head] == CopyDesc(r.req) && (r.WroteAll? && r.req.Count() > 1 ==> c.ring[Next(len, c.head)] == r.second)
    && (r.WroteFirst? ==> r.req.Count() > 1)
  }

  // A nonempty channel is not stranded: the bell is set, a requester is about to set it, or the core
  // has still to finish the channel in the pass it is making.
  ghost predicate Attended(s: State, i: nat) {
    || s.doorbell
    || (exists p :: p in s.requesters && (s.requesters[p].Published? || s.requesters[p].Ringing?))
    || s.core.Saw?
    || (!s.core.Spin? && !s.core.Saw? && s.core.i <= i)
  }

  ghost predicate NotStranded(s: State) {
    forall i :: 0 <= i < |s.chans| ==> s.chans[i].done < |s.chans[i].submitted| ==> Attended(s, i)
  }

  ghost predicate Inv(len: nat, s: State) {
    Shape(len, s) && ChannelsOk(len, s) && LocksOk(s) && RoomOk(len, s) && WrittenOk(len, s) && NotStranded(s)
  }

  // ---------- One channel ----------

  // The requester's test is exact: it says room for n precisely when n more leave one slot free.
  lemma RoomExactly(len: nat, c: Channel, n: nat)
    requires len >= 1 && CountsOk(len, c)
    ensures Room(len, c.head, c.tail, n) <==> |c.submitted| - c.done + n <= len - 1
  {
    var d, q := |c.submitted| - c.done, c.done / len;
    assert c.done == len * q + c.tail;
    if c.tail + d < len {
      ModUnique(|c.submitted|, len, q, c.tail + d);
    } else {
      assert len * (q + 1) == len * q + len;
      ModUnique(|c.submitted|, len, q + 1, c.tail + d - len);
    }
  }

  // A store k places past the head misses every slot in use, the one being processed included.
  lemma StoreOk(len: nat, c: Channel, running: bool, k: nat, d: Desc)
    requires len >= 1 && ChannelOk(len, c, running) && |c.submitted| - c.done + k < len
    ensures ChannelOk(len, c.(ring := c.ring[(|c.submitted| + k) % len := d]), running)
  {
    forall t: nat | c.done <= t < |c.submitted| ensures t % len != (|c.submitted| + k) % len {
      SlotsDiffer(t, |c.submitted| + k, len);
    }
  }

  lemma PublishOk(len: nat, c: Channel, running: bool, req: Request, second: Desc)
    requires len >= 1 && ChannelOk(len, c, running) && |c.submitted| - c.done + req.Count() <= len - 1
    requires c.ring[c.head] == CopyDesc(req) && (req.Count() > 1 ==> c.ring[Next(len, c.head)] == second)
    ensures var h := Next(len, c.head);
      ChannelOk(len,
        c.(head := if req.Count() > 1 then Next(len, h) else h, submitted := c.submitted + Intended(req, second),
           requests := c.requests + [req]),
        running)
  {
    NextSlot(|c.submitted|, len);
    NextSlot(|c.submitted| + 1, len);
  }

  lemma RunOk(len: nat, c: Channel)
    requires len >= 1 && ChannelOk(len, c, false) && c.done < |c.submitted|
    ensures ChannelOk(len, c.(executed := c.executed + [c.ring[c.tail]]), true)
  {
    assert c.submitted[..c.done + 1] == c.submitted[..c.done] + [c.submitted[c.done]];
  }

  lemma AdvanceOk(len: nat, c: Channel)
    requires len >= 1 && ChannelOk(len, c, true)
    ensures ChannelOk(len, c.(tail := Next(len, c.tail), done := c.done + 1), false)
  {
    NextSlot(c.done, len);
  }

  lemma EmptyExactly(len: nat, c: Channel, running: bool)
    requires len >= 1 && ChannelOk(len, c, running)
    ensures c.head == c.tail <==> c.done == |c.submitted|
  {
    if c.done < |c.submitted| { SlotsDiffer(c.done, |c.submitted|, len); }
  }

  // ---------- Steps ----------

  lemma CoreChannels(len: nat, s: State, step: Step)
    requires Inv(len, s) && OfCore(step)
    ensures ChannelsOk(len, Core1(len, s, step))
  {
    if !s.core.Spin? && !s.core.Saw? && s.core.i < CHANNELS {
      var c := s.chans[s.core.i];
      EmptyExactly(len, c, s.core.Ran?);
      if s.core.Found? { RunOk(len, c); }
      if s.core.Ran? { AdvanceOk(len, c); }
    }
  }

  lemma CoreRoom(len: nat, s: State, step: Step)
    requires Shape(len, s) && RoomOk(len, s) && WrittenOk(len, s) && OfCore(step)
    ensures RoomOk(len, Core1(len, s, step)) && WrittenOk(len, Core1(len, s, step))
  {
    hide Core1; hide Shape;
    var s' := Core1(len, s, step);
    CoreLeaves(len, s, step);
    ShapeParts(len, s);
    ShapeParts(len, s');
  }

  // The core writes no descriptor and moves no head, and what has been done only grows.
  lemma CoreLeaves(len: nat, s: State, step: Step)
    requires Shape(len, s) && OfCore(step)
    ensures var s' := Core1(len, s, step);
      forall i :: 0 <= i < CHANNELS ==>
        && s'.chans[i].ring == s.chans[i].ring && s'.chans[i].head == s.chans[i].head
        && s'.chans[i].submitted == s.chans[i].submitted && s'.chans[i].done >= s.chans[i].done
  {
  }

  lemma ShapeParts(len: nat, s: State)
    requires Shape(len, s)
    ensures |s.chans| == CHANNELS
      && forall p :: p in s.requesters && !s.requesters[p].Idle? ==> s.requesters[p].ch < CHANNELS
    ensures forall i :: 0 <= i < CHANNELS ==> |s.chans[i].ring| == len && s.chans[i].head < len
  {
  }

  lemma CoreStranded(len: nat, s: State, step: Step)
    requires Shape(len, s) && ChannelsOk(len, s) && NotStranded(s) && OfCore(step)
    ensures NotStranded(Core1(len, s, step))
  {
    if !s.core.Spin? && !s.core.Saw? && s.core.i < CHANNELS {
      EmptyExactly(len, s.chans[s.core.i], s.core.Ran?);
    }
  }

  lemma OneChannelChanged(len: nat, s: State, ch: nat, c': Channel, s': State)
    requires Shape(len, s) && ChannelsOk(len, s) && Shape(len, s') && ch < CHANNELS
    requires s'.core == s.core && s'.chans == s.chans[ch := c']
    requires ChannelOk(len, c', s.core == Ran(ch)) && c'.done == s.chans[ch].done
      && |c'.submitted| >= |s.chans[ch].submitted|
    ensures ChannelsOk(len, s')
  {
  }

  lemma RequesterChannels(len: nat, s: State, step: Step)
    requires Shape(len, s) && ChannelsOk(len, s) && RoomOk(len, s) && WrittenOk(len, s) && !OfCore(step)
    ensures ChannelsOk(len, Requester1(len, s, step))
  {
    hide ChannelsOk;
    var s' := Requester1(len, s, step);
    if step.p in s.requesters && !s.requesters[step.p].Idle? {
      var r := s.requesters[step.p];
      var c, running := s.chans[r.ch], s.core == Ran(r.ch);
      AChannel(len, s, r.ch);
      StepChannel(len, s, step);
      if s'.chans != s.chans { OneChannelChanged(len, s, r.ch, s'.chans[r.ch], s'); } else { SameChannels(len, s, s'); }
    } else {
      SameChannels(len, s, s');
    }
  }

  lemma SameChannels(len: nat, s: State, s': State)
    requires Shape(len, s) && ChannelsOk(len, s) && Shape(len, s') && s'.core == s.core && s'.chans == s.chans
    ensures ChannelsOk(len, s')
  {
  }

  lemma AChannel(len: nat, s: State, ch: nat)
    requires Shape(len, s) && ChannelsOk(len, s) && ch < CHANNELS
    ensures ChannelOk(len, s.chans[ch], s.core == Ran(ch))
  {
  }

  lemma StepChannel(len: nat, s: State, step: Step)
    requires Shape(len, s) && RoomOk(len, s) && WrittenOk(len, s) && !OfCore(step) && step.p in s.requesters
      && !s.requesters[step.p].Idle?
    requires ChannelOk(len, s.chans[s.requesters[step.p].ch], s.core == Ran(s.requesters[step.p].ch))
    ensures var s', ch := Requester1(len, s, step), s.requesters[step.p].ch;
      && s'.chans == s.chans[ch := s'.chans[ch]] && ChannelOk(len, s'.chans[ch], s.core == Ran(ch))
      && s'.chans[ch].done == s.chans[ch].done && |s'.chans[ch].submitted| >= |s.chans[ch].submitted|
  {
    hide ChannelOk; hide Shape;
    ShapeParts(len, s);
    var r := s.requesters[step.p];
    var c, running := s.chans[r.ch], s.core == Ran(r.ch);
    HeadIs(len, c, running);
    match step
    case WriteFirst(_) => if r.HasRoom? { StoreOk(len, c, running, 0, CopyDesc(r.req)); }
    case WriteSecond(_) =>
      if r.WroteFirst? { StoreOk(len, c, running, 1, NotifyDesc(r.req, c.ring[Next(len, c.head)])); }
    case SetHead(_) => if r.WroteAll? { assert Written(len, s, r); PublishOk(len, c, running, r.req, r.second); }
    case _ =>
  }

  lemma HeadIs(len: nat, c: Channel, running: bool)
    requires len >= 1 && ChannelOk(len, c, running)
    ensures c.head == |c.submitted| % len && Next(len, c.head) == (|c.submitted| + 1) % len
  {
    NextSlot(|c.submitted|, len);
  }

  lemma RequesterLocks(len: nat, s: State, step: Step)
    requires Shape(len, s) && LocksOk(s) && !OfCore(step)
    ensures LocksOk(Requester1(len, s, step))
  {
  }

  // While one requester holds a channel, nobody else's step touches it.
  lemma OthersChannel(len: nat, s: State, step: Step, p: nat)
    requires Shape(len, s) && LocksOk(s) && !OfCore(step)
    requires p in s.requesters && s.requesters[p].Holds() && p != step.p
    ensures var s' := Requester1(len, s, step);
      s'.requesters[p] == s.requesters[p] && s'.chans[s.requesters[p].ch] == s.chans[s.requesters[p].ch]
  {
  }

  lemma OwnRoom(len: nat, s: State, step: Step)
    requires Shape(len, s) && !OfCore(step) && step.p in s.requesters && !s.requesters[step.p].Idle?
    requires CountsOk(len, s.chans[s.requesters[step.p].ch])
    requires s.requesters[step.p].Writing() ==> HasRoomFor(len, s, s.requesters[step.p])
    requires s.requesters[step.p].Writing() && !s.requesters[step.p].HasRoom? ==> Written(len, s, s.requesters[step.p])
    requires Requester1(len, s, step).requesters[step.p].Writing()
    ensures var s' := Requester1(len, s, step); HasRoomFor(len, s', s'.requesters[step.p])
    ensures var s' := Requester1(len, s, step);
      !s'.requesters[step.p].HasRoom? ==> Written(len, s', s'.requesters[step.p])
  {
    var r := s.requesters[step.p];
    var c := s.chans[r.ch];
    if r.Locked? { RoomExactly(len, c, r.req.Count()); }
    if r.WroteFirst? { NextIsOther(len, c, r.req); }
  }

  lemma WasBusy(len: nat, s: State, step: Step)
    requires Shape(len, s) && !OfCore(step) && step.p in Requester1(len, s, step).requesters
      && Requester1(len, s, step).requesters[step.p].Writing()
    ensures step.p in s.requesters && !s.requesters[step.p].Idle?
  {
  }

  lemma SameOthers(len: nat, s: State, step: Step, p: nat)
    requires Shape(len, s) && !OfCore(step) && p != step.p && p in Requester1(len, s, step).requesters
    ensures p in s.requesters && s.requesters[p] == Requester1(len, s, step).requesters[p]
  {
  }

  lemma RequesterRoom(len: nat, s: State, step: Step, p: nat)
    requires Shape(len, s) && RoomOk(len, s) && WrittenOk(len, s) && !OfCore(step)
    requires forall i :: 0 <= i < CHANNELS ==> CountsOk(len, s.chans[i])
    requires LocksOk(s) && p in Requester1(len, s, step).requesters && Requester1(len, s, step).requesters[p].Writing()
    ensures var s' := Requester1(len, s, step); HasRoomFor(len, s', s'.requesters[p])
    ensures var s' := Requester1(len, s, step); !s'.requesters[p].HasRoom? ==> Written(len, s', s'.requesters[p])
  {
    hide Requester1;
    if p != step.p {
      SameOthers(len, s, step, p);
      OthersChannel(len, s, step, p);
    } else {
      WasBusy(len, s, step);
      OwnRoom(len, s, step);
    }
  }

  lemma NextIsOther(len: nat, c: Channel, req: Request)
    requires req.Count() > 1 && c.done <= |c.submitted| && |c.submitted| - c.done + req.Count() <= len - 1
      && c.head < len
    ensures Next(len, c.head) != c.head
  {
  }

  lemma RequesterStranded(len: nat, s: State, step: Step)
    requires Shape(len, s) && NotStranded(s) && !OfCore(step)
    ensures NotStranded(Requester1(len, s, step))
  {
    var s' := Requester1(len, s, step);
    forall i | 0 <= i < CHANNELS && s'.chans[i].done < |s'.chans[i].submitted| ensures Attended(s', i) {
      if s.chans[i].done < |s.chans[i].submitted| {
        assert Attended(s, i);
        if p :| p in s.requesters && (s.requesters[p].Published? || s.requesters[p].Ringing?) {
          assert s'.doorbell || s'.requesters[p].Published? || s'.requesters[p].Ringing?;
        }
      } else {
        assert s'.requesters[step.p].Published?;
      }
    }
  }

  lemma StepKeepsInv(len: nat, s: State, step: Step)
    requires Inv(len, s)
    ensures Inv(len, Apply(len, s, step))
  {
    hide Core1; hide Requester1;
    if OfCore(step) {
      CoreChannels(len, s, step);
      CoreRoom(len, s, step);
      CoreStranded(len, s, step);
    } else {
      RequesterChannels(len, s, step);
      RequesterLocks(len, s, step);
      var s' := Apply(len, s, step);
      forall p | p in s'.requesters && s'.requesters[p].Writing()
        ensures HasRoomFor(len, s', s'.requesters[p])
          && (!s'.requesters[p].HasRoom? ==> Written(len, s', s'.requesters[p]))
      {
        RequesterRoom(len, s, step, p);
      }
      RequesterStranded(len, s, step);
    }
  }

  // ---------- Main results ----------

  // Every schedule: on each channel the head never catches the tail, no descriptor in use is overwritten,
  // what has run is a prefix of what was submitted, and no request is stranded.
  lemma {:induction false} EveryScheduleKeepsInv(len: nat, memory: seq<seq<Desc>>, requesters: set<nat>,
      steps: seq<Step>)
    requires len >= 1 && |memory| == CHANNELS && |memory[0]| == |memory[1]| == len
    ensures Inv(len, Final(len, memory, requesters, steps))
  {
    if steps != [] {
      hide Apply;
      EveryScheduleKeepsInv(len, memory, requesters, steps[..|steps| - 1]);
      StepKeepsInv(len, Final(len, memory, requesters, steps[..|steps| - 1]), steps[|steps| - 1]);
    }
  }

  // Descriptors run once each, in the order they were submitted, and at least one slot is always free.
  lemma RunOnceInOrder(len: nat, memory: seq<seq<Desc>>, requesters: set<nat>, steps: seq<Step>, i: nat)
    requires len >= 1 && |memory| == CHANNELS && |memory[0]| == |memory[1]| == len && i < CHANNELS
    ensures var c := Final(len, memory, requesters, steps).chans[i];
      c.executed <= c.submitted && |c.submitted| - |c.executed| <= len - 1
  {
    EveryScheduleKeepsInv(len, memory, requesters, steps);
  }

  // When every requester has returned and the core spins on a clear doorbell, everything submitted has run.
  lemma NothingStranded(len: nat, memory: seq<seq<Desc>>, requesters: set<nat>, steps: seq<Step>, i: nat)
    requires len >= 1 && |memory| == CHANNELS && |memory[0]| == |memory[1]| == len && i < CHANNELS
    requires var s := Final(len, memory, requesters, steps);
      s.core.Spin? && !s.doorbell && forall p :: p in s.requesters ==> s.requesters[p].Idle?
    ensures var c := Final(len, memory, requesters, steps).chans[i]; c.executed == c.submitted && c.head == c.tail
  {
    EveryScheduleKeepsInv(len, memory, requesters, steps);
    var s := Final(len, memory, requesters, steps);
    assert !Attended(s, i);
    EmptyExactly(len, s.chans[i], false);
  }
}
