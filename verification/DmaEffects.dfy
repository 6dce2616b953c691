/**
 What the DMA core does for a request: the effects of the descriptors it runs, against the effects that the
 request structure promises.
 */
module DmaEffects {
  import opened DmaRing

  datatype Effect = Copied(src: int, dest: int, size: int) | Stored(at: int, value: int) | Interrupted(cpu: int)

  // shimos_dma_process.
  function Effects(d: Desc): (es: seq<Effect>) {
    (if d.kind == 1 then [Copied(d.param2, d.param3, d.param4)]
     else if d.kind == 2 then [Stored(d.param2, d.param4)]
     else [])
    + if HasIntr(d.param1) then [Interrupted(d.param1 % CPU_MASK)] else []
  }

  // The two things a request is made of.
  datatype Part = First(req: Request) | Second(req: Request)

  function Parts(rs: seq<Request>): (ps: seq<Part>) {
    if rs == [] then []
    else
      var r := rs[|rs| - 1];
      Parts(rs[..|rs| - 1]) + if r.Count() > 1 then [First(r), Second(r)] else [First(r)]
  }

  // What a part is to do: the copy; then, with a callback, an interrupt and no store, and otherwise the store.
  function AskedOf(p: Part): (es: seq<Effect>) {
    match p
    case First(r) => [Copied(r.src, r.dest, r.size)]
    case Second(r) => if r.callback then [Interrupted(r.cpu % CPU_MASK)] else [Stored(r.notify, r.priv)]
  }

  predicate CallsBack(p: Part) { p.Second? && p.req.callback }

  function Asked(ps: seq<Part>): (es: seq<Effect>) {
    if ps == [] then [] else Asked(ps[..|ps| - 1]) + AskedOf(ps[|ps| - 1])
  }

  function Performed(ds: seq<Desc>): (es: seq<Effect>) {
    if ds == [] then [] else Performed(ds[..|ds| - 1]) + Effects(ds[|ds| - 1])
  }

  // ---------- Descriptors and what they are for ----------

  ghost predicate IsNotify(r: Request, d: Desc) {
    d.kind == 2 && if r.callback then d.param1 == WithIntr(r.cpu)
                   else d.param1 == 0 && d.param2 == r.notify && d.param4 == r.priv
  }

  ghost predicate Fits(p: Part, d: Desc) {
    match p
    case First(r) => d == CopyDesc(r)
    case Second(r) => IsNotify(r, d)
  }

  ghost predicate AllFit(ps: seq<Part>, ds: seq<Desc>) {
    |ps| == |ds| && forall k :: 0 <= k < |ps| ==> Fits(ps[k], ds[k])
  }

  ghost predicate StateFits(s: State) {
    && (forall i :: 0 <= i < |s.chans| ==> AllFit(Parts(s.chans[i].requests), s.chans[i].submitted))
    && (forall p :: p in s.requesters && s.requesters[p].WroteAll? && s.requesters[p].req.Count() > 1 ==>
          IsNotify(s.requesters[p].req, s.requesters[p].second))
  }

  lemma PublishFits(rs: seq<Request>, ds: seq<Desc>, r: Request, second: Desc)
    requires AllFit(Parts(rs), ds) && (r.Count() > 1 ==> IsNotify(r, second))
    ensures AllFit(Parts(rs + [r]), ds + Intended(r, second))
  {
    hide IsNotify;
    assert (rs + [r])[..|rs|] == rs;
  }

  lemma StepFits(len: nat, s: State, step: Step)
    requires Shape(len, s) && StateFits(s)
    ensures StateFits(Apply(len, s, step))
  {
    hide Parts; hide AllFit; hide Intended;
    if step.SetHead? && step.p in s.requesters && s.requesters[step.p].WroteAll? {
      var r := s.requesters[step.p];
      PublishFits(s.chans[r.ch].requests, s.chans[r.ch].submitted, r.req, r.second);
    }
  }

  lemma {:induction false} EveryScheduleFits(len: nat, memory: seq<seq<Desc>>, requesters: set<nat>, steps: seq<Step>)
    requires len >= 1 && |memory| == CHANNELS && |memory[0]| == |memory[1]| == len
    ensures StateFits(Final(len, memory, requesters, steps))
  {
    if steps != [] {
      hide Apply; hide StateFits;
      EveryScheduleFits(len, memory, requesters, steps[..|steps| - 1]);
      StepFits(len, Final(len, memory, requesters, steps[..|steps| - 1]), steps[|steps| - 1]);
    }
  }

  // ---------- Effects ----------

  lemma IntrIs(cpu: nat)
    ensures HasIntr(WithIntr(cpu)) && WithIntr(cpu) % CPU_MASK == cpu % CPU_MASK
  {
    assert (cpu + INTR) / INTR == cpu / INTR + 1;
    assert INTR == CPU_MASK * 0x1000;
  }

  // A descriptor does what it is for; that of a callback stores a word besides.
  lemma EffectsExactly(p: Part, d: Desc)
    requires Fits(p, d)
    ensures Effects(d) == (if CallsBack(p) then [Stored(d.param2, d.param4)] else []) + AskedOf(p)
  {
    if p.Second? { IntrIs(p.req.cpu); }
  }

  function Callbacks(ps: seq<Part>): (n: nat)
    ensures n == 0 <==> forall k :: 0 <= k < |ps| ==> !CallsBack(ps[k])
  {
    if ps == [] then 0 else Callbacks(ps[..|ps| - 1]) + if CallsBack(ps[|ps| - 1]) then 1 else 0
  }

  lemma {:induction false} PerformedExactly(ps: seq<Part>, ds: seq<Desc>)
    requires AllFit(ps, ds)
    ensures |Performed(ds)| == |Asked(ps)| + Callbacks(ps)
    ensures Callbacks(ps) == 0 ==> Performed(ds) == Asked(ps)
  {
    if ps != [] {
      hide Effects; hide AskedOf; hide Fits;
      var n := |ps| - 1;
      PerformedExactly(ps[..n], ds[..n]);
      EffectsExactly(ps[n], ds[n]);
    }
  }

  // ---------- Main results ----------

  // Every schedule: what the core has done on a channel is what the requests ask for, in order and as far as
  // their descriptors have run, if and only if no callback was among them.
  lemma DoesWhatIsAsked(len: nat, memory: seq<seq<Desc>>, requesters: set<nat>, steps: seq<Step>, i: nat)
    requires len >= 1 && |memory| == CHANNELS && |memory[0]| == |memory[1]| == len && i < CHANNELS
    ensures var c := Final(len, memory, requesters, steps).chans[i];
      var ps, n := Parts(c.requests), |c.executed|;
      n <= |ps| && (Performed(c.executed) == Asked(ps[..n]) <==> forall k :: 0 <= k < n ==> !CallsBack(ps[k]))
  {
    hide Performed; hide Asked; hide Parts; hide Fits;
    var c := Final(len, memory, requesters, steps).chans[i];
    EveryScheduleFits(len, memory, requesters, steps);
    RunOnceInOrder(len, memory, requesters, steps, i);
    var ps, n := Parts(c.requests), |c.executed|;
    assert c.submitted[..n] == c.executed;
    PerformedExactly(ps[..n], c.executed);
  }

  // What a list of requests asks for.
  function Requested(rs: seq<Request>): (es: seq<Effect>) {
    if rs == [] then []
    else
      var r := rs[|rs| - 1];
      Requested(rs[..|rs| - 1]) + [Copied(r.src, r.dest, r.size)] +
      (if r.callback then [Interrupted(r.cpu % CPU_MASK)] else if r.notify != 0 then [Stored(r.notify, r.priv)] else [])
  }

  lemma {:induction false} PartsAsk(rs: seq<Request>)
    ensures Asked(Parts(rs)) == Requested(rs)
    ensures (forall k :: 0 <= k < |Parts(rs)| ==> !CallsBack(Parts(rs)[k])) <==>
      forall k :: 0 <= k < |rs| ==> !rs[k].callback
  {
    if rs != [] {
      var n := |rs| - 1;
      var r, ps := rs[n], Parts(rs[..n]);
      PartsAsk(rs[..n]);
      AskedOne(ps, First(r));
      AskedOne(ps + [First(r)], Second(r));
      assert ps + [First(r)] + [Second(r)] == ps + [First(r), Second(r)];
      assert Parts(rs) == if r.Count() > 1 then ps + [First(r), Second(r)] else ps + [First(r)];
      LastCalls(ps, r, Parts(rs));
    }
  }

  lemma AskedOne(ps: seq<Part>, p: Part)
    ensures Asked(ps + [p]) == Asked(ps) + AskedOf(p)
  {
    assert (ps + [p])[..|ps|] == ps;
  }

  lemma LastCalls(ps: seq<Part>, r: Request, all: seq<Part>)
    requires all == if r.Count() > 1 then ps + [First(r), Second(r)] else ps + [First(r)]
    ensures (forall k :: 0 <= k < |all| ==> !CallsBack(all[k])) <==>
      (forall k :: 0 <= k < |ps| ==> !CallsBack(ps[k])) && !r.callback
  {
    if r.callback { assert CallsBack(all[|ps| + 1]); }
    assert forall k :: 0 <= k < |ps| ==> all[k] == ps[k];
  }

  // When everybody has returned and the core spins on a clear doorbell: all that was requested has been done,
  // in order and with nothing besides, if and only if no request had a callback.
  lemma AllDoneExactly(len: nat, memory: seq<seq<Desc>>, requesters: set<nat>, steps: seq<Step>, i: nat)
    requires len >= 1 && |memory| == CHANNELS && |memory[0]| == |memory[1]| == len && i < CHANNELS
    requires var s := Final(len, memory, requesters, steps);
      s.core.Spin? && !s.doorbell && forall p :: p in s.requesters ==> s.requesters[p].Idle?
    ensures var c := Final(len, memory, requesters, steps).chans[i];
      Performed(c.executed) == Requested(c.requests) <==> forall k :: 0 <= k < |c.requests| ==> !c.requests[k].callback
  {
    hide Performed; hide Asked; hide Parts; hide Requested; hide CallsBack; hide Fits;
    NothingStranded(len, memory, requesters, steps, i);
    EveryScheduleFits(len, memory, requesters, steps);
    var c := Final(len, memory, requesters, steps).chans[i];
    PerformedExactly(Parts(c.requests), c.executed);
    PartsAsk(c.requests);
  }

  // ---------- A callback at work ----------

  ghost predicate Leads(len: nat, s: State, step: Step, s': State) {
    Shape(len, s) && s' == Apply(len, s, step)
  }

  lemma {:induction false} Traced(len: nat, memory: seq<seq<Desc>>, requesters: set<nat>, steps: seq<Step>,
      states: seq<State>)
    requires len >= 1 && |memory| == CHANNELS && |memory[0]| == |memory[1]| == len
    requires |states| == |steps| + 1 && states[0] == Init(memory, requesters)
    requires forall i :: 0 <= i < |steps| ==> Leads(len, states[i], steps[i], states[i + 1])
    ensures Final(len, memory, requesters, steps) == states[|steps|]
  {
    hide Apply; hide Shape;
    if steps != [] {
      var n := |steps| - 1;
      Traced(len, memory, requesters, steps[..n], states[..n + 1]);
      assert Leads(len, states[n], steps[n], states[n + 1]);
    }
  }

  const CALL := Request(1, 2, 3, true, 0, 0, 7)

  // Four slots that held d at first, and the same after the request for a callback.
  function Unused(d: Desc): Channel { Channel([d, d, d, d], 0, 0, [], [], 0, []) }

  function Called(d: Desc, tail: nat, ran: nat): Channel
    requires tail <= 2 && ran <= 2
  {
    var ds := [CopyDesc(CALL), NotifyDesc(CALL, d)];
    Channel(ds + [d, d], 2, tail, ds, ds[..ran], tail, [CALL])
  }

  // One requester, one channel in use.
  function One(c: Channel, d: Desc, bell: bool, core: Core, r: Requester): State {
    State([c, Unused(d)], bell, core, map[0 := r])
  }

  const REQUEST_STEPS :=
    [Lock(0, 0, CALL), CheckRoom(0), WriteFirst(0), WriteSecond(0), SetHead(0), Unlock(0), RingBell(0)]

  const CORE_STEPS := [SeeBell, ClearBell, TestHead, RunDesc, AdvanceTail, TestHead, RunDesc]

  function Requesting(d: Desc): seq<State> {
    var c0, first, second := Unused(d), CopyDesc(CALL), NotifyDesc(CALL, d);
    [ One(c0, d, false, Spin, Idle(0)), One(c0, d, false, Spin, Locked(0, CALL)),
      One(c0, d, false, Spin, HasRoom(0, CALL)),
      One(c0.(ring := [first, d, d, d]), d, false, Spin, WroteFirst(0, CALL)),
      One(c0.(ring := [first, second, d, d]), d, false, Spin, WroteAll(0, CALL, second)),
      One(Called(d, 0, 0), d, false, Spin, Published(0)), One(Called(d, 0, 0), d, false, Spin, Ringing(0))]
  }

  function Running(d: Desc): seq<State> {
    [ One(Called(d, 0, 0), d, true, Spin, Idle(0)), One(Called(d, 0, 0), d, true, Saw, Idle(0)),
      One(Called(d, 0, 0), d, false, Scan(0), Idle(0)), One(Called(d, 0, 0), d, false, Found(0), Idle(0)),
      One(Called(d, 0, 1), d, false, Ran(0), Idle(0)), One(Called(d, 1, 1), d, false, Scan(0), Idle(0)),
      One(Called(d, 1, 1), d, false, Found(0), Idle(0)), One(Called(d, 1, 2), d, false, Ran(0), Idle(0))]
  }

  lemma LockLeads(d: Desc, c: Channel)
    requires |c.ring| == 4 && c.head < 4 && c.tail < 4
    ensures Leads(4, One(c, d, false, Spin, Idle(0)), Lock(0, 0, CALL), One(c, d, false, Spin, Locked(0, CALL)))
    ensures Room(4, c.head, c.tail, 2) ==>
      Leads(4, One(c, d, false, Spin, Locked(0, CALL)), CheckRoom(0), One(c, d, false, Spin, HasRoom(0, CALL)))
  {
    OneChanges(c, c, d, Idle(0), Locked(0, CALL));
    OneChanges(c, c, d, Locked(0, CALL), HasRoom(0, CALL));
  }

  lemma BellLeads(d: Desc, c: Channel)
    requires |c.ring| == 4 && c.head < 4 && c.tail < 4
    ensures Leads(4, One(c, d, false, Spin, Published(0)), Unlock(0), One(c, d, false, Spin, Ringing(0)))
    ensures Leads(4, One(c, d, false, Spin, Ringing(0)), RingBell(0), One(c, d, true, Spin, Idle(0)))
  {
    OneChanges(c, c, d, Published(0), Ringing(0));
    OneChanges(c, c, d, Ringing(0), Idle(0));
  }

  lemma OneChanges(c: Channel, c': Channel, d: Desc, r: Requester, r': Requester)
    ensures map[0 := r][0 := r'] == map[0 := r'] && [c, Unused(d)][0 := c'] == [c', Unused(d)]
      && [c, Unused(d)][0 := c] == [c, Unused(d)]
  {
  }

  lemma WriteLeads(d: Desc)
    ensures Leads(4, Requesting(d)[2], WriteFirst(0), Requesting(d)[3])
  {
    var c0, first := Unused(d), CopyDesc(CALL);
    OneChanges(c0, c0.(ring := [first, d, d, d]), d, HasRoom(0, CALL), WroteFirst(0, CALL));
    assert c0.ring[0 := first] == [first, d, d, d];
  }

  lemma WriteAgainLeads(d: Desc)
    ensures Leads(4, Requesting(d)[3], WriteSecond(0), Requesting(d)[4])
  {
    var first, second := CopyDesc(CALL), NotifyDesc(CALL, d);
    var c1, c2 := Unused(d).(ring := [first, d, d, d]), Unused(d).(ring := [first, second, d, d]);
    OneChanges(c1, c2, d, WroteFirst(0, CALL), WroteAll(0, CALL, second));
    assert c1.ring[1 := second] == c2.ring;
  }

  lemma PublishLeads(d: Desc)
    ensures Leads(4, Requesting(d)[4], SetHead(0), Requesting(d)[5])
  {
    var c, second := Unused(d), NotifyDesc(CALL, d);
    var c2, c3 := c.(ring := [CopyDesc(CALL), second, d, d]), Called(d, 0, 0);
    OneChanges(c2, c3, d, WroteAll(0, CALL, second), Published(0));
    assert c2.ring == c3.ring && [] + Intended(CALL, second) == c3.submitted && c3.executed == []
      && [] + [CALL] == c3.requests;
  }

  lemma CoreLeads(d: Desc, c: Channel, bell: bool)
    requires |c.ring| == 4 && c.head < 4 && c.tail < 4
    ensures Leads(4, One(c, d, true, Spin, Idle(0)), SeeBell, One(c, d, true, Saw, Idle(0)))
    ensures Leads(4, One(c, d, bell, Saw, Idle(0)), ClearBell, One(c, d, false, Scan(0), Idle(0)))
    ensures c.head != c.tail ==>
      Leads(4, One(c, d, bell, Scan(0), Idle(0)), TestHead, One(c, d, bell, Found(0), Idle(0)))
  {
  }

  lemma RunLeads(d: Desc, k: nat)
    requires k < 2
    ensures Leads(4, One(Called(d, k, k), d, false, Found(0), Idle(0)), RunDesc,
      One(Called(d, k, k + 1), d, false, Ran(0), Idle(0)))
  {
    var c, c' := Called(d, k, k), Called(d, k, k + 1);
    OneChanges(c, c', d, Idle(0), Idle(0));
    assert c.executed + [c.ring[k]] == c'.executed;
  }

  lemma AdvanceLeads(d: Desc)
    ensures Leads(4, One(Called(d, 0, 1), d, false, Ran(0), Idle(0)), AdvanceTail,
      One(Called(d, 1, 1), d, false, Scan(0), Idle(0)))
  {
    OneChanges(Called(d, 0, 1), Called(d, 1, 1), d, Idle(0), Idle(0));
  }

  // A ring of four slots and one request with a callback: the core stores the word y at the address x that an
  // earlier descriptor, or nobody, has left in the slot.
  lemma CallbackStores(x: int, y: int)
    ensures var d := Desc(0, 0, x, 0, y);
      var c := Final(4, [[d, d, d, d], [d, d, d, d]], {0}, REQUEST_STEPS + CORE_STEPS).chans[0];
      && c.requests == [CALL] && Requested(c.requests) == [Copied(1, 2, 3), Interrupted(7)]
      && Performed(c.executed) == [Copied(1, 2, 3), Stored(x, y), Interrupted(7)]
  {
    var d := Desc(0, 0, x, 0, y);
    CallbackRuns(d);
    CallbackDoes(d);
  }

  lemma CallbackRuns(d: Desc)
    ensures Final(4, [[d, d, d, d], [d, d, d, d]], {0}, REQUEST_STEPS + CORE_STEPS) == Running(d)[7]
  {
    hide Leads; hide Requesting; hide Running;
    var memory := [[d, d, d, d], [d, d, d, d]];
    var steps, states := REQUEST_STEPS + CORE_STEPS, Requesting(d) + Running(d);
    StartsRight(d);
    forall i | 0 <= i < 14 ensures Leads(4, states[i], steps[i], states[i + 1]) {
      if i < 7 { RequestLeads(d, i); } else { RunningLeads(d, i - 7); }
    }
    Traced(4, memory, {0}, steps, states);
  }

  lemma RequestLeads(d: Desc, i: nat)
    requires i < 7
    ensures |Requesting(d)| == 7 && |Running(d)| == 8
    ensures Leads(4, Requesting(d)[i], REQUEST_STEPS[i], if i < 6 then Requesting(d)[i + 1] else Running(d)[0])
  {
    hide Leads;
    LockLeads(d, Unused(d));
    WriteLeads(d);
    WriteAgainLeads(d);
    PublishLeads(d);
    BellLeads(d, Called(d, 0, 0));
  }

  lemma RunningLeads(d: Desc, i: nat)
    requires i < 7
    ensures |Running(d)| == 8 && Leads(4, Running(d)[i], CORE_STEPS[i], Running(d)[i + 1])
  {
    hide Leads;
    CoreLeads(d, Called(d, 0, 0), true);
    CoreLeads(d, Called(d, 0, 0), false);
    RunLeads(d, 0);
    AdvanceLeads(d);
    CoreLeads(d, Called(d, 1, 1), false);
    RunLeads(d, 1);
  }

  lemma StartsRight(d: Desc)
    ensures |Requesting(d)| == 7 && |Running(d)| == 8 && Requesting(d)[0] == Init([[d, d, d, d], [d, d, d, d]], {0})
  {
  }

  lemma CallbackDoes(d: Desc)
    requires d.kind == 0
    ensures var c := Running(d)[7].chans[0];
      && c.requests == [CALL] && Requested(c.requests) == [Copied(1, 2, 3), Interrupted(7)]
      && Performed(c.executed) == [Copied(1, 2, 3), Stored(d.param2, d.param4), Interrupted(7)]
  {
    var first, second := CopyDesc(CALL), NotifyDesc(CALL, d);
    IntrIs(7);
    assert [first, second][..2][..1] == [first] && [first][..0] == [] && [CALL][..0] == [];
    assert Performed([first]) == [Copied(1, 2, 3)];
    assert Performed([first, second][..2]) == [Copied(1, 2, 3)] + Effects(second);
  }
}
