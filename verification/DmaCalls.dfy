/**
 What callers of the DMA request are told: the calls as an onlooker sees them, from the steps, the locks and the
 descriptors in the rings, and the answer of each of them on every schedule.
 */
module DmaCalls {
  import opened Options
  import opened DmaRing
  import opened DmaEffects

  // A call: what was asked for and where, whether there was room when it looked, and the places its request has
  // got among those passed to the core.
  datatype Call = Call(ch: int, req: Request, room: Option<bool>, places: seq<nat>)

  predicate OnChannel(k: Call) { 0 <= k.ch < CHANNELS }

  ghost function Watch(len: nat, s: State, step: Step, s': State, p: nat, k: Option<Call>): Option<Call>
    requires Shape(len, s) && Shape(len, s')
  {
    if step.Lock? && step.p == p && p in s.requesters && s.requesters[p].Idle?
      && (0 <= step.ch < CHANNELS ==> LockFree(s, step.ch))
    then Some(Call(step.ch, step.req, None, []))
    else if k.None? || s' == s || !OnChannel(k.value) then k
    else
      var c, c' := s.chans[k.value.ch], s'.chans[k.value.ch];
      if step == CheckRoom(p)
      then Some(k.value.(room := Some(|c.submitted| - c.done + k.value.req.Count() <= len - 1)))
      else if step == SetHead(p) && |c'.requests| > |c.requests|
      then Some(k.value.(places := k.value.places + [|c.requests|]))
      else k
  }

  ghost function CallOf(len: nat, memory: seq<seq<Desc>>, requesters: set<nat>, steps: seq<Step>,
      p: nat): (k: Option<Call>)
    requires len >= 1 && |memory| == CHANNELS && |memory[0]| == |memory[1]| == len
  {
    if steps == [] then None
    else
      var n := |steps| - 1;
      var s, s' := Final(len, memory, requesters, steps[..n]), Final(len, memory, requesters, steps);
      Watch(len, s, steps[n], s', p, CallOf(len, memory, requesters, steps[..n], p))
  }

  // The request of the call is with the core, at one place.
  ghost predicate Placed(s: State, k: Call)
    requires |s.chans| == CHANNELS
  {
    && OnChannel(k) && k.room == Some(true) && |k.places| == 1
    && k.places[0] < |s.chans[k.ch].requests| && s.chans[k.ch].requests[k.places[0]] == k.req
  }

  ghost predicate CallOk(s: State, x: Requester, k: Option<Call>)
    requires |s.chans| == CHANNELS
  {
    if k.None? then x == Idle(0)
    else
      match x
      case Idle(answer) =>
        if !OnChannel(k.value) then answer == -EINVAL && k.value.places == []
        else if k.value.room == Some(true) then answer == 0 && Placed(s, k.value)
        else answer == -EBUSY && k.value.room == Some(false) && k.value.places == []
      case Locked(ch, req) => k.value == Call(ch, req, None, [])
      case HasRoom(ch, req) => k.value == Call(ch, req, Some(true), [])
      case WroteFirst(ch, req) => k.value == Call(ch, req, Some(true), [])
      case WroteAll(ch, req, _) => k.value == Call(ch, req, Some(true), [])
      case Published(ch) => k.value.ch == ch && Placed(s, k.value)
      case Ringing(ch) => k.value.ch == ch && Placed(s, k.value)
  }

  predicate OfRequester(step: Step, p: nat) { !OfCore(step) && step.p == p }

  lemma OthersLeave(len: nat, s: State, step: Step, p: nat)
    requires Shape(len, s) && p in s.requesters && !OfRequester(step, p)
    ensures var s' := Apply(len, s, step);
      p in s'.requesters && s'.requesters[p] == s.requesters[p] && |s'.chans| == CHANNELS
    ensures var s' := Apply(len, s, step); forall i :: 0 <= i < CHANNELS ==> s.chans[i].requests <= s'.chans[i].requests
  {
  }

  lemma LookStep(len: nat, s: State, step: Step, p: nat, k: Option<Call>)
    requires Shape(len, s) && p in s.requesters && step.CheckRoom? && step.p == p && CallOk(s, s.requesters[p], k)
    requires forall i :: 0 <= i < CHANNELS ==> CountsOk(len, s.chans[i])
    ensures var s' := Apply(len, s, step);
      p in s'.requesters && CallOk(s', s'.requesters[p], Watch(len, s, step, s', p, k))
  {
    hide CountsOk; hide Room; hide Intended;
    var r := s.requesters[p];
    if r.Locked? { RoomExactly(len, s.chans[r.ch], r.req.Count()); }
  }

  lemma OwnStep(len: nat, s: State, step: Step, p: nat, k: Option<Call>)
    requires Shape(len, s) && p in s.requesters && OfRequester(step, p) && CallOk(s, s.requesters[p], k)
    requires forall i :: 0 <= i < CHANNELS ==> CountsOk(len, s.chans[i])
    ensures var s' := Apply(len, s, step);
      p in s'.requesters && CallOk(s', s'.requesters[p], Watch(len, s, step, s', p, k))
  {
    hide CountsOk; hide Room; hide Intended;
    if step.CheckRoom? {
      hide Apply; hide CallOk; hide Watch;
      LookStep(len, s, step, p, k);
    }
  }

  lemma OtherStep(len: nat, s: State, step: Step, p: nat, k: Option<Call>)
    requires Shape(len, s) && p in s.requesters && !OfRequester(step, p) && CallOk(s, s.requesters[p], k)
    ensures var s' := Apply(len, s, step);
      p in s'.requesters && CallOk(s', s'.requesters[p], Watch(len, s, step, s', p, k))
  {
    hide Apply;
    OthersLeave(len, s, step, p);
  }

  // On every schedule a call for a channel has returned 0, with its request at exactly one place among those
  // passed to the core, if and only if there was room for it when it looked, and busy otherwise.
  lemma {:induction false} EveryCallOk(len: nat, memory: seq<seq<Desc>>, requesters: set<nat>, steps: seq<Step>, p: nat)
    requires len >= 1 && |memory| == CHANNELS && |memory[0]| == |memory[1]| == len && p in requesters
    ensures var s := Final(len, memory, requesters, steps);
      p in s.requesters && CallOk(s, s.requesters[p], CallOf(len, memory, requesters, steps, p))
  {
    if steps != [] {
      hide Apply; hide CallOk; hide Watch; hide Inv;
      var n := |steps| - 1;
      var s, k := Final(len, memory, requesters, steps[..n]), CallOf(len, memory, requesters, steps[..n], p);
      EveryCallOk(len, memory, requesters, steps[..n], p);
      EveryScheduleKeepsInv(len, memory, requesters, steps[..n]);
      InvCounts(len, s);
      if OfRequester(steps[n], p) { OwnStep(len, s, steps[n], p, k); } else { OtherStep(len, s, steps[n], p, k); }
    }
  }

  lemma InvCounts(len: nat, s: State)
    requires Inv(len, s)
    ensures Shape(len, s) && forall i :: 0 <= i < CHANNELS ==> CountsOk(len, s.chans[i])
  {
  }

  // ---------- Which requests the core is given ----------

  // Who put each request of a channel there.
  ghost function Owners(len: nat, memory: seq<seq<Desc>>, requesters: set<nat>, steps: seq<Step>,
      i: nat): (os: seq<nat>)
    requires len >= 1 && |memory| == CHANNELS && |memory[0]| == |memory[1]| == len && i < CHANNELS
  {
    if steps == [] then []
    else
      var n := |steps| - 1;
      var s, s' := Final(len, memory, requesters, steps[..n]), Final(len, memory, requesters, steps);
      var os := Owners(len, memory, requesters, steps[..n], i);
      if |s'.chans[i].requests| == |s.chans[i].requests| || OfCore(steps[n]) then os else os + [steps[n].p]
  }

  // The requests that a requester put on a channel with calls that have returned 0, in order.
  ghost function Granted(len: nat, memory: seq<seq<Desc>>, requesters: set<nat>, steps: seq<Step>, p: nat,
      i: nat): (rs: seq<Request>)
    requires len >= 1 && |memory| == CHANNELS && |memory[0]| == |memory[1]| == len && i < CHANNELS
  {
    if steps == [] then []
    else
      var n := |steps| - 1;
      var s, s' := Final(len, memory, requesters, steps[..n]), Final(len, memory, requesters, steps);
      var rs, k := Granted(len, memory, requesters, steps[..n], p, i), CallOf(len, memory, requesters, steps, p);
      if Returns(s, s', p) && k.Some? && k.value.ch == i then rs + [k.value.req] else rs
  }

  ghost predicate Returns(s: State, s': State, p: nat) {
    p in s.requesters && p in s'.requesters && !s.requesters[p].Idle? && s'.requesters[p] == Idle(0)
  }

  // What one owner has among the requests.
  function Own(rs: seq<Request>, os: seq<nat>, p: nat): (r: seq<Request>)
    requires |rs| == |os|
  {
    if rs == [] then []
    else
      var n := |rs| - 1;
      Own(rs[..n], os[..n], p) + if os[n] == p then [rs[n]] else []
  }

  // The request of a call that is with the core but has not returned.
  ghost function Returning(x: Requester, k: Option<Call>, i: nat): seq<Request> {
    if (x.Published? || x.Ringing?) && x.ch == i && k.Some? then [k.value.req] else []
  }

  lemma OwnNext(rs: seq<Request>, os: seq<nat>, r: Request, q: nat, p: nat)
    requires |rs| == |os|
    ensures Own(rs + [r], os + [q], p) == Own(rs, os, p) + if q == p then [r] else []
  {
    assert (rs + [r])[..|rs|] == rs && (os + [q])[..|os|] == os;
  }

  // A channel's requests grow only by the request of the call that publishes.
  lemma GrowStep(len: nat, s: State, step: Step, i: nat)
    requires Shape(len, s) && i < CHANNELS
    ensures Grows(s, step, Apply(len, s, step), i)
  {
  }

  predicate Publishes(s: State, step: Step, i: nat) {
    step.SetHead? && step.p in s.requesters && s.requesters[step.p].WroteAll? && s.requesters[step.p].ch == i
  }

  ghost predicate Grows(s: State, step: Step, s': State, i: nat)
    requires |s.chans| == |s'.chans| == CHANNELS && i < CHANNELS
  {
    if Publishes(s, step, i) then
      && s'.chans[i].requests == s.chans[i].requests + [s.requesters[step.p].req]
      && step.p in s'.requesters && s'.requesters[step.p] == Published(i)
    else s'.chans[i].requests == s.chans[i].requests
  }

  predicate WithCore(x: Requester) { x.Published? || x.Ringing? }

  // How a requester's place in its call changes with a step.
  ghost predicate Phase(x: Requester, step: Step, x': Requester, p: nat) {
    if WithCore(x) then x' == Idle(0) || (WithCore(x') && x'.ch == x.ch)
    else
      && (WithCore(x') ==> step == SetHead(p) && x.WroteAll? && x'.ch == x.ch)
      && (x' == Idle(0) ==> x == x')
  }

  lemma PhaseStep(len: nat, s: State, step: Step, p: nat)
    requires Shape(len, s) && p in s.requesters
    ensures var s' := Apply(len, s, step); p in s'.requesters && Phase(s.requesters[p], step, s'.requesters[p], p)
  {
  }

  // While a call is under way it stays the same call.
  lemma SameCall(len: nat, s: State, step: Step, s': State, p: nat, k: Option<Call>)
    requires Shape(len, s) && Shape(len, s') && p in s.requesters && !s.requesters[p].Idle? && k.Some?
    ensures var k' := Watch(len, s, step, s', p, k);
      k'.Some? && k'.value.ch == k.value.ch && k'.value.req == k.value.req
  {
  }

  ghost predicate Matching(rs: seq<Request>, os: seq<nat>, granted: seq<Request>, x: Requester, k: Option<Call>,
      p: nat, i: nat) {
    |os| == |rs| && Own(rs, os, p) == granted + Returning(x, k, i)
  }

  lemma NoGrowth(rs: seq<Request>, os: seq<nat>, granted: seq<Request>, x: Requester, k: Option<Call>, x': Requester,
      k': Option<Call>, p: nat, i: nat, step: Step)
    requires Matching(rs, os, granted, x, k, p, i) && Phase(x, step, x', p)
    requires WithCore(x) ==> k.Some? && k'.Some? && k'.value.ch == k.value.ch == x.ch && k'.value.req == k.value.req
    requires WithCore(x') && !WithCore(x) ==> x'.ch != i
    ensures Matching(rs, os,
      granted +
        (if !x.Idle? && x' == Idle(0) && k'.Some? && k'.value.ch == i then [k'.value.req] else []), x', k', p, i)
  {
  }

  lemma Growth(rs: seq<Request>, os: seq<nat>, granted: seq<Request>, x: Requester, k: Option<Call>, x': Requester,
      k': Option<Call>, p: nat, i: nat, r: Request, q: nat)
    requires Matching(rs, os, granted, x, k, p, i)
    requires if q == p then x.WroteAll? && x' == Published(i) && k'.Some? && k'.value.req == r
             else x' == x && (WithCore(x) ==> k.Some? && k'.Some? && k'.value.req == k.value.req)
    ensures Matching(rs + [r], os + [q], granted, x', k', p, i)
  {
    OwnNext(rs, os, r, q, p);
  }

  lemma CallPhases(len: nat, memory: seq<seq<Desc>>, requesters: set<nat>, steps: seq<Step>, p: nat)
    requires len >= 1 && |memory| == CHANNELS && |memory[0]| == |memory[1]| == len && p in requesters && steps != []
    ensures var n := |steps| - 1;
      var s := Final(len, memory, requesters, steps[..n]);
      var k, k' := CallOf(len, memory, requesters, steps[..n], p), CallOf(len, memory, requesters, steps, p);
      p in s.requesters && Follows(s.requesters[p], k, k')
  {
    hide Apply; hide Watch;
    var n := |steps| - 1;
    var s, s' := Final(len, memory, requesters, steps[..n]), Final(len, memory, requesters, steps);
    var k := CallOf(len, memory, requesters, steps[..n], p);
    EveryCallOk(len, memory, requesters, steps[..n], p);
    if !s.requesters[p].Idle? { SameCall(len, s, steps[n], s', p, k); }
  }

  ghost predicate Follows(x: Requester, k: Option<Call>, k': Option<Call>) {
    !x.Idle? ==>
      && k.Some? && k'.Some? && k'.value.ch == k.value.ch == x.ch && k'.value.req == k.value.req
      && (x.WroteAll? ==> k.value.req == x.req)
  }

  // On every schedule the requests of a channel are those of calls that were granted, and of calls that will be,
  // each caller's in the order of its calls.
  lemma {:induction false} RequestsAreCalls(len: nat, memory: seq<seq<Desc>>, requesters: set<nat>, steps: seq<Step>,
      p: nat, i: nat)
    requires len >= 1 && |memory| == CHANNELS && |memory[0]| == |memory[1]| == len && p in requesters && i < CHANNELS
    ensures var s := Final(len, memory, requesters, steps);
      p in s.requesters && Matching(s.chans[i].requests, Owners(len, memory, requesters, steps, i),
        Granted(len, memory, requesters, steps, p, i), s.requesters[p], CallOf(len, memory, requesters, steps, p), p, i)
  {
    if steps != [] {
      hide Apply; hide CallOf; hide Matching; hide Phase; hide Own;
      var n := |steps| - 1;
      var s, s', step := Final(len, memory, requesters, steps[..n]), Final(len, memory, requesters, steps), steps[n];
      RequestsAreCalls(len, memory, requesters, steps[..n], p, i);
      CallPhases(len, memory, requesters, steps, p);
      GrowStep(len, s, step, i);
      PhaseStep(len, s, step, p);
      var rs, os := s.chans[i].requests, Owners(len, memory, requesters, steps[..n], i);
      var granted := Granted(len, memory, requesters, steps[..n], p, i);
      var k, k' := CallOf(len, memory, requesters, steps[..n], p), CallOf(len, memory, requesters, steps, p);
      var x, x' := s.requesters[p], s'.requesters[p];
      if !Publishes(s, step, i) {
        NoGrowth(rs, os, granted, x, k, x', k', p, i, step);
      } else {
        if step.p != p { OthersLeave(len, s, step, p); }
        Growth(rs, os, granted, x, k, x', k', p, i, s.requesters[step.p].req, step.p);
      }
    } else {
      hide Apply;
    }
  }

  ghost predicate AtRest(s: State) {
    s.core.Spin? && !s.doorbell && forall p :: p in s.requesters ==> s.requesters[p].Idle?
  }

  // When everybody has returned and the core spins on a clear doorbell, the core has been given exactly the
  // requests that were answered with 0, each caller's in the order of its calls, and it has done them all.
  lemma GrantedAreDone(len: nat, memory: seq<seq<Desc>>, requesters: set<nat>, steps: seq<Step>, p: nat, i: nat)
    requires len >= 1 && |memory| == CHANNELS && |memory[0]| == |memory[1]| == len && p in requesters && i < CHANNELS
    requires AtRest(Final(len, memory, requesters, steps))
    ensures var c, os := Final(len, memory, requesters, steps).chans[i], Owners(len, memory, requesters, steps, i);
      && |os| == |c.requests| && Own(c.requests, os, p) == Granted(len, memory, requesters, steps, p, i)
      && c.executed == c.submitted
      && (Performed(c.executed) == Requested(c.requests) <==>
        forall k :: 0 <= k < |c.requests| ==> !c.requests[k].callback)
  {
    hide Apply; hide Final; hide Owners; hide Granted; hide CallOf; hide Performed; hide Requested;
    RequestsAreCalls(len, memory, requesters, steps, p, i);
    NothingStranded(len, memory, requesters, steps, i);
    AllDoneExactly(len, memory, requesters, steps, i);
  }

  // ---------- Nobody is stuck ----------

  function NextOf(x: Requester, p: nat): Step {
    match x
    case Locked(_, _) => CheckRoom(p)
    case HasRoom(_, _) => WriteFirst(p)
    case WroteFirst(_, _) => WriteSecond(p)
    case WroteAll(_, _, _) => SetHead(p)
    case Published(_) => Unlock(p)
    case _ => RingBell(p)
  }

  function NextCore(core: Core): Step {
    match core
    case Spin => SeeBell
    case Saw => ClearBell
    case Scan(_) => TestHead
    case Found(_) => RunDesc
    case Ran(_) => AdvanceTail
  }

  lemma CallMoves(len: nat, s: State, p: nat)
    requires Shape(len, s) && p in s.requesters && !s.requesters[p].Idle?
    ensures var s' := Apply(len, s, NextOf(s.requesters[p], p));
      p in s'.requesters && s'.requesters[p] != s.requesters[p]
  {
  }

  lemma CoreMoves(len: nat, s: State)
    requires Shape(len, s) && (s.core.Found? || s.core.Ran? ==> s.core.i < CHANNELS) && (s.core.Spin? ==> s.doorbell)
    ensures Apply(len, s, NextCore(s.core)).core != s.core
  {
  }

  // On every schedule a call under way goes on by itself, and so does the core unless it spins on a clear bell.
  lemma NobodyStuck(len: nat, memory: seq<seq<Desc>>, requesters: set<nat>, steps: seq<Step>)
    requires len >= 1 && |memory| == CHANNELS && |memory[0]| == |memory[1]| == len
    ensures var s := Final(len, memory, requesters, steps);
      && (forall p :: p in s.requesters && !s.requesters[p].Idle? ==> GoesOn(len, s, p))
      && ((s.core.Spin? && !s.doorbell) || Apply(len, s, NextCore(s.core)).core != s.core)
  {
    hide Apply; hide Final;
    var s := Final(len, memory, requesters, steps);
    EveryScheduleKeepsInv(len, memory, requesters, steps);
    forall p | p in s.requesters && !s.requesters[p].Idle? ensures GoesOn(len, s, p) {
      CallMoves(len, s, p);
    }
    if !(s.core.Spin? && !s.doorbell) { CoreMoves(len, s); }
  }

  ghost predicate GoesOn(len: nat, s: State, p: nat)
    requires Shape(len, s) && p in s.requesters
  {
    var s' := Apply(len, s, NextOf(s.requesters[p], p));
    p in s'.requesters && s'.requesters[p] != s.requesters[p]
  }
}
