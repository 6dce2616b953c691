/**
 The two-sided disconnect handshake of a connected channel, as a step system.

 Each end has a status flag, any number of threads that may call disconnect, a message
 handler, and an inbox of DISCONNECT messages.  A step is one locked flag update, one test
 of the flag, one send, or one pass over the wait list.  A send may fail.  A step that is
 not enabled changes nothing, so every sequence of steps is a schedule.
 */
module IkcDisconnect {

  datatype Flag = Flag(enabled: bool, destroying: bool, acked: bool)
  {
    // ihk_ikc_channel_enabled: the three status bits equal ENABLED alone.
    predicate TestsEnabled() { enabled && !destroying && !acked }
  }

  // A caller of disconnect.  `woken` is the status of its entry in the wait list.
  datatype Thread =
    | Idle
    | Marked(sawAck: bool)
    | Registered(woken: bool)
    | Sent(woken: bool)
    | Sleeping(woken: bool)
    | Returned(busy: bool)
  {
    // Won the right to disconnect and has not sent yet.
    predicate Pending() { Marked? || Registered? }
    predicate Active() { Pending() || Sent? || Sleeping? }
  }

  // WouldSleep is the handler going to sleep on an acknowledgement in interrupt context.
  datatype Handler = Resting | Testing | Calling | Sending | Replying | WouldSleep

  datatype End = End(flag: Flag, threads: map<nat, Thread>, handler: Handler, inbox: nat, sent: nat, failed: bool)

  datatype State = State(host: End, guest: End)

  datatype Action =
    | Enable
    | Call(t: nat)
    | Register(t: nat)
    | Send(t: nat, ok: bool)
    | SendAck(t: nat, ok: bool)
    | Test(t: nat)
    | Wake(t: nat)
    | Deliver
    | HandlerTest
    | HandlerCall
    | HandlerSend(ok: bool)
    | HandlerReply

  datatype Step = OnHost(a: Action) | OnGuest(a: Action)

  function Init(hostThreads: set<nat>, guestThreads: set<nat>): State {
    State(Fresh(hostThreads), Fresh(guestThreads))
  }

  function Fresh(threads: set<nat>): End {
    End(Flag(true, false, false), map t | t in threads :: Idle, Resting, 0, 0, false)
  }

  function SetT(e: End, t: nat, x: Thread): End { e.(threads := e.threads[t := x]) }

  // The locked section of disconnect.
  function Mark(f: Flag): Flag { f.(enabled := false, destroying := true) }

  // Every waiter of this end is woken: the message carries this channel's id.
  function WakeAll(threads: map<nat, Thread>): map<nat, Thread> {
    map t | t in threads ::
      match threads[t]
      case Registered(_) => Registered(true)
      case Sent(_) => Sent(true)
      case Sleeping(_) => Sleeping(true)
      case x => x
  }

  // One action at the end `me`, whose messages go to `peer`.
  function Act(me: End, peer: End, a: Action): (End, End) {
    match a
    case Enable => (me.(flag := me.flag.(enabled := true)), peer)
    case Call(t) =>
      if t !in me.threads || !(me.threads[t].Idle? || me.threads[t].Returned?) then (me, peer)
      else if me.flag.destroying then (SetT(me, t, Returned(true)).(flag := me.flag.(enabled := false)), peer)
      else (SetT(me, t, Marked(me.flag.acked)).(flag := Mark(me.flag)), peer)
    case Register(t) =>
      if t in me.threads && me.threads[t] == Marked(false) then (SetT(me, t, Registered(false)), peer) else (me, peer)
    case Send(t, ok) =>
      if t !in me.threads || !me.threads[t].Registered? then (me, peer)
      else if ok then (SetT(me, t, Sent(me.threads[t].woken)).(sent := me.sent + 1), peer.(inbox := peer.inbox + 1))
      else (SetT(me, t, Returned(true)).(failed := true), peer)
    case SendAck(t, ok) =>
      if t !in me.threads || me.threads[t] != Marked(true) then (me, peer)
      else if ok then (SetT(me, t, Returned(false)).(sent := me.sent + 1), peer.(inbox := peer.inbox + 1))
      else (SetT(me, t, Returned(true)).(failed := true), peer)
    case Test(t) =>
      if t !in me.threads || !me.threads[t].Sent? then (me, peer)
      else (SetT(me, t, if me.flag.acked then Returned(false) else Sleeping(me.threads[t].woken)), peer)
    case Wake(t) =>
      if t in me.threads && me.threads[t] == Sleeping(true) then (SetT(me, t, Returned(false)), peer) else (me, peer)
    case Deliver =>
      if me.handler.Resting? && me.inbox > 0
      then (me.(inbox := me.inbox - 1, handler := Testing, flag := me.flag.(acked := true)), peer) else (me, peer)
    case HandlerTest =>
      if me.handler.Testing? then (me.(handler := if me.flag.destroying then Replying else Calling), peer)
      else (me, peer)
    case HandlerCall =>
      if !me.handler.Calling? then (me, peer)
      else if me.flag.destroying then (me.(handler := Replying, flag := me.flag.(enabled := false)), peer)
      else (me.(handler := if me.flag.acked then Sending else WouldSleep, flag := Mark(me.flag)), peer)
    case HandlerSend(ok) =>
      if !me.handler.Sending? then (me, peer)
      else if ok then (me.(handler := Replying, sent := me.sent + 1), peer.(inbox := peer.inbox + 1))
      else (me.(handler := Replying, failed := true), peer)
    case HandlerReply =>
      if me.handler.Replying? then (me.(handler := Resting, threads := WakeAll(me.threads)), peer) else (me, peer)
  }

  function Apply(s: State, step: Step): State {
    match step
    case OnHost(a) => var (me, peer) := Act(s.host, s.guest, a); State(me, peer)
    case OnGuest(a) => var (me, peer) := Act(s.guest, s.host, a); State(peer, me)
  }

  function Final(s: State, steps: seq<Step>): State {
    if steps == [] then s else Apply(Final(s, steps[..|steps| - 1]), steps[|steps| - 1])
  }

  // ---------- The invariant of one end ----------

  // Exactly one actor owns the disconnect of an end: a thread or the handler, until it has sent or failed.
  ghost predicate OwnerInv(e: End) { SendsOnce(e) && OneThread(e) && ThreadsOwn(e) }

  ghost predicate SendsOnce(e: End) {
    && (!e.flag.destroying ==> e.sent == 0 && !e.failed && !e.handler.Sending?)
    && (e.handler.Sending? ==> e.sent == 0 && !e.failed)
    && (e.failed ==> e.sent == 0)
    && e.sent <= 1
  }

  ghost predicate OneThread(e: End) {
    forall t, u :: t in e.threads && u in e.threads && t != u && e.threads[t].Active() ==> !e.threads[u].Active()
  }

  ghost predicate ThreadsOwn(e: End) {
    && (forall t :: t in e.threads && e.threads[t].Active() ==> e.flag.destroying && !e.handler.Sending?)
    && (forall t :: t in e.threads && e.threads[t].Pending() ==> e.sent == 0 && !e.failed)
    && (forall t :: t in e.threads && e.threads[t] == Marked(true) ==> e.flag.acked)
  }

  // A disconnect that was started is still owned, or was sent, or failed to send.
  ghost predicate StartedInv(e: End) {
    e.flag.destroying ==>
      e.sent == 1 || e.failed || e.handler.Sending? || exists t :: t in e.threads && e.threads[t].Pending()
  }

  // The handler runs only for an acknowledged end, never sleeps, and leaves the end marked.
  ghost predicate HandlerInv(e: End) {
    && (!e.handler.Resting? ==> e.flag.acked)
    && (e.handler.Sending? || e.handler.Replying? || (e.handler.Resting? && e.flag.acked) ==> e.flag.destroying)
    && !e.handler.WouldSleep?
  }

  // A thread asleep with nobody having woken it: the acknowledgement has not been replied to yet.
  ghost predicate SleeperInv(e: End) {
    forall t :: t in e.threads && e.threads[t] == Sleeping(false) ==> e.flag.acked ==> !e.handler.Resting?
  }

  // Each message sent is in the other end's inbox or has acknowledged it.
  ghost predicate MessageInv(sender: End, receiver: End) {
    sender.sent == receiver.inbox + (if receiver.flag.acked then 1 else 0)
  }

  ghost predicate EndInv(e: End) { OwnerInv(e) && StartedInv(e) && HandlerInv(e) && SleeperInv(e) }

  ghost predicate Inv(s: State) {
    EndInv(s.host) && EndInv(s.guest) && MessageInv(s.host, s.guest) && MessageInv(s.guest, s.host)
  }

  lemma ActSendsOnce(me: End, peer: End, a: Action)
    requires SendsOnce(me) && ThreadsOwn(me)
    ensures SendsOnce(Act(me, peer, a).0)
  {
  }

  lemma ActKeepsOneThread(me: End, peer: End, a: Action)
    requires OneThread(me) && ThreadsOwn(me)
    ensures OneThread(Act(me, peer, a).0)
  {
  }

  lemma ActKeepsThreadsOwn(me: End, peer: End, a: Action)
    requires OwnerInv(me) && HandlerInv(me)
    ensures ThreadsOwn(Act(me, peer, a).0)
  {
  }

  lemma ActKeepsHandler(me: End, peer: End, a: Action)
    requires EndInv(me)
    ensures HandlerInv(Act(me, peer, a).0) && SleeperInv(Act(me, peer, a).0)
  {
  }

  lemma ActKeepsStarted(me: End, peer: End, a: Action)
    requires EndInv(me)
    ensures StartedInv(Act(me, peer, a).0)
  {
    var e := Act(me, peer, a).0;
    if t :| t in me.threads && me.threads[t].Pending() {
      if e.threads[t].Pending() {} else {}
    } else if a.Call? && a.t in me.threads {
      if e.threads[a.t].Pending() {}
    }
  }

  lemma ActKeepsMessages(me: End, peer: End, a: Action)
    requires EndInv(me) && EndInv(peer) && MessageInv(me, peer) && MessageInv(peer, me)
    ensures var (me', peer') := Act(me, peer, a);
      MessageInv(me', peer') && MessageInv(peer', me') && EndInv(peer')
  {
  }

  lemma StepKeepsInv(s: State, step: Step)
    requires Inv(s)
    ensures Inv(Apply(s, step))
  {
    hide Act;
    var (me, peer) := if step.OnHost? then (s.host, s.guest) else (s.guest, s.host);
    ActSendsOnce(me, peer, step.a);
    ActKeepsOneThread(me, peer, step.a);
    ActKeepsThreadsOwn(me, peer, step.a);
    ActKeepsHandler(me, peer, step.a);
    ActKeepsStarted(me, peer, step.a);
    ActKeepsMessages(me, peer, step.a);
  }

  lemma {:induction false} EveryScheduleKeepsInv(s: State, steps: seq<Step>)
    requires Inv(s)
    ensures Inv(Final(s, steps))
  {
    if steps != [] {
      EveryScheduleKeepsInv(s, steps[..|steps| - 1]);
      StepKeepsInv(Final(s, steps[..|steps| - 1]), steps[|steps| - 1]);
    }
  }

  // ---------- Main results ----------

  // For every interleaving, an end sends at most one DISCONNECT and its handler never goes to sleep.
  lemma AtMostOneDisconnect(hostThreads: set<nat>, guestThreads: set<nat>, steps: seq<Step>)
    ensures var s := Final(Init(hostThreads, guestThreads), steps);
      s.host.sent <= 1 && s.guest.sent <= 1 && !s.host.handler.WouldSleep? && !s.guest.handler.WouldSleep?
  {
    EveryScheduleKeepsInv(Init(hostThreads, guestThreads), steps);
  }

  // Nothing is left to do at an end: its inbox is empty, its handler rests, and no thread can move.
  ghost predicate Settled(e: End) {
    e.inbox == 0 && e.handler.Resting?
    && forall t :: t in e.threads ==> e.threads[t].Idle? || e.threads[t].Returned? || e.threads[t] == Sleeping(false)
  }

  ghost predicate Quiescent(s: State) { Settled(s.host) && Settled(s.guest) }

  // Rest is exactly the absence of a step that moves the handshake.
  lemma RestIsNoMove(s: State)
    requires Inv(s)
    ensures Quiescent(s) <==> forall step :: !Moves(s, step)
  {
    if !Quiescent(s) {
      if !Settled(s.host) {
        var a := NextMove(s.host, s.guest);
        assert Moves(s, OnHost(a));
      } else {
        var a := NextMove(s.guest, s.host);
        assert Moves(s, OnGuest(a));
      }
    }
  }

  lemma NextMove(me: End, peer: End) returns (a: Action)
    requires EndInv(me) && !Settled(me)
    ensures Act(me, peer, a).0 != me && !a.Enable? && !a.Call?
  {
    if !me.handler.Resting? {
      a := match me.handler
        case Testing => HandlerTest
        case Calling => HandlerCall
        case Sending => HandlerSend(true)
        case _ => HandlerReply;
    } else if me.inbox > 0 {
      a := Deliver;
    } else {
      var t :| t in me.threads && !(me.threads[t].Idle? || me.threads[t].Returned? || me.threads[t] == Sleeping(false));
      a := match me.threads[t]
        case Marked(saw) => if saw then SendAck(t, true) else Register(t)
        case Registered(_) => Send(t, true)
        case Sent(_) => Test(t)
        case _ => Wake(t);
      assert Act(me, peer, a).0.threads[t] != me.threads[t];
    }
  }

  ghost predicate TornDown(e: End) {
    e.flag.destroying && e.flag.acked && forall t :: t in e.threads ==> !e.threads[t].Sleeping?
  }

  // When everything has come to rest after a disconnect, both ends are marked destroying and acknowledged
  // and no thread is left asleep, exactly when no send failed.
  lemma QuiescenceExactly(hostThreads: set<nat>, guestThreads: set<nat>, steps: seq<Step>)
    requires var s := Final(Init(hostThreads, guestThreads), steps);
      Quiescent(s) && (s.host.flag.destroying || s.guest.flag.destroying)
    ensures var s := Final(Init(hostThreads, guestThreads), steps);
      TornDown(s.host) && TornDown(s.guest) <==> !s.host.failed && !s.guest.failed
  {
    EveryScheduleKeepsInv(Init(hostThreads, guestThreads), steps);
  }

  // One caller whose message cannot be sent: all is at rest, and neither end is torn down.
  lemma FailedSendStays()
    ensures var s := Final(Init({0}, {}), [OnHost(Call(0)), OnHost(Register(0)), OnHost(Send(0, false))]);
      Quiescent(s) && s.host.flag.destroying && s.host.failed && !TornDown(s.host) && !TornDown(s.guest)
  {
    var steps := [OnHost(Call(0)), OnHost(Register(0)), OnHost(Send(0, false))];
    var s0 := Init({0}, {});
    var s1 := Apply(s0, steps[0]);
    var s2 := Apply(s1, steps[1]);
    assert s1.host.threads[0] == Marked(false) && s2.host.threads[0] == Registered(false);
    assert steps[..2][..1][..0] == [] && steps[..2][..1] == [steps[0]] && steps[..2] == [steps[0], steps[1]];
    assert Final(s0, steps[..2][..1][..0]) == s0;
    assert Final(s0, steps[..2][..1]) == s1;
    assert Final(s0, steps[..2]) == s2;
  }

  // Once either status bit is set the channel never tests enabled again, whatever is called.
  lemma {:induction false} NeverEnabledAgain(s: State, steps: seq<Step>)
    ensures s.host.flag.destroying || s.host.flag.acked ==> !Final(s, steps).host.flag.TestsEnabled()
    ensures s.guest.flag.destroying || s.guest.flag.acked ==> !Final(s, steps).guest.flag.TestsEnabled()
  {
    BitsOnlyGrow(s, steps);
  }

  lemma {:induction false} BitsOnlyGrow(s: State, steps: seq<Step>)
    ensures BitsKept(s.host, Final(s, steps).host) && BitsKept(s.guest, Final(s, steps).guest)
  {
    if steps != [] {
      hide Act;
      BitsOnlyGrow(s, steps[..|steps| - 1]);
      var m := Final(s, steps[..|steps| - 1]);
      var (me, peer) := if steps[|steps| - 1].OnHost? then (m.host, m.guest) else (m.guest, m.host);
      ActKeepsBits(me, peer, steps[|steps| - 1].a);
    }
  }

  ghost predicate BitsKept(e: End, e': End) {
    (e.flag.destroying ==> e'.flag.destroying) && (e.flag.acked ==> e'.flag.acked)
  }

  lemma ActKeepsBits(me: End, peer: End, a: Action)
    ensures BitsKept(me, Act(me, peer, a).0) && BitsKept(peer, Act(me, peer, a).1)
  {
  }

  // ---------- The handshake is bounded ----------

  const MESSAGE := 6   // what a message in flight may still cause
  const START := 11    // what an end that has not been marked may still cause

  function Weight(x: Thread): nat {
    match x
    case Marked(_) => MESSAGE + 4
    case Registered(_) => MESSAGE + 3
    case Sent(_) => 2
    case Sleeping(_) => 1
    case _ => 0
  }

  function HandlerWeight(h: Handler): nat {
    match h
    case Testing => 4
    case Calling => 3
    case Sending => MESSAGE + 2
    case Replying => 1
    case _ => 0
  }

  ghost function ThreadsWeight(m: map<nat, Thread>): nat {
    if m == map[] then 0 else var t :| t in m; Weight(m[t]) + ThreadsWeight(m - {t})
  }

  ghost function EndWeight(e: End): nat {
    (if e.flag.destroying then 0 else START) + ThreadsWeight(e.threads) + HandlerWeight(e.handler) + MESSAGE * e.inbox
  }

  ghost function StateWeight(s: State): nat { EndWeight(s.host) + EndWeight(s.guest) }

  lemma {:induction false} TakeOut(m: map<nat, Thread>, t: nat)
    requires t in m
    ensures ThreadsWeight(m) == Weight(m[t]) + ThreadsWeight(m - {t})
    decreases m
  {
    var u :| u in m && ThreadsWeight(m) == Weight(m[u]) + ThreadsWeight(m - {u});
    if u != t {
      TakeOut(m - {u}, t);
      TakeOut(m - {t}, u);
      assert m - {u} - {t} == m - {t} - {u};
    }
  }

  lemma Replace(m: map<nat, Thread>, t: nat, x: Thread)
    requires t in m
    ensures ThreadsWeight(m[t := x]) == ThreadsWeight(m) - Weight(m[t]) + Weight(x)
  {
    TakeOut(m, t);
    TakeOut(m[t := x], t);
    assert m[t := x] - {t} == m - {t};
  }

  lemma {:induction false} WakingIsFree(m: map<nat, Thread>)
    ensures ThreadsWeight(WakeAll(m)) == ThreadsWeight(m)
    decreases m
  {
    if m != map[] {
      var t :| t in m;
      TakeOut(m, t);
      TakeOut(WakeAll(m), t);
      assert WakeAll(m) - {t} == WakeAll(m - {t});
      WakingIsFree(m - {t});
    } else {
      assert WakeAll(m) == m;
    }
  }

  // A step that moves the handshake: anything but switching the channel on and the call itself.
  ghost predicate Moves(s: State, step: Step) {
    Apply(s, step) != s && !step.a.Enable? && !step.a.Call?
  }

  ghost predicate Weighed(me: End, peer: End, a: Action) {
    var (me', peer') := Act(me, peer, a);
    EndWeight(me') + EndWeight(peer') + (if (me', peer') != (me, peer) && !a.Enable? && !a.Call? then 1 else 0)
      <= EndWeight(me) + EndWeight(peer)
  }

  predicate OfThread(a: Action) { a.Call? || a.Register? || a.Send? || a.SendAck? || a.Test? || a.Wake? }

  lemma ThreadActWeighs(me: End, peer: End, a: Action)
    requires OfThread(a)
    ensures Weighed(me, peer, a)
  {
    if a.t in me.threads {
      var me' := Act(me, peer, a).0;
      Replace(me.threads, a.t, me'.threads[a.t]);
      assert me.threads[a.t := me.threads[a.t]] == me.threads;
    }
  }

  lemma ActWeighs(me: End, peer: End, a: Action)
    ensures Weighed(me, peer, a)
  {
    if OfThread(a) {
      ThreadActWeighs(me, peer, a);
    } else {
      WakingIsFree(me.threads);
    }
  }

  ghost function MoveCount(s: State, steps: seq<Step>): nat {
    if steps == [] then 0 else
      MoveCount(s, steps[..|steps| - 1]) + if Moves(Final(s, steps[..|steps| - 1]), steps[|steps| - 1]) then 1 else 0
  }

  // However the ends interleave, at most 22 steps move the handshake: it always comes to rest.
  lemma BoundedHandshake(hostThreads: set<nat>, guestThreads: set<nat>, steps: seq<Step>)
    ensures MoveCount(Init(hostThreads, guestThreads), steps) <= 2 * START
  {
    MovesAreWeighed(Init(hostThreads, guestThreads), steps);
    IdleIsFree(Fresh(hostThreads).threads);
    IdleIsFree(Fresh(guestThreads).threads);
  }

  lemma {:induction false} IdleIsFree(m: map<nat, Thread>)
    requires forall t :: t in m ==> m[t].Idle?
    ensures ThreadsWeight(m) == 0
    decreases m
  {
    if m != map[] {
      var t :| t in m;
      TakeOut(m, t);
      IdleIsFree(m - {t});
    }
  }

  lemma {:induction false} MovesAreWeighed(s: State, steps: seq<Step>)
    ensures StateWeight(Final(s, steps)) + MoveCount(s, steps) <= StateWeight(s)
  {
    if steps != [] {
      hide Act; hide EndWeight;
      var m, step := Final(s, steps[..|steps| - 1]), steps[|steps| - 1];
      MovesAreWeighed(s, steps[..|steps| - 1]);
      if step.OnHost? { ActWeighs(m.host, m.guest, step.a); } else { ActWeighs(m.guest, m.host, step.a); }
    }
  }
}
