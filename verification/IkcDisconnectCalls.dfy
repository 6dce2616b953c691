/**
 What callers of disconnect are told: the calls as an onlooker sees them, from the steps, the flag word and the
 count of messages sent, and the answer of each of them on every schedule.
 */
module IkcDisconnectCalls {
  import opened Options
  import opened IkcDisconnect

  // A call: the two status bits when it was made, whether it set the first of them, whether its message went out
  // once it tried to send one, and whether the end was acknowledged when it returned.
  datatype Attempt = Attempt(wasDestroying: bool, wasAcked: bool, marked: bool, sent: Option<bool>, ackedAtEnd: bool)

  predicate MayCall(x: Thread) { x.Idle? || x.Returned? }

  // What a step at its own end shows of a thread's latest call.
  ghost function Watch(e: End, a: Action, e': End, t: nat, k: Option<Attempt>): Option<Attempt> {
    if a == Call(t) && t in e.threads && MayCall(e.threads[t])
    then Some(Attempt(e.flag.destroying, e.flag.acked, e'.flag.destroying && !e.flag.destroying, None, e'.flag.acked))
    else if k.None? || e' == e then k
    else
      var sent := if SendsFor(a, t) then Some(e'.sent == e.sent + 1) else k.value.sent;
      Some(k.value.(sent := sent, ackedAtEnd := if Returning(e, e', t) then e'.flag.acked else k.value.ackedAtEnd))
  }

  predicate SendsFor(a: Action, t: nat) { (a.Send? || a.SendAck?) && a.t == t }

  ghost predicate Returning(e: End, e': End, t: nat) {
    t in e.threads && t in e'.threads && !e.threads[t].Returned? && e'.threads[t].Returned?
  }

  // The end a step belongs to, and that end before and after.
  function EndOf(s: State, host: bool): End { if host then s.host else s.guest }

  ghost function CallOf(s0: State, steps: seq<Step>, host: bool, t: nat): (k: Option<Attempt>) {
    if steps == [] then None
    else
      var n := |steps| - 1;
      var k := CallOf(s0, steps[..n], host, t);
      if steps[n].OnHost? != host then k
      else Watch(EndOf(Final(s0, steps[..n]), host), steps[n].a, EndOf(Final(s0, steps), host), t, k)
  }

  // Success: the call marked the end itself, its message was sent, and the end was acknowledged by the other side,
  // before the call or by the time it returned.
  ghost predicate Succeeded(k: Attempt) {
    k.marked && k.sent == Some(true) && (k.wasAcked || k.ackedAtEnd)
  }

  // Busy: the end was being torn down already, or the message could not be sent.
  ghost predicate Refused(k: Attempt) { k.wasDestroying || k.sent == Some(false) }

  ghost predicate CallOk(e: End, x: Thread, k: Option<Attempt>) {
    if k.None? then x == Idle
    else
      && (k.value.marked <==> !k.value.wasDestroying)
      && match x
         case Idle => false
         case Returned(busy) => (busy <==> Refused(k.value)) && (!busy <==> Succeeded(k.value))
         case Marked(saw) => k.value.marked && k.value.sent == None && saw == k.value.wasAcked
         case Registered(woken) => k.value.marked && k.value.sent == None && (woken ==> e.flag.acked)
         case Sent(woken) => k.value.marked && k.value.sent == Some(true) && (woken ==> e.flag.acked)
         case Sleeping(woken) => k.value.marked && k.value.sent == Some(true) && (woken ==> e.flag.acked)
  }

  lemma ThreadStep(me: End, peer: End, a: Action, t: nat, k: Option<Attempt>)
    requires t in me.threads && CallOk(me, me.threads[t], k) && OfThread(a) && a.t == t
    ensures var me' := Act(me, peer, a).0; t in me'.threads && CallOk(me', me'.threads[t], Watch(me, a, me', t, k))
  {
  }

  // The steps of others leave the thread alone or wake it.
  lemma OthersLeave(me: End, peer: End, a: Action, t: nat)
    requires t in me.threads && !(OfThread(a) && a.t == t)
    ensures var me' := Act(me, peer, a).0;
      && t in me'.threads && (me.flag.acked ==> me'.flag.acked)
      && (me'.threads[t] == me.threads[t] || (me.handler.Replying? && me'.threads[t] == WakeAll(me.threads)[t]))
  {
  }

  lemma OwnStep(me: End, peer: End, a: Action, t: nat, k: Option<Attempt>)
    requires HandlerInv(me) && t in me.threads && CallOk(me, me.threads[t], k)
    ensures var me' := Act(me, peer, a).0; t in me'.threads && CallOk(me', me'.threads[t], Watch(me, a, me', t, k))
  {
    hide Act;
    if OfThread(a) && a.t == t { ThreadStep(me, peer, a, t, k); } else { OthersLeave(me, peer, a, t); }
  }

  // A step of the other end changes nothing but the inbox.
  lemma PeerStep(me: End, peer: End, a: Action)
    ensures var peer' := Act(me, peer, a).1; peer' == peer.(inbox := peer'.inbox)
  {
  }

  // On every schedule a call has returned success if and only if it marked the end, sent its message and was
  // acknowledged, and busy if and only if the end was already marked or its message could not be sent.
  lemma {:induction false} EveryCallOk(hostThreads: set<nat>, guestThreads: set<nat>, steps: seq<Step>, host: bool,
      t: nat)
    requires t in if host then hostThreads else guestThreads
    ensures var s0 := Init(hostThreads, guestThreads);
      var e := EndOf(Final(s0, steps), host);
      t in e.threads && CallOk(e, e.threads[t], CallOf(s0, steps, host, t))
  {
    var s0 := Init(hostThreads, guestThreads);
    if steps != [] {
      hide Act; hide CallOk; hide Watch; hide Inv;
      var n := |steps| - 1;
      var s, a := Final(s0, steps[..n]), steps[n].a;
      var (me, peer) := if steps[n].OnHost? then (s.host, s.guest) else (s.guest, s.host);
      EveryCallOk(hostThreads, guestThreads, steps[..n], host, t);
      InitInv(hostThreads, guestThreads);
      EveryScheduleKeepsInv(s0, steps[..n]);
      InvHandlers(s);
      if steps[n].OnHost? == host {
        OwnStep(me, peer, a, t, CallOf(s0, steps[..n], host, t));
      } else {
        PeerStep(me, peer, a);
        InboxFrame(peer, Act(me, peer, a).1, t, CallOf(s0, steps[..n], host, t));
      }
    }
  }

  lemma InitInv(hostThreads: set<nat>, guestThreads: set<nat>)
    ensures Inv(Init(hostThreads, guestThreads))
  {
  }

  lemma InvHandlers(s: State)
    requires Inv(s)
    ensures HandlerInv(s.host) && HandlerInv(s.guest)
  {
  }

  lemma InboxFrame(e: End, e': End, t: nat, k: Option<Attempt>)
    requires e' == e.(inbox := e'.inbox) && t in e.threads && CallOk(e, e.threads[t], k)
    ensures CallOk(e', e'.threads[t], k)
  {
  }

  // ---------- When the channel is switched on ----------

  // A step by which a disconnect begins, for a caller or in the handler.
  predicate Disconnects(e: End, a: Action) {
    (a.Call? && a.t in e.threads && MayCall(e.threads[a.t])) || (a.HandlerCall? && e.handler.Calling?)
  }

  // Whether the channel has been switched on since the last disconnect began.
  ghost function SwitchedOn(s0: State, steps: seq<Step>, host: bool): bool {
    if steps == [] then true
    else
      var n := |steps| - 1;
      var step := steps[n];
      if step.OnHost? != host then SwitchedOn(s0, steps[..n], host)
      else if step.a.Enable? then true
      else if Disconnects(EndOf(Final(s0, steps[..n]), host), step.a) then false
      else SwitchedOn(s0, steps[..n], host)
  }

  lemma EnabledStep(me: End, peer: End, a: Action)
    requires HandlerInv(me)
    ensures Act(me, peer, a).0.flag.enabled == (a.Enable? || (me.flag.enabled && !Disconnects(me, a)))
  {
  }

  lemma {:induction false} EnabledExactly(hostThreads: set<nat>, guestThreads: set<nat>, steps: seq<Step>, host: bool)
    ensures var s0 := Init(hostThreads, guestThreads);
      EndOf(Final(s0, steps), host).flag.enabled <==> SwitchedOn(s0, steps, host)
  {
    var s0 := Init(hostThreads, guestThreads);
    if steps != [] {
      hide Act; hide Inv; hide Disconnects;
      var n := |steps| - 1;
      var s, a := Final(s0, steps[..n]), steps[n].a;
      var (me, peer) := if steps[n].OnHost? then (s.host, s.guest) else (s.guest, s.host);
      EnabledExactly(hostThreads, guestThreads, steps[..n], host);
      InitInv(hostThreads, guestThreads);
      EveryScheduleKeepsInv(s0, steps[..n]);
      InvHandlers(s);
      EnabledStep(me, peer, a);
      PeerStep(me, peer, a);
    }
  }

  predicate TakesMessage(e: End, a: Action) { a.Deliver? && e.handler.Resting? && e.inbox > 0 }

  // Whether a disconnect has begun at an end, or the other's message has arrived there.
  ghost predicate Touched(s0: State, steps: seq<Step>, host: bool) {
    steps != [] &&
    var n := |steps| - 1;
    var e := EndOf(Final(s0, steps[..n]), host);
    Touched(s0, steps[..n], host)
      || (steps[n].OnHost? == host && (Disconnects(e, steps[n].a) || TakesMessage(e, steps[n].a)))
  }

  lemma TouchStep(me: End, peer: End, a: Action)
    requires HandlerInv(me)
    requires me.flag.destroying || me.flag.acked || me.flag.enabled
    ensures var f := Act(me, peer, a).0.flag;
      && (f.destroying || f.acked <==> me.flag.destroying || me.flag.acked || Disconnects(me, a) || TakesMessage(me, a))
      && (f.destroying || f.acked || f.enabled)
  {
  }

  // A channel tests enabled for as long as no disconnect has begun and no message of the other end has arrived.
  lemma {:induction false} TestsEnabledExactly(hostThreads: set<nat>, guestThreads: set<nat>, steps: seq<Step>,
      host: bool)
    ensures var s0 := Init(hostThreads, guestThreads);
      var f := EndOf(Final(s0, steps), host).flag;
      && (f.TestsEnabled() <==> !Touched(s0, steps, host))
      && (f.destroying || f.acked <==> Touched(s0, steps, host)) && (f.destroying || f.acked || f.enabled)
  {
    var s0 := Init(hostThreads, guestThreads);
    if steps != [] {
      hide Act; hide Inv; hide Disconnects; hide TakesMessage;
      var n := |steps| - 1;
      var s, a := Final(s0, steps[..n]), steps[n].a;
      var (me, peer) := if steps[n].OnHost? then (s.host, s.guest) else (s.guest, s.host);
      TestsEnabledExactly(hostThreads, guestThreads, steps[..n], host);
      InitInv(hostThreads, guestThreads);
      EveryScheduleKeepsInv(s0, steps[..n]);
      InvHandlers(s);
      if steps[n].OnHost? == host { TouchStep(me, peer, a); } else { PeerStep(me, peer, a); }
    }
  }

  // ---------- When the handler disconnects by itself ----------

  // The first status bit as the handler last tested it.
  ghost function Tested(s0: State, steps: seq<Step>, host: bool): Option<bool> {
    if steps == [] then None
    else
      var n := |steps| - 1;
      var e := EndOf(Final(s0, steps[..n]), host);
      if steps[n].OnHost? == host && steps[n].a.HandlerTest? && e.handler.Testing? then Some(e.flag.destroying)
      else Tested(s0, steps[..n], host)
  }

  ghost predicate HandlerOk(h: Handler, tested: Option<bool>) {
    && (h.Calling? || h.Sending? ==> tested == Some(false))
    && (h.Replying? ==> tested.Some?)
  }

  lemma HandlerStep(me: End, peer: End, a: Action, tested: Option<bool>)
    requires HandlerOk(me.handler, tested)
    ensures HandlerOk(Act(me, peer, a).0.handler,
      if a.HandlerTest? && me.handler.Testing? then Some(me.flag.destroying) else tested)
  {
  }

  // On every schedule the handler disconnects only an end that nobody was tearing down when it looked.
  lemma {:induction false} EveryHandlerOk(hostThreads: set<nat>, guestThreads: set<nat>, steps: seq<Step>, host: bool)
    ensures var s0 := Init(hostThreads, guestThreads);
      HandlerOk(EndOf(Final(s0, steps), host).handler, Tested(s0, steps, host))
  {
    var s0 := Init(hostThreads, guestThreads);
    if steps != [] {
      hide Act; hide HandlerOk;
      var n := |steps| - 1;
      var s, a := Final(s0, steps[..n]), steps[n].a;
      var (me, peer) := if steps[n].OnHost? then (s.host, s.guest) else (s.guest, s.host);
      EveryHandlerOk(hostThreads, guestThreads, steps[..n], host);
      if steps[n].OnHost? == host {
        HandlerStep(me, peer, a, Tested(s0, steps[..n], host));
      } else {
        PeerStep(me, peer, a);
      }
    }
  }
}
