/**
 Which connects succeed, on every schedule of the connect protocol: a request is given a channel of the other side
 exactly when it passed all tests and its listener agreed, and every answer ends its connect.
 */
module IkcConnectVerdicts {
  import opened Options
  import opened IkcConnect
  import opened IkcConnectCodes

  // ---------- Who is accepted ----------

  ghost predicate OwnedByThread(s: Side, va: nat) {
    exists t :: t in s.threads && s.threads[t].Owns() && s.threads[t].va == va
  }

  // A channel that is switched on and belongs to no connect of its own side: it was accepted for the request.
  ghost predicate AcceptedAt(s: Side, vb: nat, id: nat) {
    vb in s.descs && s.descs[vb].enabled && s.descs[vb].remoteId == id && !OwnedByThread(s, vb)
  }

  ghost predicate AcceptedFor(s: Side, id: nat) { exists vb :: AcceptedAt(s, vb, id) }

  // A request gets an enabled peer if and only if it was judged fine.
  ghost predicate Verdicts(me: Side, peer: Side) {
    && (forall id :: id in me.log.judged ==> (Fine(me.log.judged[id]) <==> AcceptedFor(peer, id)))
    && (forall vb, id :: AcceptedAt(peer, vb, id) ==> id in me.log.judged)
  }

  ghost predicate SameAccepted(s: Side, s': Side) {
    forall vb, id :: AcceptedAt(s', vb, id) <==> AcceptedAt(s, vb, id)
  }

  lemma VerdictsFrame(me: Side, peer: Side, me': Side, peer': Side)
    requires Verdicts(me, peer) && me'.log.judged == me.log.judged && SameAccepted(peer, peer')
    ensures Verdicts(me', peer')
  {
    hide AcceptedAt; hide Fine;
    forall id | id in me'.log.judged ensures Fine(me'.log.judged[id]) <==> AcceptedFor(peer', id) {
      if AcceptedFor(peer, id) {
        var vb :| AcceptedAt(peer, vb, id);
        assert AcceptedAt(peer', vb, id);
      }
      if AcceptedFor(peer', id) {
        var vb :| AcceptedAt(peer', vb, id);
        assert AcceptedAt(peer, vb, id);
      }
    }
  }

  // Threads own the same descriptors, and those that nobody owns are the same.
  lemma SameOwners(s: Side, s': Side)
    requires forall va :: OwnedByThread(s', va) <==> OwnedByThread(s, va)
    requires forall va :: !OwnedByThread(s, va) ==>
      (va in s'.descs <==> va in s.descs) && (va in s.descs ==> s'.descs[va] == s.descs[va])
    ensures SameAccepted(s, s')
  {
    hide OwnedByThread;
  }

  lemma SameThreadOwners(s: Side, s': Side)
    requires s'.threads.Keys == s.threads.Keys && s'.descs == s.descs
    requires forall t :: t in s.threads ==>
      (s'.threads[t].Owns() <==> s.threads[t].Owns()) && (s.threads[t].Owns() ==> s'.threads[t].va == s.threads[t].va)
    ensures SameAccepted(s, s')
  {
    forall va ensures OwnedByThread(s', va) <==> OwnedByThread(s, va) {
      if t :| t in s.threads && s.threads[t].Owns() && s.threads[t].va == va {
        assert t in s'.threads && s'.threads[t].Owns();
      }
      if t :| t in s'.threads && s'.threads[t].Owns() && s'.threads[t].va == va {
        assert t in s.threads && s.threads[t].Owns();
      }
    }
    SameOwners(s, s');
  }

  lemma CreateAccepted(w: World, t: nat, params: Params, va: nat, phys: nat)
    requires t in w.me.threads && !w.me.threads[t].Owns() && FreshVa(w.me, va) && ThreadsOk(w.me)
    ensures SameAccepted(w.me, DoCreate(w, t, params, va, phys).me)
  {
    var s, s' := w.me, DoCreate(w, t, params, va, phys).me;
    forall vb, id ensures AcceptedAt(s', vb, id) <==> AcceptedAt(s, vb, id) {
      assert s'.threads[t].Owns();
      if vb == va { assert OwnedByThread(s', vb); } else { OtherOwner(s, s', t, vb); }
    }
  }

  // A change of one thread does not matter to a descriptor that it owns neither before nor after.
  lemma OtherOwner(s: Side, s': Side, t: nat, vb: nat)
    requires t in s.threads && t in s'.threads && s'.threads == s.threads[t := s'.threads[t]]
    requires s.threads[t].Owns() ==> s.threads[t].va != vb
    requires s'.threads[t].Owns() ==> s'.threads[t].va != vb
    ensures OwnedByThread(s', vb) <==> OwnedByThread(s, vb)
  {
    if u :| u in s.threads && s.threads[u].Owns() && s.threads[u].va == vb {
      assert u in s'.threads && s'.threads[u] == s.threads[u];
    }
    if u :| u in s'.threads && s'.threads[u].Owns() && s'.threads[u].va == vb {
      assert u in s.threads && s'.threads[u] == s.threads[u];
    }
  }

  lemma FailAccepted(w: World, t: nat, code: int)
    requires t in w.me.threads && w.me.threads[t].OnWaitList() && w.me.threads[t].va in w.me.descs
    ensures SameAccepted(w.me, DoFail(w, t, code).me)
  {
    var s, s' := w.me, DoFail(w, t, code).me;
    forall vb, id ensures AcceptedAt(s', vb, id) <==> AcceptedAt(s, vb, id) {
      assert s.threads[t].Owns();
      if vb == s.threads[t].va { assert OwnedByThread(s, vb); } else { OtherOwner(s, s', t, vb); }
    }
  }

  lemma FinishAccepted(w: World, t: nat, m: Msg)
    requires t in w.me.threads && w.me.threads[t].Waiting? && w.me.threads[t].va in w.me.descs && m.Reply?
      && m.rq in w.queues
    ensures SameAccepted(w.me, DoFinish(w, t, m).me)
  {
    var s, s' := w.me, DoFinish(w, t, m).me;
    forall vb, id ensures AcceptedAt(s', vb, id) <==> AcceptedAt(s, vb, id) {
      assert s.threads[t].Owns() && s'.threads[t].Owns() && s'.threads[t].va == s.threads[t].va;
      if vb == s.threads[t].va {
        assert OwnedByThread(s, vb) && OwnedByThread(s', vb);
      } else {
        OtherOwner(s, s', t, vb);
      }
    }
  }

  // Refusing adds no channel, accepting adds one, for the request that is judged.
  lemma RefuseVerdicts(w: World, m: Msg, r: int, created: bool, j: Judgement, sent: bool)
    requires Verdicts(w.peer, w.me) && m.ref !in w.peer.log.judged && !Fine(j)
    ensures var w' := DoRefuse(w, m, r, created, j, sent); Verdicts(w'.peer, w'.me)
  {
    hide Fine; hide Wire;
    var w' := DoRefuse(w, m, r, created, j, sent);
    SameThreadOwners(w.me, w'.me);
    JudgedNext(w, w', m.ref, j);
    forall id | id in w'.peer.log.judged ensures Fine(w'.peer.log.judged[id]) <==> AcceptedFor(w'.me, id) {
      AcceptedSame(w.me, w'.me, id);
    }
  }

  lemma AcceptedSame(s: Side, s': Side, id: nat)
    requires SameAccepted(s, s')
    ensures AcceptedFor(s', id) <==> AcceptedFor(s, id)
  {
    hide AcceptedAt;
    if AcceptedFor(s, id) { var vb :| AcceptedAt(s, vb, id); assert AcceptedAt(s', vb, id); }
    if AcceptedFor(s', id) { var vb :| AcceptedAt(s', vb, id); assert AcceptedAt(s, vb, id); }
  }

  lemma JudgedNext(w: World, w': World, id: nat, j: Judgement)
    requires w'.peer.log.judged == w.peer.log.judged[id := j] && Verdicts(w.peer, w.me) && id !in w.peer.log.judged
    ensures !AcceptedFor(w.me, id)
      && forall i :: i in w.peer.log.judged ==> w'.peer.log.judged[i] == w.peer.log.judged[i]
  {
  }

  lemma AcceptVerdicts(w: World, m: Msg, va: nat, phys: nat, j: Judgement, sent: bool)
    requires m.Connect? && Verdicts(w.peer, w.me) && m.ref !in w.peer.log.judged && Fine(j)
    requires FreshVa(w.me, va) && ThreadsOk(w.me)
    ensures var w' := DoAccept(w, m, va, phys, j, sent); Verdicts(w'.peer, w'.me)
  {
    hide Fine;
    var w' := DoAccept(w, m, va, phys, j, sent);
    JudgedNext(w, w', m.ref, j);
    forall vb, id ensures AcceptedAt(w'.me, vb, id) <==> AcceptedAt(w.me, vb, id) || (vb == va && id == m.ref) {
      assert !OwnedByThread(w.me, va);
      assert OwnedByThread(w'.me, vb) <==> OwnedByThread(w.me, vb);
    }
    forall id | id in w'.peer.log.judged ensures Fine(w'.peer.log.judged[id]) <==> AcceptedFor(w'.me, id) {
      AcceptedOther(w.me, w'.me, va, m.ref, id);
    }
  }

  lemma AcceptedOther(s: Side, s': Side, va: nat, ref: nat, id: nat)
    requires forall vb, i :: AcceptedAt(s', vb, i) <==> AcceptedAt(s, vb, i) || (vb == va && i == ref)
    ensures AcceptedFor(s', id) <==> AcceptedFor(s, id) || id == ref
  {
    hide AcceptedAt;
    if AcceptedFor(s, id) { var vb :| AcceptedAt(s, vb, id); assert AcceptedAt(s', vb, id); }
    if AcceptedFor(s', id) { var vb :| AcceptedAt(s', vb, id); assert AcceptedAt(s, vb, id) || id == ref; }
    if id == ref { assert AcceptedAt(s', va, id); }
  }

  // ---------- Every schedule ----------

  lemma ActAccepted(w: World, a: Action)
    requires ThreadsOk(w.me) && !a.Accept?
    ensures SameAccepted(w.me, Act(w, a).me)
  {
    hide SameAccepted; hide ThreadsOk;
    SameThreadOwners(w.me, w.me);
    if Act(w, a) != w {
      match a
      case ListenPort(_, _) => SameThreadOwners(w.me, Act(w, a).me);
      case Create(t, params, va, phys) => CreateAccepted(w, t, params, va, phys);
      case Register(t) => SameThreadOwners(w.me, Act(w, a).me);
      case Send(t, ok) => if ok { SameThreadOwners(w.me, Act(w, a).me); } else { FailAccepted(w, t, -EBUSY); }
      case TakeReply(m) => SameThreadOwners(w.me, Act(w, a).me);
      case Complete(t) =>
        var m := w.me.threads[t].res.value;
        if m.status != 0 { FailAccepted(w, t, Code(m.status)); } else { FinishAccepted(w, t, m); }
    }
  }

  // A step at one side leaves its own records alone, and at the other side all but records and messages.
  ghost predicate Quiet(w: World, w': World) { w'.me.log.judged == w.me.log.judged && w'.peer.log == w.peer.log }

  lemma ConnectQuiet(w: World, a: Action)
    requires a.ListenPort? || a.Create? || a.Register? || a.Send?
    ensures Quiet(w, Act(w, a))
  {
    hide FreshVa; hide FreshQueue;
  }

  lemma ReplyQuiet(w: World, a: Action)
    requires a.TakeReply? || a.Complete?
    ensures Quiet(w, Act(w, a))
  {
    hide Code; hide Answer;
  }

  lemma AcceptQuiet(w: World, a: Action)
    requires a.Accept?
    ensures Act(w, a).me.log == w.me.log
  {
    hide Refusal; hide Told; hide FreshVa; hide FreshQueue; hide Wire;
  }

  lemma ActQuiet(w: World, a: Action)
    ensures Act(w, a).me.log.judged == w.me.log.judged && (!a.Accept? ==> Act(w, a).peer.log == w.peer.log)
  {
    hide Act;
    if a.Accept? { AcceptQuiet(w, a); }
    else if a.TakeReply? || a.Complete? { ReplyQuiet(w, a); }
    else { ConnectQuiet(w, a); }
  }

  ghost predicate Leaves(w: World, w': World) {
    w'.peer.descs == w.peer.descs && w'.peer.threads == w.peer.threads && w'.peer.listeners == w.peer.listeners
      && w'.me.listeners == w.me.listeners
  }

  lemma RefuseLeaves(w: World, m: Msg, r: int, created: bool, j: Judgement, sent: bool)
    ensures Leaves(w, DoRefuse(w, m, r, created, j, sent))
  {
    hide Wire;
  }

  lemma DoAcceptLeaves(w: World, m: Msg, va: nat, phys: nat, j: Judgement, sent: bool)
    requires m.Connect?
    ensures Leaves(w, DoAccept(w, m, va, phys, j, sent))
  {
    hide Wire;
  }

  lemma AcceptLeaves(w: World, a: Action)
    requires a.Accept?
    ensures Leaves(w, Act(w, a))
  {
    hide Refusal; hide Wire; hide FreshVa; hide FreshQueue; hide DoRefuse; hide DoAccept;
    if Act(w, a) != w {
      var j := Judgement(w.me.listeners, a.m.params, a.memory, a.verdict);
      if Refusal(j) != 0 {
        RefuseLeaves(w, a.m, Refusal(j), Refusal(j.(verdict := 0)) == 0, j, a.sent);
      } else {
        DoAcceptLeaves(w, a.m, a.va, a.phys, j, a.sent);
      }
    }
  }

  lemma AcceptAct(w: World, a: Action)
    requires ThreadsOk(w.me) && Codes(w.peer, w.me) && Verdicts(w.peer, w.me) && a.Accept?
    ensures Verdicts(Act(w, a).peer, Act(w, a).me)
  {
    hide Verdicts; hide ThreadsOk; hide Refusal; hide DoRefuse; hide DoAccept; hide Fine;
    if Act(w, a) != w {
      var j := Judgement(w.me.listeners, a.m.params, a.memory, a.verdict);
      RefusalExactly(j);
      assert Open(w.peer, a.m.ref, a.m.params);
      if Refusal(j) != 0 {
        RefuseVerdicts(w, a.m, Refusal(j), Refusal(j.(verdict := 0)) == 0, j, a.sent);
      } else {
        AcceptVerdicts(w, a.m, a.va, a.phys, j, a.sent);
      }
    }
  }

  lemma ActVerdicts(w: World, a: Action)
    requires ThreadsOk(w.me) && Codes(w.peer, w.me) && Verdicts(w.me, w.peer) && Verdicts(w.peer, w.me)
    ensures Verdicts(Act(w, a).me, Act(w, a).peer) && Verdicts(Act(w, a).peer, Act(w, a).me)
  {
    hide Act; hide Verdicts; hide ThreadsOk; hide Codes;
    var w' := Act(w, a);
    ActQuiet(w, a);
    if a.Accept? { AcceptLeaves(w, a); } else { OtherNets(w, a); }
    SameThreadOwners(w.peer, w'.peer);
    VerdictsFrame(w.me, w.peer, w'.me, w'.peer);
    if a.Accept? {
      AcceptAct(w, a);
    } else {
      ActAccepted(w, a);
      VerdictsFrame(w.peer, w.me, w'.peer, w'.me);
    }
  }

  ghost predicate StateVerdicts(s: State) { Verdicts(s.host, s.guest) && Verdicts(s.guest, s.host) }

  lemma StepVerdicts(s: State, step: Step)
    requires ThreadsOk(s.host) && ThreadsOk(s.guest) && StateCodes(s) && StateVerdicts(s)
    ensures StateVerdicts(Apply(s, step))
  {
    hide Act; hide Verdicts; hide ThreadsOk; hide Codes;
    if step.OnHost? {
      ActVerdicts(World(s.host, s.guest, s.queues), step.a);
    } else {
      ActVerdicts(World(s.guest, s.host, s.queues), step.a);
    }
  }

  lemma InitVerdicts(hostThreads: set<nat>, guestThreads: set<nat>)
    ensures StateVerdicts(Init(hostThreads, guestThreads))
  {
  }

  // On every schedule a request has been given a channel of the other side that is switched on if and only if it
  // was judged, had passed all tests, and the listener had returned 0.
  lemma {:induction false} EveryScheduleHasVerdicts(hostThreads: set<nat>, guestThreads: set<nat>, steps: seq<Step>)
    ensures StateVerdicts(Final(Init(hostThreads, guestThreads), steps))
  {
    hide *;
    var s0 := Init(hostThreads, guestThreads);
    FinalUnfolds(s0, steps);
    if steps == [] {
      InitVerdicts(hostThreads, guestThreads);
    } else {
      var s := Final(s0, steps[..|steps| - 1]);
      EveryScheduleHasVerdicts(hostThreads, guestThreads, steps[..|steps| - 1]);
      EveryScheduleHasCodes(hostThreads, guestThreads, steps[..|steps| - 1]);
      EveryScheduleIsOk(hostThreads, guestThreads, steps[..|steps| - 1]);
      StateParts(s);
      StepVerdicts(s, steps[|steps| - 1]);
    }
  }

  lemma StateParts(s: State)
    requires StateOk(s)
    ensures ThreadsOk(s.host) && ThreadsOk(s.guest) && AnswersOk(s.host, s.guest) && AnswersOk(s.guest, s.host)
    ensures DescsOk(s.host, s.queues) && DescsOk(s.guest, s.queues)
  {
  }

  // ---------- Every answer ends its connect ----------

  // What becomes of a thread that has its answer: connected if its request was fine, and failed with the code of
  // the judgement otherwise.
  ghost predicate EndsRight(me: Side, va: nat, x: Thread)
  {
    va in me.descs && me.descs[va].id in me.log.judged &&
    var j := me.log.judged[me.descs[va].id];
    if Fine(j) then x == Connected(va) else x.Failed? && x.id == me.descs[va].id && CodeFor(j, x.code)
  }

  lemma CompleteEnds(w: World, t: nat)
    requires Codes(w.me, w.peer) && AnswersOk(w.me, w.peer) && DescsOk(w.peer, w.queues)
    requires t in w.me.threads && w.me.threads[t].Waiting? && w.me.threads[t].res.Some?
    ensures var me' := Act(w, Complete(t)).me; t in me'.threads && EndsRight(w.me, w.me.threads[t].va, me'.threads[t])
  {
    hide Codes; hide Code; hide Refusal; hide CodeFor; hide Fine;
    CodeArrives(w.me, w.peer, t);
    var m := w.me.threads[t].res.value;
    RefusalExactly(w.me.log.judged[m.ref]);
    assert ReplyFits(w.me, w.peer, w.me.threads[t].va, m);
  }

  // On every schedule a connect that has its answer ends with its next step, and ends right.
  lemma EveryAnswerEnds(hostThreads: set<nat>, guestThreads: set<nat>, steps: seq<Step>, t: nat)
    ensures var s0 := Init(hostThreads, guestThreads);
      var s, s' := Final(s0, steps), Final(s0, steps + [OnHost(Complete(t))]);
      t in s.host.threads && s.host.threads[t].Waiting? && s.host.threads[t].res.Some? ==>
        t in s'.host.threads && EndsRight(s.host, s.host.threads[t].va, s'.host.threads[t])
    ensures var s0 := Init(hostThreads, guestThreads);
      var s, s' := Final(s0, steps), Final(s0, steps + [OnGuest(Complete(t))]);
      t in s.guest.threads && s.guest.threads[t].Waiting? && s.guest.threads[t].res.Some? ==>
        t in s'.guest.threads && EndsRight(s.guest, s.guest.threads[t].va, s'.guest.threads[t])
  {
    hide Final; hide EndsRight; hide Codes; hide AnswersOk; hide DescsOk; hide Act; hide StateOk; hide ThreadsOk;
    var s0 := Init(hostThreads, guestThreads);
    var s := Final(s0, steps);
    EveryScheduleHasCodes(hostThreads, guestThreads, steps);
    EveryScheduleIsOk(hostThreads, guestThreads, steps);
    StateParts(s);
    NextStep(s0, steps, OnHost(Complete(t)));
    NextStep(s0, steps, OnGuest(Complete(t)));
    if t in s.host.threads && s.host.threads[t].Waiting? && s.host.threads[t].res.Some? {
      CompleteEnds(World(s.host, s.guest, s.queues), t);
    }
    if t in s.guest.threads && s.guest.threads[t].Waiting? && s.guest.threads[t].res.Some? {
      CompleteEnds(World(s.guest, s.host, s.queues), t);
    }
  }

  // ---------- Nothing is stuck ----------

  // A connect that is not waiting goes on, and every message in flight can be taken.
  lemma ConnectMoves(w: World, t: nat, ok: bool)
    requires ThreadsOk(w.me) && t in w.me.threads
    ensures w.me.threads[t].Created? ==> Act(w, Register(t)).me.threads[t].Registered?
    ensures w.me.threads[t].Registered? ==>
      var x := Act(w, Send(t, ok)).me.threads[t];
      if ok then x.Waiting? else x.Failed?
  {
  }

  lemma MessageMoves(w: World, m: Msg, va: nat, phys: nat, memory: bool, verdict: int, sent: bool)
    requires m in w.me.net && FreshVa(w.me, va) && FreshQueue(w.queues, phys) && -TWO_31 < verdict < TWO_31
    ensures m.Connect? ==> Act(w, Accept(m, va, phys, memory, verdict, sent)).me.net == w.me.net - multiset{m}
    ensures m.Reply? ==> Act(w, TakeReply(m)).me.net == w.me.net - multiset{m}
  {
  }

  // ---------- Who listens ----------

  // Who has asked to listen on a side, the first on each port, as far as ports go.
  ghost function Listeners(steps: seq<Step>, host: bool): (ls: map<int, Listen>) {
    if steps == [] then map[]
    else
      var ls, step := Listeners(steps[..|steps| - 1], host), steps[|steps| - 1];
      if step.OnHost? == host && step.a.ListenPort? && 0 <= step.a.port < 512 && step.a.port !in ls
      then ls[step.a.port := step.a.listen]
      else ls
  }

  lemma ConnectListens(w: World, a: Action)
    requires a.Create? || a.Register? || a.Send?
    ensures Act(w, a).me.listeners == w.me.listeners
  {
    hide FreshVa; hide FreshQueue;
  }

  lemma ReplyListens(w: World, a: Action)
    requires a.TakeReply? || a.Complete?
    ensures Act(w, a).me.listeners == w.me.listeners
  {
    hide Code; hide Answer;
  }

  lemma ListenStep(w: World, a: Action)
    ensures var w' := Act(w, a);
      && w'.peer.listeners == w.peer.listeners
      && w'.me.listeners == if a.ListenPort? && 0 <= a.port < 512 && a.port !in w.me.listeners
                            then w.me.listeners[a.port := a.listen] else w.me.listeners
  {
    if a.Accept? {
      hide Act;
      AcceptLeaves(w, a);
    } else if !a.ListenPort? {
      hide Act;
      OtherNets(w, a);
      if a.TakeReply? || a.Complete? { ReplyListens(w, a); } else { ConnectListens(w, a); }
    }
  }

  lemma {:induction false} ListenersExactly(s0: State, steps: seq<Step>)
    requires s0.host.listeners == s0.guest.listeners == map[]
    ensures Final(s0, steps).host.listeners == Listeners(steps, true)
      && Final(s0, steps).guest.listeners == Listeners(steps, false)
  {
    if steps != [] {
      hide Act;
      var n := |steps| - 1;
      var s := Final(s0, steps[..n]);
      ListenersExactly(s0, steps[..n]);
      if steps[n].OnHost? {
        ListenStep(World(s.host, s.guest, s.queues), steps[n].a);
      } else {
        ListenStep(World(s.guest, s.host, s.queues), steps[n].a);
      }
    }
  }
}
