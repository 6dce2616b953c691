/**
 What a failed connect returns, on every schedule of the connect protocol: the code by which the other side
 refused its own request, or that the request could not be sent.
 */
module IkcConnectCodes {
  import opened Options
  import opened IkcConnect

  // The packet handler refuses a port out of range with a positive number; every other positive one is what
  // the listener itself returned.
  predicate OutOfRange(p: Params) { p.port < 0 || p.port >= MAX_PORT }

  predicate TestsPass(j: Judgement) {
    && !OutOfRange(j.params) && j.params.port in j.listeners
    && j.listeners[j.params.port].magic == j.params.magic && j.listeners[j.params.port].pktSize == j.params.pktSize
    && j.memory
  }

  lemma RefusalPositiveExactly(j: Judgement)
    ensures Refusal(j) > 0 <==> OutOfRange(j.params) || (TestsPass(j) && j.verdict > 0)
    ensures -TWO_31 < j.verdict < TWO_31 ==> -TWO_31 < Refusal(j) < TWO_31
  {
  }

  // The code of each way to refuse, in the order of the tests.
  ghost predicate CodeFor(j: Judgement, code: int) {
    && (OutOfRange(j.params) ==> code == 22)
    && (!OutOfRange(j.params) && NobodyListens(j) ==> code == -111)
    && (!OutOfRange(j.params) && !NobodyListens(j) && WrongSize(j) ==> code == -103)
    && (!OutOfRange(j.params) && !NobodyListens(j) && !WrongSize(j) && !j.memory ==> code == -12)
    && (TestsPass(j) ==> code == j.verdict)
  }

  predicate NobodyListens(j: Judgement) {
    j.params.port !in j.listeners || j.listeners[j.params.port].magic != j.params.magic
  }

  predicate WrongSize(j: Judgement) {
    j.params.port in j.listeners && j.listeners[j.params.port].pktSize != j.params.pktSize
  }

  lemma RefusalExactly(j: Judgement)
    ensures CodeFor(j, Refusal(j)) && (Refusal(j) == 0 <==> Fine(j))
  {
  }

  // A request that is to be accepted.
  predicate Fine(j: Judgement) { TestsPass(j) && j.verdict == 0 }

  // ---------- Requests, judgements and replies belong together ----------

  // What a thread has asked for, and ids that nobody has judged yet.
  ghost predicate Asking(me: Side) {
    && (forall id :: id in me.log.asked ==> id <= me.lastId)
    && (forall id :: id in me.log.judged ==> JudgedOk(me, id))
    && (forall t :: t in me.threads && Unsent(me, me.threads[t]) ==>
          Open(me, me.descs[me.threads[t].va].id, me.threads[t].params))
  }

  ghost predicate Unsent(me: Side, x: Thread) { (x.Created? || x.Registered?) && x.va in me.descs }

  ghost predicate JudgedOk(me: Side, id: nat) {
    && id in me.log.judged && id in me.log.asked && me.log.judged[id].params == me.log.asked[id]
    && -TWO_31 < me.log.judged[id].verdict < TWO_31
  }

  ghost predicate Open(me: Side, id: nat, p: Params) {
    id in me.log.asked && me.log.asked[id] == p && id !in me.log.judged
  }

  ghost predicate OnItsWay(me: Side, peer: Side) {
    && (forall m :: m in peer.net && m.Connect? ==> Open(me, m.ref, m.params))
    && (forall m :: m in me.net && m.Reply? ==> Tells(me, m))
  }

  // The reply carries the code of the judgement.
  ghost predicate Tells(me: Side, m: Msg) {
    m.Reply? && m.ref in me.log.judged && m.status == Wire(Refusal(me.log.judged[m.ref]))
  }

  ghost predicate Answered(me: Side) {
    forall t :: t in me.threads && me.threads[t].Waiting? && me.threads[t].res.Some? ==>
      Tells(me, me.threads[t].res.value)
  }

  // The id of a failed connect is no longer in use, and the code is that of its judgement.
  ghost predicate Failures(me: Side) {
    forall t :: t in me.threads && me.threads[t].Failed? ==> FailedOk(me, me.threads[t].id, me.threads[t].code)
  }

  ghost predicate FailedOk(me: Side, id: nat, code: int) {
    && id <= me.lastId && (forall va :: va in me.descs ==> me.descs[va].id != id)
    && code == (if id in me.log.judged then Refusal(me.log.judged[id]) else -EBUSY) && code != 0
  }

  ghost predicate Codes(me: Side, peer: Side) {
    Asking(me) && OnItsWay(me, peer) && Answered(me) && Failures(me)
  }

  ghost predicate WorldCodes(w: World) { Codes(w.me, w.peer) && Codes(w.peer, w.me) }

  // ---------- Actions ----------

  // A change that leaves the requester's records alone and adds no request to it and no reply.
  lemma CodesFrame(me: Side, peer: Side, me': Side, peer': Side)
    requires Codes(me, peer)
    requires me'.log == me.log && me'.lastId == me.lastId && me'.descs == me.descs && me'.threads == me.threads
    requires forall m :: m in peer'.net && m.Connect? ==> m in peer.net
    requires forall m :: m in me'.net && m.Reply? ==> m in me.net
    ensures Codes(me', peer')
  {
  }

  lemma CreateAsking(w: World, t: nat, params: Params, va: nat, phys: nat)
    requires Asking(w.me) && ThreadsOk(w.me) && t in w.me.threads && FreshVa(w.me, va)
    ensures Asking(DoCreate(w, t, params, va, phys).me)
  {
  }

  lemma CreateCodes(w: World, t: nat, params: Params, va: nat, phys: nat)
    requires Codes(w.me, w.peer) && DescsOk(w.me, w.queues) && ThreadsOk(w.me) && t in w.me.threads && FreshVa(w.me, va)
    ensures Codes(DoCreate(w, t, params, va, phys).me, w.peer)
  {
    CreateAsking(w, t, params, va, phys);
    hide ThreadsOk;
    var me' := DoCreate(w, t, params, va, phys).me;
    hide Asking;
    assert me'.log.judged == w.me.log.judged && me'.net == w.me.net;
    AskedOld(w.me);
    assert OnItsWay(me', w.peer);
    assert Answered(me');
  }

  lemma AskedOld(me: Side)
    requires Asking(me)
    ensures forall id :: id in me.log.asked ==> id <= me.lastId
  {
  }

  lemma RegisterCodes(w: World, t: nat)
    requires Codes(w.me, w.peer) && t in w.me.threads && w.me.threads[t].Created?
    ensures Codes(SetT(w.me, t, Registered(w.me.threads[t].va, w.me.threads[t].params, None)), w.peer)
  {
  }

  lemma SendCodes(w: World, t: nat)
    requires Codes(w.me, w.peer) && ThreadsOk(w.me) && t in w.me.threads && w.me.threads[t].Registered?
      && w.me.threads[t].va in w.me.descs
    ensures Codes(DoSend(w, t).me, DoSend(w, t).peer)
  {
  }

  lemma FailFailures(w: World, t: nat, code: int)
    requires Failures(w.me) && DescsOk(w.me, w.queues)
    requires t in w.me.threads && w.me.threads[t].OnWaitList() && w.me.threads[t].va in w.me.descs
    requires var id := w.me.descs[w.me.threads[t].va].id;
      code == (if id in w.me.log.judged then Refusal(w.me.log.judged[id]) else -EBUSY) && code != 0
    ensures Failures(DoFail(w, t, code).me)
  {
    hide Refusal;
  }

  lemma FailCodes(w: World, t: nat, code: int)
    requires Codes(w.me, w.peer) && DescsOk(w.me, w.queues)
    requires t in w.me.threads && w.me.threads[t].OnWaitList() && w.me.threads[t].va in w.me.descs
    requires var id := w.me.descs[w.me.threads[t].va].id;
      code == (if id in w.me.log.judged then Refusal(w.me.log.judged[id]) else -EBUSY) && code != 0
    ensures Codes(DoFail(w, t, code).me, w.peer)
  {
    FailFailures(w, t, code);
    hide Failures; hide DescsOk; hide Refusal;
  }

  lemma TakeReplyAnswered(w: World, m: Msg)
    requires Answered(w.me) && Tells(w.me, m)
    ensures Answered(DoTakeReply(w, m).me)
  {
    hide Refusal;
  }

  lemma TakeReplyFailures(w: World, m: Msg)
    requires Failures(w.me)
    ensures Failures(DoTakeReply(w, m).me)
  {
    hide Refusal;
  }

  lemma TakeReplyCodes(w: World, m: Msg)
    requires Codes(w.me, w.peer) && m in w.me.net && m.Reply?
    ensures Codes(DoTakeReply(w, m).me, w.peer)
  {
    TakeReplyAnswered(w, m);
    TakeReplyFailures(w, m);
    hide Answered; hide Failures; hide Refusal;
  }

  lemma FinishCodes(w: World, t: nat, m: Msg)
    requires Codes(w.me, w.peer) && t in w.me.threads && w.me.threads[t].Waiting? && w.me.threads[t].va in w.me.descs
    requires ThreadsOk(w.me) && m.Reply? && m.rq in w.queues
    ensures Codes(DoFinish(w, t, m).me, w.peer)
  {
    hide Refusal;
  }

  // ---------- A request is judged ----------

  // The request's record gets its judgement, and the reply carries it.
  lemma ToldCodes(w: World, m: Msg, r: Msg, j: Judgement, sent: bool, w': World)
    requires Answers(w, m, r, j, sent, w') && Codes(w.peer, w.me) && DescsOk(w.peer, w.queues) && ThreadsOk(w.peer)
    requires RequestsOk(w.peer, w.me) && RepliesOk(w.peer, w.me)
    requires j.params == m.params && -TWO_31 < j.verdict < TWO_31 && r.status == Wire(Refusal(j))
    ensures Codes(w'.peer, w'.me)
  {
    hide Refusal; hide RequestsOk; hide RepliesOk;
    OnlyRequest(w, m);
    ToldAsking(w, m, r, j, sent, w');
    ToldFailures(w, m, r, j, sent, w');
    ToldOnItsWay(w, m, r, j, sent, w');
    assert Answered(w'.peer);
  }

  lemma ToldAsking(w: World, m: Msg, r: Msg, j: Judgement, sent: bool, w': World)
    requires Answers(w, m, r, j, sent, w') && Asking(w.peer) && OnItsWay(w.peer, w.me) && DescsOk(w.peer, w.queues)
      && ThreadsOk(w.peer)
    requires Unanswered(w.peer, m.va, m.ref) && j.params == m.params && -TWO_31 < j.verdict < TWO_31
    ensures Asking(w'.peer)
  {
    hide Refusal;
  }

  lemma ToldFailures(w: World, m: Msg, r: Msg, j: Judgement, sent: bool, w': World)
    requires Answers(w, m, r, j, sent, w') && Failures(w.peer) && Unanswered(w.peer, m.va, m.ref)
    ensures Failures(w'.peer)
  {
    hide Refusal;
  }

  lemma ToldOnItsWay(w: World, m: Msg, r: Msg, j: Judgement, sent: bool, w': World)
    requires Answers(w, m, r, j, sent, w') && OnItsWay(w.peer, w.me) && r.status == Wire(Refusal(j))
    requires forall c :: c in w.me.net - multiset{m} && c.Connect? ==> c.ref != m.ref
    requires forall n :: n in w.peer.net && n.Reply? ==> n.ref != m.ref
    ensures OnItsWay(w'.peer, w'.me)
  {
    hide Refusal;
  }

  // The side that judges may gain a descriptor.
  lemma JudgeMine(w: World, m: Msg, r: Msg, j: Judgement, sent: bool, w': World)
    requires Answers(w, m, r, j, sent, w') && Codes(w.me, w.peer) && ThreadsOk(w.me)
    requires w'.me.lastId >= w.me.lastId
    requires forall va :: va in w'.me.descs && va !in w.me.descs ==> w'.me.descs[va].id > w.me.lastId
    ensures Codes(w'.me, w'.peer)
  {
    hide Refusal; hide Accepted;
  }

  lemma AcceptCodes(w: World, a: Action)
    requires WorldOk(w) && WorldCodes(w) && a.Accept?
    ensures WorldCodes(Act(w, a))
  {
    hide Refusal; hide WorldOk; hide Codes; hide DoRefuse; hide DoAccept;
    if Act(w, a) != w {
      var j := Judgement(w.me.listeners, a.m.params, a.memory, a.verdict);
      Parts(w);
      HalfParts(w.peer, w.me);
      if Refusal(j) != 0 {
        RefuseCodes(w, a.m, Refusal(j), Refusal(j.(verdict := 0)) == 0, j, a.sent);
      } else {
        AcceptedCodes(w, a.m, a.va, a.phys, j, a.sent);
      }
    }
  }

  lemma HalfParts(me: Side, peer: Side)
    requires Half(me, peer)
    ensures RequestsOk(me, peer) && RepliesOk(me, peer) && AnswersOk(me, peer)
  {
  }

  lemma BaseParts(w: World)
    requires Base(w)
    ensures DescsOk(w.me, w.queues) && DescsOk(w.peer, w.queues) && ThreadsOk(w.me) && ThreadsOk(w.peer)
  {
  }

  lemma RefuseCodes(w: World, m: Msg, r: int, created: bool, j: Judgement, sent: bool)
    requires Base(w) && WorldCodes(w) && RequestsOk(w.peer, w.me) && RepliesOk(w.peer, w.me)
    requires m in w.me.net && m.Connect? && r == Refusal(j) != 0
    requires j.params == m.params && -TWO_31 < j.verdict < TWO_31
    ensures WorldCodes(DoRefuse(w, m, r, created, j, sent))
  {
    hide *;
    var w', reply := DoRefuse(w, m, r, created, j, sent), Reply(m.ref, Wire(r), 0, 0, 0);
    RefusalPositiveExactly(j);
    BaseParts(w);
    RefuseBase(w, m, r, created, j, sent);
    RefuseIds(w, m, r, created, j, sent);
    CodesParts(w);
    JudgeMine(w, m, reply, j, sent, w');
    ToldCodes(w, m, reply, j, sent, w');
    CodesIntro(w');
  }

  lemma CodesParts(w: World)
    requires WorldCodes(w)
    ensures Codes(w.me, w.peer) && Codes(w.peer, w.me)
  {
  }

  lemma CodesIntro(w: World)
    requires Codes(w.me, w.peer) && Codes(w.peer, w.me)
    ensures WorldCodes(w)
  {
  }

  lemma RefuseIds(w: World, m: Msg, r: int, created: bool, j: Judgement, sent: bool)
    ensures var me' := DoRefuse(w, m, r, created, j, sent).me; me'.lastId >= w.me.lastId && me'.descs == w.me.descs
  {
  }

  lemma AcceptedCodes(w: World, m: Msg, va: nat, phys: nat, j: Judgement, sent: bool)
    requires Base(w) && WorldCodes(w) && RequestsOk(w.peer, w.me) && RepliesOk(w.peer, w.me)
    requires m in w.me.net && m.Connect? && Refusal(j) == 0 && FreshVa(w.me, va)
    requires j.params == m.params && -TWO_31 < j.verdict < TWO_31
    ensures WorldCodes(DoAccept(w, m, va, phys, j, sent))
  {
    hide *;
    var w', reply := DoAccept(w, m, va, phys, j, sent), Reply(m.ref, 0, phys, m.va, va);
    CodeRoundTrip(0);
    BaseParts(w);
    AcceptAnswers(w, m, va, phys, j, sent);
    AcceptIds(w, m, va, phys, j, sent);
    CodesParts(w);
    JudgeMine(w, m, reply, j, sent, w');
    ToldCodes(w, m, reply, j, sent, w');
    CodesIntro(w');
  }

  lemma AcceptIds(w: World, m: Msg, va: nat, phys: nat, j: Judgement, sent: bool)
    requires m.Connect?
    ensures var me' := DoAccept(w, m, va, phys, j, sent).me;
      me'.lastId >= w.me.lastId && forall vb :: vb in me'.descs && vb !in w.me.descs ==> me'.descs[vb].id > w.me.lastId
  {
  }

  // ---------- Every schedule ----------

  lemma OtherSide(w: World, a: Action)
    requires Codes(w.peer, w.me) && !a.Accept?
    ensures Codes(Act(w, a).peer, Act(w, a).me)
  {
    hide Codes;
    var w' := Act(w, a);
    OtherNets(w, a);
    CodesFrame(w.peer, w.me, w'.peer, w'.me);
  }

  lemma OtherNets(w: World, a: Action)
    requires !a.Accept?
    ensures var w' := Act(w, a);
      && w'.peer == w.peer.(net := w'.peer.net)
      && (forall m :: m in w'.me.net && m.Connect? ==> m in w.me.net)
      && (forall m :: m in w'.peer.net && m.Reply? ==> m in w.peer.net)
  {
  }

  lemma StartCodes(w: World, a: Action)
    requires Base(w) && Codes(w.me, w.peer) && (a.ListenPort? || a.Create? || a.Register? || a.Send?)
    ensures Codes(Act(w, a).me, Act(w, a).peer)
  {
    hide Codes; hide DoCreate; hide DoSend; hide DoFail; hide DescsOk; hide ThreadsOk;
    BaseParts(w);
    if Act(w, a) != w {
      match a
      case ListenPort(_, _) => CodesFrame(w.me, w.peer, Act(w, a).me, w.peer);
      case Create(t, params, va, phys) => CreateCodes(w, t, params, va, phys); CreateQuiet(w, t, params, va, phys);
      case Register(t) => RegisterCodes(w, t);
      case Send(t, ok) =>
        if ok {
          SendCodes(w, t);
        } else {
          UnsentIsOpen(w.me, w.peer, t);
          FailCodes(w, t, -EBUSY);
          FailQuiet(w, t, -EBUSY);
        }
    }
  }

  lemma CreateQuiet(w: World, t: nat, params: Params, va: nat, phys: nat)
    ensures DoCreate(w, t, params, va, phys).peer == w.peer
  {
  }

  lemma FailQuiet(w: World, t: nat, code: int)
    requires t in w.me.threads && w.me.threads[t].Owns() && w.me.threads[t].va in w.me.descs
    ensures DoFail(w, t, code).peer == w.peer
  {
  }

  lemma UnsentIsOpen(me: Side, peer: Side, t: nat)
    requires Codes(me, peer) && t in me.threads && Unsent(me, me.threads[t])
    ensures me.descs[me.threads[t].va].id !in me.log.judged
  {
  }

  // The code that a refused connect returns is the one it was refused with.
  lemma CodeArrives(me: Side, peer: Side, t: nat)
    requires Codes(me, peer) && AnswersOk(me, peer) && t in me.threads && me.threads[t].Waiting?
      && me.threads[t].res.Some?
    ensures me.threads[t].va in me.descs && me.descs[me.threads[t].va].id == me.threads[t].res.value.ref
    ensures var m := me.threads[t].res.value;
      Tells(me, m) && Code(m.status) == Refusal(me.log.judged[m.ref])
        && (m.status == 0 <==> Refusal(me.log.judged[m.ref]) == 0)
  {
    hide Refusal; hide Code; hide Wire;
    var m := me.threads[t].res.value;
    assert Tells(me, m) && JudgedOk(me, m.ref) && ReplyFits(me, peer, me.threads[t].va, m);
    RefusalPositiveExactly(me.log.judged[m.ref]);
    CodeRoundTrip(Refusal(me.log.judged[m.ref]));
  }

  lemma EndCodes(w: World, a: Action)
    requires Base(w) && Codes(w.me, w.peer) && AnswersOk(w.me, w.peer) && (a.TakeReply? || a.Complete?)
    ensures Codes(Act(w, a).me, Act(w, a).peer)
  {
    hide Codes; hide DoFail; hide DoFinish; hide DescsOk; hide ThreadsOk; hide AnswersOk; hide Refusal; hide Code;
    BaseParts(w);
    if Act(w, a) != w {
      match a
      case TakeReply(m) => TakeReplyCodes(w, m);
      case Complete(t) =>
        CodeArrives(w.me, w.peer, t);
        var m := w.me.threads[t].res.value;
        if m.status != 0 {
          FailCodes(w, t, Code(m.status));
          FailQuiet(w, t, Code(m.status));
        } else {
          FinishCodes(w, t, m);
          assert DoFinish(w, t, m).peer == w.peer by { FinishQuiet(w, t, m); }
        }
    }
  }

  lemma FinishQuiet(w: World, t: nat, m: Msg)
    requires t in w.me.threads && w.me.threads[t].Waiting? && w.me.threads[t].va in w.me.descs && m.Reply?
      && m.rq in w.queues
    ensures DoFinish(w, t, m).peer == w.peer
  {
  }

  lemma ActCodes(w: World, a: Action)
    requires WorldOk(w) && WorldCodes(w)
    ensures WorldCodes(Act(w, a))
  {
    hide *;
    Parts(w);
    HalfParts(w.me, w.peer);
    CodesParts(w);
    if a.Accept? {
      AcceptCodes(w, a);
    } else {
      OtherSide(w, a);
      if a.TakeReply? || a.Complete? { EndCodes(w, a); } else { StartCodes(w, a); }
      CodesIntro(Act(w, a));
    }
  }

  ghost predicate StateCodes(s: State) { Codes(s.host, s.guest) && Codes(s.guest, s.host) }

  lemma StepCodes(s: State, step: Step)
    requires StateOk(s) && StateCodes(s)
    ensures StateCodes(Apply(s, step))
  {
    hide WorldOk; hide Act; hide Codes;
    if step.OnHost? {
      ActCodes(World(s.host, s.guest, s.queues), step.a);
    } else {
      Swap(World(s.host, s.guest, s.queues));
      ActCodes(World(s.guest, s.host, s.queues), step.a);
    }
  }

  lemma InitCodes(hostThreads: set<nat>, guestThreads: set<nat>)
    ensures StateCodes(Init(hostThreads, guestThreads))
  {
  }

  lemma {:induction false} EveryScheduleHasCodes(hostThreads: set<nat>, guestThreads: set<nat>, steps: seq<Step>)
    ensures StateCodes(Final(Init(hostThreads, guestThreads), steps))
  {
    hide *;
    FinalUnfolds(Init(hostThreads, guestThreads), steps);
    if steps == [] {
      InitCodes(hostThreads, guestThreads);
    } else {
      EveryScheduleHasCodes(hostThreads, guestThreads, steps[..|steps| - 1]);
      EveryScheduleIsOk(hostThreads, guestThreads, steps[..|steps| - 1]);
      StepCodes(Final(Init(hostThreads, guestThreads), steps[..|steps| - 1]), steps[|steps| - 1]);
    }
  }

  // The request was judged; it named a port out of range, or passed all tests and was turned down by the
  // listener with a positive number.
  ghost predicate TurnedDown(me: Side, id: nat) {
    && id in me.log.asked && id in me.log.judged && me.log.judged[id].params == me.log.asked[id]
    && (OutOfRange(me.log.asked[id]) || (TestsPass(me.log.judged[id]) && me.log.judged[id].verdict > 0))
  }

  // A failed connect returns a positive number exactly when that happened to its own request.
  ghost predicate PositiveExactly(me: Side) {
    forall t :: t in me.threads && me.threads[t].Failed? ==>
      (me.threads[t].code > 0 <==> TurnedDown(me, me.threads[t].id))
  }

  lemma FailedPositiveExactly(hostThreads: set<nat>, guestThreads: set<nat>, steps: seq<Step>)
    ensures var s := Final(Init(hostThreads, guestThreads), steps); PositiveExactly(s.host) && PositiveExactly(s.guest)
  {
    hide Final;
    var s := Final(Init(hostThreads, guestThreads), steps);
    EveryScheduleHasCodes(hostThreads, guestThreads, steps);
    SidePositive(s.host, s.guest);
    SidePositive(s.guest, s.host);
  }

  lemma SidePositive(me: Side, peer: Side)
    requires Codes(me, peer)
    ensures PositiveExactly(me)
  {
    hide Refusal; hide TestsPass;
    forall t | t in me.threads && me.threads[t].Failed?
      ensures me.threads[t].code > 0 <==> TurnedDown(me, me.threads[t].id)
    {
      var id := me.threads[t].id;
      assert FailedOk(me, id, me.threads[t].code);
      if id in me.log.judged {
        assert JudgedOk(me, id);
        RefusalPositiveExactly(me.log.judged[id]);
      }
    }
  }

  // Every failed connect: its request could not be sent, or it was judged and the code is that of the first test
  // that failed, or what the listener returned.
  ghost predicate FailuresExact(me: Side) {
    forall t :: t in me.threads && me.threads[t].Failed? ==> FailureExact(me, me.threads[t].id, me.threads[t].code)
  }

  ghost predicate FailureExact(me: Side, id: nat, code: int) {
    if id !in me.log.judged then code == -16
    else
      && id in me.log.asked && me.log.judged[id].params == me.log.asked[id]
      && CodeFor(me.log.judged[id], code) && !Fine(me.log.judged[id])
  }

  lemma FailedExactly(hostThreads: set<nat>, guestThreads: set<nat>, steps: seq<Step>)
    ensures var s := Final(Init(hostThreads, guestThreads), steps); FailuresExact(s.host) && FailuresExact(s.guest)
  {
    hide Final;
    var s := Final(Init(hostThreads, guestThreads), steps);
    EveryScheduleHasCodes(hostThreads, guestThreads, steps);
    SideExact(s.host, s.guest);
    SideExact(s.guest, s.host);
  }

  lemma SideExact(me: Side, peer: Side)
    requires Codes(me, peer)
    ensures FailuresExact(me)
  {
    hide Refusal; hide CodeFor; hide Fine;
    forall t | t in me.threads && me.threads[t].Failed? ensures FailureExact(me, me.threads[t].id, me.threads[t].code) {
      var id := me.threads[t].id;
      assert FailedOk(me, id, me.threads[t].code);
      if id in me.log.judged {
        assert JudgedOk(me, id);
        RefusalExactly(me.log.judged[id]);
      }
    }
  }

  // ---------- Two schedules ----------

  // What the host asks for in both: a connect with the id 1, from the descriptor at 100 with its queue at 200.
  function Request(port: int): Msg { Connect(1, Params(port, 8, 0), 0, 200, 100) }

  function Start(port: int): seq<Step> {
    [OnGuest(ListenPort(5, Listen(8, 0))), OnHost(Create(0, Params(port, 8, 0), 100, 200)), OnHost(Register(0)),
     OnHost(Send(0, true))]
  }

  lemma NextStep(s: State, steps: seq<Step>, step: Step)
    ensures Final(s, steps + [step]) == Apply(Final(s, steps), step)
  {
    hide Apply;
    assert (steps + [step])[..|steps|] == steps;
  }

  // The state before and after the host sends its request.
  ghost predicate Prepared(s: State, port: int) {
    && s.host.threads == map[0 := Registered(100, Params(port, 8, 0), None)]
    && s.host.descs == map[100 := Desc(1, 200, 0, 0, 0, false)] && s.queues == map[200 := 1]
    && s.host.net == multiset{} && s.guest.net == multiset{} && s.guest.descs == map[]
    && s.guest.listeners == map[5 := Listen(8, 0)] && s.host.log.lost == {}
  }

  ghost predicate Asked(s: State, port: int) {
    && s.host.threads == map[0 := Waiting(100, None)]
    && s.host.descs == map[100 := Desc(1, 200, 0, 0, 0, false)] && s.queues == map[200 := 1]
    && s.host.net == multiset{} && s.guest.net == multiset{Request(port)} && s.guest.descs == map[]
    && s.guest.listeners == map[5 := Listen(8, 0)] && s.host.log.lost == {}
  }

  lemma Prepares(port: int)
    ensures Prepared(Final(Init({0}, {}), Start(port)[..3]), port)
  {
    var s0, steps := Init({0}, {}), Start(port);
    var s1 := Apply(s0, steps[0]);
    var s2 := Apply(s1, steps[1]);
    NextStep(s0, [], steps[0]);
    NextStep(s0, steps[..1], steps[1]);
    NextStep(s0, steps[..2], steps[2]);
    assert [] + [steps[0]] == steps[..1] && steps[..1] + [steps[1]] == steps[..2]
      && steps[..2] + [steps[2]] == steps[..3];
    assert s2.host.threads == map[0 := Created(100, Params(port, 8, 0))];
  }

  lemma Sends(s: State, port: int)
    requires Prepared(s, port)
    ensures Asked(Apply(s, OnHost(Send(0, true))), port)
  {
  }

  lemma Starts(port: int)
    ensures Asked(Final(Init({0}, {}), Start(port)), port)
  {
    hide Apply; hide Asked; hide Prepared;
    Prepares(port);
    NextStep(Init({0}, {}), Start(port)[..3], OnHost(Send(0, true)));
    assert Start(port)[..3] + [OnHost(Send(0, true))] == Start(port);
    Sends(Final(Init({0}, {}), Start(port)[..3]), port);
  }

  const REFUSAL := Reply(1, Wire(EINVAL), 0, 0, 0)

  lemma Refuses(s: State)
    requires Asked(s, 512)
    ensures var s' := Apply(s, OnGuest(Accept(Request(512), 0, 0, true, 0, true)));
      s'.host.threads == s.host.threads && s'.host.descs == s.host.descs && s'.host.net == multiset{REFUSAL}
  {
  }

  lemma Hears(s: State)
    requires s.host.threads == map[0 := Waiting(100, None)] && s.host.net == multiset{REFUSAL}
    requires s.host.descs == map[100 := Desc(1, 200, 0, 0, 0, false)]
    ensures var s' := Apply(s, OnHost(TakeReply(REFUSAL)));
      s'.host.threads == map[0 := Waiting(100, Some(REFUSAL))] && s'.host.descs == s.host.descs
  {
  }

  lemma GivesUp(s: State)
    requires s.host.threads == map[0 := Waiting(100, Some(REFUSAL))]
    requires s.host.descs == map[100 := Desc(1, 200, 0, 0, 0, false)]
    ensures Apply(s, OnHost(Complete(0))).host.threads == map[0 := Failed(1, 22)]
  {
    CodeRoundTrip(EINVAL);
    hide Wire; hide Code;
    assert map[0 := Waiting(100, Some(REFUSAL))][0 := Failed(1, 22)] == map[0 := Failed(1, 22)];
  }

  // A connect to port 512 returns 22.
  lemma PortOutOfRange()
    ensures var steps := Start(512) + [OnGuest(Accept(Request(512), 0, 0, true, 0, true))] +
      [OnHost(TakeReply(REFUSAL))]
        + [OnHost(Complete(0))];
      Final(Init({0}, {}), steps).host.threads == map[0 := Failed(1, 22)]
  {
    hide Apply; hide Final; hide Start;
    var s0 := Init({0}, {});
    var t1 := Start(512) + [OnGuest(Accept(Request(512), 0, 0, true, 0, true))];
    var t2 := t1 + [OnHost(TakeReply(REFUSAL))];
    Starts(512);
    NextStep(s0, Start(512), OnGuest(Accept(Request(512), 0, 0, true, 0, true)));
    NextStep(s0, t1, OnHost(TakeReply(REFUSAL)));
    NextStep(s0, t2, OnHost(Complete(0)));
    Refuses(Final(s0, Start(512)));
    Hears(Final(s0, t1));
    GivesUp(Final(s0, t2));
  }

  lemma AcceptsUnheard(s: State)
    requires Asked(s, 5)
    ensures var s' := Apply(s, OnGuest(Accept(Request(5), 300, 400, true, 0, false)));
      && s'.host.net == multiset{} && s'.guest.net == multiset{} && s'.host.threads == s.host.threads
      && s'.host.log.lost == {1} && 300 in s'.guest.descs && s'.guest.descs[300].enabled
  {
  }

  // The reply to a connect that was accepted cannot be sent: nothing is in flight, the connect waits, and the
  // other side is left with a channel that is switched on.
  lemma LostReply()
    ensures var s := Final(Init({0}, {}), Start(5) + [OnGuest(Accept(Request(5), 300, 400, true, 0, false))]);
      && s.host.net == multiset{} && s.guest.net == multiset{}
      && s.host.threads == map[0 := Waiting(100, None)] && s.host.log.lost == {1}
      && 300 in s.guest.descs && s.guest.descs[300].enabled
  {
    hide Apply; hide Final; hide Start;
    Starts(5);
    NextStep(Init({0}, {}), Start(5), OnGuest(Accept(Request(5), 300, 400, true, 0, false)));
    AcceptsUnheard(Final(Init({0}, {}), Start(5)));
  }
}
