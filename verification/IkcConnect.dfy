/**
 Connecting channels over the master channel, as a step system.

 Any number of threads on both sides connect concurrently.  Requests and replies are in
 flight in any order.  A descriptor address and a queue address are chosen freshly by the
 step that allocates them.  A step that is not enabled changes nothing.
 */
module IkcConnect {
  import opened Options

  const MAX_PORT := 512
  const ENOMEM := 12
  const EBUSY := 16
  const EINVAL := 22
  const ECONNABORTED := 103
  const ECONNREFUSED := 111
  const TWO_64 := 0x1_0000_0000_0000_0000
  const TWO_31 := 0x8000_0000

  // A channel descriptor; queues are named by their physical address, 0 meaning none.
  datatype Desc = Desc(id: nat, recvQ: nat, sendQ: nat, remoteId: nat, remoteVa: nat, enabled: bool)

  datatype Params = Params(port: int, pktSize: nat, magic: int)

  datatype Msg =
    | Connect(ref: nat, params: Params, rq: nat, sq: nat, va: nat)
    | Reply(ref: nat, status: nat, rq: nat, va: nat, newc: nat)

  // A connecting thread: `va` is its descriptor, `res` the reply copied into its wait entry.
  datatype Thread =
    | Idle
    | Created(va: nat, params: Params)
    | Registered(va: nat, params: Params, res: Option<Msg>)
    | Waiting(va: nat, res: Option<Msg>)
    | Connected(va: nat)
    | Failed(id: nat, code: int)
  {
    predicate Owns() { Created? || Registered? || Waiting? || Connected? }
    predicate OnWaitList() { Registered? || Waiting? }
  }

  datatype Listen = Listen(pktSize: nat, magic: int)

  // How the other side judged a request: what it saw, and what its listener said.
  datatype Judgement = Judgement(listeners: map<int, Listen>, params: Params, memory: bool, verdict: int)

  // What became of the requests of this side, by channel id. History.
  datatype Log = Log(asked: map<nat, Params>, judged: map<nat, Judgement>, lost: set<nat>)

  // `net` holds the messages on their way to this side.
  datatype Side = Side(lastId: nat, descs: map<nat, Desc>, threads: map<nat, Thread>, listeners: map<int, Listen>,
    net: multiset<Msg>, log: Log)

  // `queues` gives, for every allocated queue, the channel id written in its header.
  datatype State = State(host: Side, guest: Side, queues: map<nat, nat>)

  datatype Action =
    | ListenPort(port: int, listen: Listen)
    | Create(t: nat, params: Params, va: nat, phys: nat)
    | Register(t: nat)
    | Send(t: nat, ok: bool)
    | Accept(m: Msg, va: nat, phys: nat, memory: bool, verdict: int, sent: bool)
    | TakeReply(m: Msg)
    | Complete(t: nat)

  datatype Step = OnHost(a: Action) | OnGuest(a: Action)

  datatype World = World(me: Side, peer: Side, queues: map<nat, nat>)

  function SetT(s: Side, t: nat, x: Thread): Side { s.(threads := s.threads[t := x]) }

  // A code as the reply carries it, and as connect returns it.
  function Wire(code: int): nat { (-code) % TWO_64 }

  function Code(status: nat): int {
    var low := (0 - status) % (2 * TWO_31);
    if low < TWO_31 then low else low - 2 * TWO_31
  }

  lemma CodeRoundTrip(code: int)
    requires -TWO_31 < code < TWO_31
    ensures Code(Wire(code)) == code && (Wire(code) == 0 <==> code == 0)
  {
  }

  // Why a request is refused, or 0: the tests of the packet handler and of accept, in their order.
  function Refusal(j: Judgement): int {
    var Judgement(listeners, p, memory, verdict) := j;
    if p.port < 0 || p.port >= MAX_PORT then EINVAL
    else if p.port !in listeners then -ECONNREFUSED
    else if listeners[p.port].magic != p.magic then -ECONNREFUSED
    else if listeners[p.port].pktSize != p.pktSize then -ECONNABORTED
    else if !memory then -ENOMEM
    else verdict
  }

  predicate FreshVa(s: Side, va: nat) { va != 0 && va !in s.descs }
  predicate FreshQueue(queues: map<nat, nat>, phys: nat) { phys != 0 && phys !in queues }

  // The new channel has a fresh id, stamped in its fresh receive queue.
  function DoCreate(w: World, t: nat, params: Params, va: nat, phys: nat): World {
    var id := w.me.lastId + 1;
    w.(me := SetT(w.me, t, Created(va, params)).(lastId := id,
         descs := w.me.descs[va := Desc(id, phys, 0, 0, 0, false)],
         log := w.me.log.(asked := w.me.log.asked[id := params])),
       queues := w.queues[phys := id])
  }

  function DoSend(w: World, t: nat): World
    requires t in w.me.threads && w.me.threads[t].Registered? && w.me.threads[t].va in w.me.descs
  {
    var Registered(va, params, res) := w.me.threads[t];
    var d := w.me.descs[va];
    w.(me := SetT(w.me, t, Waiting(va, res)),
       peer := w.peer.(net := w.peer.net + multiset{Connect(d.id, params, 0, d.recvQ, va)}))
  }

  // The connect gives up: its channel and receive queue are freed.
  function DoFail(w: World, t: nat, code: int): World
    requires t in w.me.threads && w.me.threads[t].Owns() && w.me.threads[t].va in w.me.descs
  {
    var va := w.me.threads[t].va;
    w.(me := SetT(w.me, t, Failed(w.me.descs[va].id, code)).(descs := w.me.descs - {va}),
       queues := w.queues - {w.me.descs[va].recvQ})
  }

  // The reply is sent to the requester's side, or cannot be sent; nobody looks at which.
  function Told(s: Side, r: Msg, j: Judgement, sent: bool): Side {
    var log := s.log.(judged := s.log.judged[r.ref := j]);
    if sent then s.(net := s.net + multiset{r}, log := log) else s.(log := log.(lost := log.lost + {r.ref}))
  }

  function DoRefuse(w: World, m: Msg, r: int, created: bool, j: Judgement, sent: bool): World {
    w.(me := w.me.(net := w.me.net - multiset{m}, lastId := if created then w.me.lastId + 1 else w.me.lastId),
       peer := Told(w.peer, Reply(m.ref, Wire(r), 0, 0, 0), j, sent))
  }

  function DoAccept(w: World, m: Msg, va: nat, phys: nat, j: Judgement, sent: bool): World
    requires m.Connect?
  {
    var id := w.me.lastId + 1;
    w.(me := w.me.(net := w.me.net - multiset{m}, lastId := id,
         descs := w.me.descs[va := Desc(id, phys, m.sq, m.ref, m.va, true)]),
       queues := w.queues[phys := id],
       peer := Told(w.peer, Reply(m.ref, 0, phys, m.va, va), j, sent))
  }

  function DoTakeReply(w: World, m: Msg): World {
    w.(me := w.me.(net := w.me.net - multiset{m}, threads := Answer(w.me, m)))
  }

  // The reply names the accepting side's queue and descriptor; the queue's header names its channel id.
  function DoFinish(w: World, t: nat, m: Msg): World
    requires t in w.me.threads && w.me.threads[t].Waiting? && w.me.threads[t].va in w.me.descs
    requires m.Reply? && m.rq in w.queues
  {
    var va := w.me.threads[t].va;
    w.(me := SetT(w.me, t, Connected(va)).(descs := w.me.descs[va :=
         w.me.descs[va].(sendQ := m.rq, remoteId := w.queues[m.rq], remoteVa := m.newc, enabled := true)]))
  }

  function Act(w: World, a: Action): World {
    var me := w.me;
    match a
    case ListenPort(port, listen) =>
      if 0 <= port < MAX_PORT && port !in me.listeners then w.(me := me.(listeners := me.listeners[port := listen]))
      else w
    case Create(t, params, va, phys) =>
      if t in me.threads && (me.threads[t].Idle? || me.threads[t].Failed?) && FreshVa(me, va)
      && FreshQueue(w.queues, phys)
      then DoCreate(w, t, params, va, phys) else w
    case Register(t) =>
      if t in me.threads && me.threads[t].Created?
      then w.(me := SetT(me, t, Registered(me.threads[t].va, me.threads[t].params, None))) else w
    case Send(t, ok) =>
      if t !in me.threads || !me.threads[t].Registered? || me.threads[t].va !in me.descs then w
      else if ok then DoSend(w, t)
      else DoFail(w, t, -EBUSY)
    case Accept(m, va, phys, memory, verdict, sent) =>
      if m !in me.net || !m.Connect? || !(-TWO_31 < verdict < TWO_31) then w
      else
        var j := Judgement(me.listeners, m.params, memory, verdict);
        var r := Refusal(j);
        if r != 0 then DoRefuse(w, m, r, Refusal(j.(verdict := 0)) == 0, j, sent)
        else if FreshVa(me, va) && FreshQueue(w.queues, phys) then DoAccept(w, m, va, phys, j, sent)
        else w
    case TakeReply(m) =>
      if m in me.net && m.Reply? then DoTakeReply(w, m) else w
    case Complete(t) =>
      if t !in me.threads || !me.threads[t].Waiting? || me.threads[t].res.None? || me.threads[t].va !in me.descs then w
      else
        var m := me.threads[t].res.value;
        if !m.Reply? then w
        else if m.status != 0 then DoFail(w, t, Code(m.status))
        else if m.rq in w.queues then DoFinish(w, t, m)
        else w
  }

  // The reply handler copies the reply into every wait entry registered under its reference.
  function Answer(s: Side, m: Msg): map<nat, Thread> {
    map t | t in s.threads ::
      if s.threads[t].OnWaitList() && s.threads[t].va in s.descs && s.descs[s.threads[t].va].id == m.ref
      then s.threads[t].(res := Some(m)) else s.threads[t]
  }

  function Apply(s: State, step: Step): State {
    match step
    case OnHost(a) => var w := Act(World(s.host, s.guest, s.queues), a); State(w.me, w.peer, w.queues)
    case OnGuest(a) => var w := Act(World(s.guest, s.host, s.queues), a); State(w.peer, w.me, w.queues)
  }

  function Final(s: State, steps: seq<Step>): State {
    if steps == [] then s else Apply(Final(s, steps[..|steps| - 1]), steps[|steps| - 1])
  }

  function Init(hostThreads: set<nat>, guestThreads: set<nat>): State {
    State(Fresh(hostThreads), Fresh(guestThreads), map[])
  }

  function Fresh(threads: set<nat>): Side {
    Side(0, map[], map t | t in threads :: Idle, map[], multiset{}, Log(map[], map[], {}))
  }

  // ---------- Invariants ----------

  // Descriptors have distinct ids and distinct receive queues, each queue stamped with its channel's id.
  ghost predicate DescsOk(s: Side, queues: map<nat, nat>) {
    && (forall va :: va in s.descs ==>
          va != 0 && 1 <= s.descs[va].id <= s.lastId && s.descs[va].recvQ != 0 && s.descs[va].recvQ in queues
            && queues[s.descs[va].recvQ] == s.descs[va].id)
    && (forall va, vb :: va in s.descs && vb in s.descs && va != vb ==>
          s.descs[va].id != s.descs[vb].id && s.descs[va].recvQ != s.descs[vb].recvQ)
  }

  // A thread owns its descriptor alone; it is switched on only once connected.
  ghost predicate ThreadsOk(s: Side) {
    && (forall t :: t in s.threads && s.threads[t].Owns() ==> s.threads[t].va in s.descs)
    && (forall t :: t in s.threads && s.threads[t].Owns() && !s.threads[t].Connected? ==>
      !s.descs[s.threads[t].va].enabled)
    && (forall t, u :: t in s.threads && u in s.threads && t != u && s.threads[t].Owns() && s.threads[u].Owns()
          ==> s.threads[t].va != s.threads[u].va)
    && (forall t :: t in s.threads && s.threads[t].Registered? ==> s.threads[t].res == None)
  }

  ghost predicate QueuesApart(me: Side, peer: Side) {
    forall va, vb :: va in me.descs && vb in peer.descs ==> me.descs[va].recvQ != peer.descs[vb].recvQ
  }

  // A thread of `me` waits, unanswered, with the descriptor of the given id.
  ghost predicate Unanswered(me: Side, va: nat, id: nat) {
    va in me.descs && me.descs[va].id == id && exists t :: t in me.threads && me.threads[t] == Waiting(va, None)
  }

  // The accepting side's half of a connection to the channel `va`.
  ghost predicate Accepted(me: Side, va: nat, peer: Side, newc: nat, rq: nat) {
    va in me.descs && newc in peer.descs && peer.descs[newc].enabled
    && peer.descs[newc].recvQ == rq && peer.descs[newc].sendQ == me.descs[va].recvQ
    && peer.descs[newc].remoteId == me.descs[va].id && peer.descs[newc].remoteVa == va
  }

  ghost predicate RequestsOk(me: Side, peer: Side) {
    && (forall m :: m in peer.net && m.Connect? ==>
          peer.net[m] == 1 && Unanswered(me, m.va, m.ref) && m.rq == 0 && m.sq == me.descs[m.va].recvQ)
    && (forall m, n :: m in peer.net && n in peer.net && m.Connect? && n.Connect? && m.ref == n.ref ==> m == n)
  }

  ghost predicate ReplyFits(me: Side, peer: Side, va: nat, m: Msg) {
    m.Reply? && va in me.descs && me.descs[va].id == m.ref
      && (m.status == 0 ==> m.va == va && Accepted(me, va, peer, m.newc, m.rq))
  }

  ghost predicate RepliesOk(me: Side, peer: Side) {
    && (forall m :: m in me.net && m.Reply? ==>
          me.net[m] == 1 && exists va :: Unanswered(me, va, m.ref) && ReplyFits(me, peer, va, m))
    && (forall m, n :: m in me.net && n in me.net && m.Reply? && n.Reply? && m.ref == n.ref ==> m == n)
    && (forall m, n :: m in me.net && n in peer.net && m.Reply? && n.Connect? ==> m.ref != n.ref)
  }

  // A thread holds only a reply to its own request.
  ghost predicate AnswersOk(me: Side, peer: Side) {
    forall t :: t in me.threads && me.threads[t].Waiting? && me.threads[t].res.Some? ==>
      ReplyFits(me, peer, me.threads[t].va, me.threads[t].res.value)
  }

  // Both ends of a connection name each other's queues, ids and descriptors.
  ghost predicate CrossLinked(c: Desc, va: nat, d: Desc, vb: nat) {
    && c.sendQ == d.recvQ && d.sendQ == c.recvQ
    && c.remoteId == d.id && d.remoteId == c.id
    && c.remoteVa == vb && d.remoteVa == va
    && c.enabled && d.enabled
  }

  ghost predicate ConnectedOk(me: Side, peer: Side) {
    forall t :: t in me.threads && me.threads[t].Connected? ==>
      var va := me.threads[t].va;
      va in me.descs && me.descs[va].remoteVa in peer.descs
      && CrossLinked(me.descs[va], va, peer.descs[me.descs[va].remoteVa], me.descs[va].remoteVa)
  }

  // A request sent and not answered is still on its way, or its reply is, or its reply was lost.
  ghost predicate NobodyForgotten(me: Side, peer: Side) {
    forall t :: t in me.threads && me.threads[t].Waiting? && me.threads[t].res.None? && me.threads[t].va in me.descs ==>
      Remembered(me, peer, me.descs[me.threads[t].va].id)
  }

  ghost predicate Remembered(me: Side, peer: Side, id: nat) {
    || (exists m :: m in peer.net && m.Connect? && m.ref == id)
    || (exists m :: m in me.net && m.Reply? && m.ref == id)
    || id in me.log.lost
  }

  // A request whose reply was lost waits, and nothing about it is on its way.
  ghost predicate LostOk(me: Side, peer: Side) {
    && (forall id :: id in me.log.lost ==> SomeUnanswered(me, id))
    && (forall m :: m in peer.net && m.Connect? ==> m.ref !in me.log.lost)
    && (forall m :: m in me.net && m.Reply? ==> m.ref !in me.log.lost)
  }

  ghost predicate SomeUnanswered(me: Side, id: nat) {
    exists va :: Unanswered(me, va, id)
  }

  ghost predicate Half(me: Side, peer: Side) {
    RequestsOk(me, peer) && RepliesOk(me, peer) && AnswersOk(me, peer) && ConnectedOk(me, peer)
      && NobodyForgotten(me, peer) && LostOk(me, peer)
  }

  ghost predicate Base(w: World) {
    DescsOk(w.me, w.queues) && DescsOk(w.peer, w.queues) && QueuesApart(w.me, w.peer) && ThreadsOk(w.me)
      && ThreadsOk(w.peer)
  }

  ghost predicate WorldOk(w: World) { Base(w) && Half(w.me, w.peer) && Half(w.peer, w.me) }

  // ---------- Frames ----------

  // A switched-on descriptor never changes and is never freed.
  ghost predicate EnabledKept(s: Side, s': Side) {
    forall va :: va in s.descs && s.descs[va].enabled ==> va in s'.descs && s'.descs[va] == s.descs[va]
  }

  ghost predicate SameThread(s: Side, s': Side, t: nat)
    requires t in s.threads
  {
    t in s'.threads && s'.threads[t] == s.threads[t]
    && (s.threads[t].Owns() && s.threads[t].va in s.descs ==>
      s.threads[t].va in s'.descs && s'.descs[s.threads[t].va] == s.descs[s.threads[t].va])
  }

  // Nobody waiting for an answer is disturbed.
  ghost predicate WaitersKept(s: Side, s': Side) {
    forall t :: t in s.threads && s.threads[t].Waiting? && s.threads[t].res.None? ==> SameThread(s, s', t)
  }

  // Nobody starts waiting, is answered, or becomes connected.
  ghost predicate NoNewcomer(s: Side, s': Side) {
    forall t :: t in s'.threads && (s'.threads[t].Waiting? || s'.threads[t].Connected?) ==>
      t in s.threads && SameThread(s, s', t)
  }

  ghost predicate Fewer(net: multiset<Msg>, net': multiset<Msg>, connect: bool) {
    forall m :: m in net' && m.Connect? == connect ==> net'[m] <= net[m]
  }

  ghost predicate Remain(net: multiset<Msg>, net': multiset<Msg>, connect: bool) {
    forall m :: m in net && m.Connect? == connect ==> m in net'
  }

  lemma UnansweredFrame(me: Side, me': Side, va: nat, id: nat)
    requires Unanswered(me, va, id) && WaitersKept(me, me')
    ensures Unanswered(me', va, id) && me'.descs[va] == me.descs[va]
  {
    var t :| t in me.threads && me.threads[t] == Waiting(va, None);
    assert SameThread(me, me', t);
  }

  lemma RequestsFrame(me: Side, peer: Side, me': Side, peer': Side)
    requires RequestsOk(me, peer) && WaitersKept(me, me') && Fewer(peer.net, peer'.net, true)
    ensures RequestsOk(me', peer')
  {
    forall m | m in peer'.net && m.Connect?
      ensures peer'.net[m] == 1 && Unanswered(me', m.va, m.ref) && m.rq == 0 && m.sq == me'.descs[m.va].recvQ
    {
      assert m in peer.net;
      UnansweredFrame(me, me', m.va, m.ref);
    }
  }

  lemma RepliesFrame(me: Side, peer: Side, me': Side, peer': Side)
    requires RepliesOk(me, peer) && WaitersKept(me, me') && EnabledKept(peer, peer')
    requires Fewer(peer.net, peer'.net, true) && Fewer(me.net, me'.net, false)
    ensures RepliesOk(me', peer')
  {
    forall m | m in me'.net && m.Reply?
      ensures me'.net[m] == 1 && exists va :: Unanswered(me', va, m.ref) && ReplyFits(me', peer', va, m)
    {
      assert m in me.net;
      var va :| Unanswered(me, va, m.ref) && ReplyFits(me, peer, va, m);
      UnansweredFrame(me, me', va, m.ref);
      assert ReplyFits(me', peer', va, m);
    }
  }

  lemma AnswersFrame(me: Side, peer: Side, me': Side, peer': Side)
    requires AnswersOk(me, peer) && ConnectedOk(me, peer) && NoNewcomer(me, me') && EnabledKept(peer, peer')
    ensures AnswersOk(me', peer') && ConnectedOk(me', peer')
  {
  }

  lemma ForgottenFrame(me: Side, peer: Side, me': Side, peer': Side)
    requires NobodyForgotten(me, peer) && ThreadsOk(me) && NoNewcomer(me, me') && me.log.lost <= me'.log.lost
    requires Remain(peer.net, peer'.net, true) && Remain(me.net, me'.net, false)
    ensures NobodyForgotten(me', peer')
  {
    forall t | t in me'.threads && me'.threads[t].Waiting? && me'.threads[t].res.None? && me'.threads[t].va in me'.descs
      ensures Remembered(me', peer', me'.descs[me'.threads[t].va].id)
    {
      assert SameThread(me, me', t);
      RememberedFrame(me, peer, me', peer', me.descs[me.threads[t].va].id);
    }
  }

  lemma RememberedFrame(me: Side, peer: Side, me': Side, peer': Side, id: nat)
    requires Remembered(me, peer, id) && Remain(peer.net, peer'.net, true) && Remain(me.net, me'.net, false)
    requires me.log.lost <= me'.log.lost
    ensures Remembered(me', peer', id)
  {
    if m :| m in peer.net && m.Connect? && m.ref == id {
      assert m in peer'.net;
    } else if m :| m in me.net && m.Reply? && m.ref == id {
      assert m in me'.net;
    }
  }

  lemma LostFrame(me: Side, peer: Side, me': Side, peer': Side)
    requires LostOk(me, peer) && WaitersKept(me, me') && me'.log.lost == me.log.lost
    requires Fewer(peer.net, peer'.net, true) && Fewer(me.net, me'.net, false)
    ensures LostOk(me', peer')
  {
    forall id | id in me'.log.lost ensures SomeUnanswered(me', id) {
      assert SomeUnanswered(me, id);
      var va :| Unanswered(me, va, id);
      UnansweredFrame(me, me', va, id);
    }
    forall m | m in peer'.net && m.Connect? ensures m in peer.net {}
    forall m | m in me'.net && m.Reply? ensures m in me.net {}
  }

  ghost predicate Steady(s: Side, s': Side) { WaitersKept(s, s') && NoNewcomer(s, s') && EnabledKept(s, s') }

  // With the messages between them kept and both sides steady, nothing about requests changes.
  lemma HalfFrame(me: Side, peer: Side, me': Side, peer': Side)
    requires Half(me, peer) && ThreadsOk(me) && Steady(me, me') && EnabledKept(peer, peer')
    requires me'.log.lost == me.log.lost
    requires Fewer(peer.net, peer'.net, true) && Fewer(me.net, me'.net, false)
    requires Remain(peer.net, peer'.net, true) && Remain(me.net, me'.net, false)
    ensures Half(me', peer')
  {
    RequestsFrame(me, peer, me', peer');
    RepliesFrame(me, peer, me', peer');
    AnswersFrame(me, peer, me', peer');
    ForgottenFrame(me, peer, me', peer');
    LostFrame(me, peer, me', peer');
  }

  lemma SameNets(w: World, w': World)
    requires w'.me.net == w.me.net && w'.peer.net == w.peer.net
    ensures Fewer(w.me.net, w'.me.net, true) && Fewer(w.me.net, w'.me.net, false)
      && Fewer(w.peer.net, w'.peer.net, true) && Fewer(w.peer.net, w'.peer.net, false)
    ensures Remain(w.me.net, w'.me.net, true) && Remain(w.me.net, w'.me.net, false)
      && Remain(w.peer.net, w'.peer.net, true) && Remain(w.peer.net, w'.peer.net, false)
  {
  }

  // A steady change at one side that leaves the messages alone.
  lemma QuietChange(w: World, w': World)
    requires WorldOk(w) && Base(w') && Steady(w.me, w'.me) && w'.peer == w.peer && w'.me.net == w.me.net
    requires w'.me.log.lost == w.me.log.lost
    ensures WorldOk(w')
  {
    StaysSteady(w.peer);
    SameNets(w, w');
    QuietHalves(w, w');
  }

  lemma StaysSteady(s: Side)
    requires ThreadsOk(s)
    ensures Steady(s, s)
  {
  }

  lemma QuietHalves(w: World, w': World)
    requires Half(w.me, w.peer) && Half(w.peer, w.me) && ThreadsOk(w.me) && ThreadsOk(w.peer)
    requires Steady(w.me, w'.me) && EnabledKept(w.me, w'.me) && Steady(w.peer, w'.peer) && EnabledKept(w.peer, w'.peer)
    requires w'.me.net == w.me.net && w'.peer.net == w.peer.net
    requires w'.me.log.lost == w.me.log.lost && w'.peer.log.lost == w.peer.log.lost
    ensures Half(w'.me, w'.peer) && Half(w'.peer, w'.me)
  {
    hide *;
    SameNets(w, w');
    HalfFrame(w.me, w.peer, w'.me, w'.peer);
    HalfFrame(w.peer, w.me, w'.peer, w'.me);
  }

  // ---------- Descriptors ----------

  lemma AddedDesc(s: Side, queues: map<nat, nat>, va: nat, d: Desc, s': Side)
    requires DescsOk(s, queues) && FreshVa(s, va) && FreshQueue(queues, d.recvQ) && d.id == s.lastId + 1
    requires s'.lastId == d.id && s'.descs == s.descs[va := d]
    ensures DescsOk(s', queues[d.recvQ := d.id])
  {
  }

  lemma OtherQueue(s: Side, queues: map<nat, nat>, phys: nat, id: nat)
    requires DescsOk(s, queues) && FreshQueue(queues, phys)
    ensures DescsOk(s, queues[phys := id])
  {
  }

  lemma FreedDesc(me: Side, peer: Side, queues: map<nat, nat>, va: nat, me': Side)
    requires DescsOk(me, queues) && DescsOk(peer, queues) && QueuesApart(me, peer) && va in me.descs
    requires me'.lastId == me.lastId && me'.descs == me.descs - {va}
    ensures DescsOk(me', queues - {me.descs[va].recvQ}) && DescsOk(peer, queues - {me.descs[va].recvQ})
  {
  }

  // ---------- Each action keeps the invariants ----------

  lemma CreateBase(w: World, t: nat, params: Params, va: nat, phys: nat)
    requires Base(w) && t in w.me.threads && !w.me.threads[t].Owns() && FreshVa(w.me, va) && FreshQueue(w.queues, phys)
    ensures Base(DoCreate(w, t, params, va, phys))
  {
    var w' := DoCreate(w, t, params, va, phys);
    AddedDesc(w.me, w.queues, va, w'.me.descs[va], w'.me);
    OtherQueue(w.peer, w.queues, phys, w'.me.lastId);
    assert QueuesApart(w'.me, w'.peer);
  }

  lemma CreateSteady(w: World, t: nat, params: Params, va: nat, phys: nat)
    requires ThreadsOk(w.me) && t in w.me.threads && !w.me.threads[t].Owns() && FreshVa(w.me, va)
    ensures Steady(w.me, DoCreate(w, t, params, va, phys).me)
  {
  }

  lemma FailBase(w: World, t: nat, code: int)
    requires Base(w) && t in w.me.threads && w.me.threads[t].OnWaitList() && w.me.threads[t].va in w.me.descs
    ensures Base(DoFail(w, t, code))
  {
    FreedDesc(w.me, w.peer, w.queues, w.me.threads[t].va, DoFail(w, t, code).me);
  }

  lemma FailSteady(w: World, t: nat, code: int)
    requires ThreadsOk(w.me) && t in w.me.threads && w.me.threads[t].OnWaitList() && w.me.threads[t].va in w.me.descs
    requires w.me.threads[t].Waiting? ==> w.me.threads[t].res.Some?
    ensures Steady(w.me, DoFail(w, t, code).me)
  {
  }

  // ---------- Sending a request ----------

  // No message mentions the id of a thread that has not sent its request.
  lemma NothingInFlight(w: World, t: nat)
    requires Base(w) && RequestsOk(w.me, w.peer) && RepliesOk(w.me, w.peer) && LostOk(w.me, w.peer)
    requires t in w.me.threads && w.me.threads[t].Registered? && w.me.threads[t].va in w.me.descs
    ensures var id := w.me.descs[w.me.threads[t].va].id;
      && (forall m :: m in w.peer.net && m.Connect? ==> m.ref != id)
      && (forall m :: m in w.me.net && m.Reply? ==> m.ref != id) && id !in w.me.log.lost
  {
    var va := w.me.threads[t].va;
    assert forall vb :: !Unanswered(w.me, vb, w.me.descs[va].id);
  }

  lemma SendHalf(w: World, t: nat)
    requires Base(w) && Half(w.me, w.peer)
    requires t in w.me.threads && w.me.threads[t].Registered? && w.me.threads[t].va in w.me.descs
    ensures Half(DoSend(w, t).me, DoSend(w, t).peer)
  {
    NothingInFlight(w, t);
    SendRequests(w, t);
    SendReplies(w, t);
    SendForgets(w, t);
    SendLost(w, t);
    assert AnswersOk(DoSend(w, t).me, DoSend(w, t).peer) && ConnectedOk(DoSend(w, t).me, DoSend(w, t).peer);
  }

  lemma SendRequests(w: World, t: nat)
    requires ThreadsOk(w.me) && RequestsOk(w.me, w.peer)
    requires t in w.me.threads && w.me.threads[t].Registered? && w.me.threads[t].va in w.me.descs
    requires forall m :: m in w.peer.net && m.Connect? ==> m.ref != w.me.descs[w.me.threads[t].va].id
    ensures RequestsOk(DoSend(w, t).me, DoSend(w, t).peer)
  {
    var w' := DoSend(w, t);
    assert w'.me.threads[t] == Waiting(w.me.threads[t].va, None);
    forall m | m in w.peer.net && m.Connect? ensures Unanswered(w'.me, m.va, m.ref) {
      UnansweredFrame(w.me, w'.me, m.va, m.ref);
    }
  }

  lemma SendReplies(w: World, t: nat)
    requires ThreadsOk(w.me) && RepliesOk(w.me, w.peer)
    requires t in w.me.threads && w.me.threads[t].Registered? && w.me.threads[t].va in w.me.descs
    requires forall m :: m in w.me.net && m.Reply? ==> m.ref != w.me.descs[w.me.threads[t].va].id
    ensures RepliesOk(DoSend(w, t).me, DoSend(w, t).peer)
  {
    var w' := DoSend(w, t);
    forall m | m in w'.me.net && m.Reply?
      ensures w'.me.net[m] == 1 && exists va :: Unanswered(w'.me, va, m.ref) && ReplyFits(w'.me, w'.peer, va, m)
    {
      var va :| Unanswered(w.me, va, m.ref) && ReplyFits(w.me, w.peer, va, m);
      UnansweredFrame(w.me, w'.me, va, m.ref);
      assert ReplyFits(w'.me, w'.peer, va, m);
    }
  }

  lemma SendLost(w: World, t: nat)
    requires ThreadsOk(w.me) && LostOk(w.me, w.peer)
    requires t in w.me.threads && w.me.threads[t].Registered? && w.me.threads[t].va in w.me.descs
    requires w.me.descs[w.me.threads[t].va].id !in w.me.log.lost
    ensures LostOk(DoSend(w, t).me, DoSend(w, t).peer)
  {
    var w' := DoSend(w, t);
    forall id | id in w'.me.log.lost ensures SomeUnanswered(w'.me, id) {
      assert SomeUnanswered(w.me, id);
      var va :| Unanswered(w.me, va, id);
      UnansweredFrame(w.me, w'.me, va, id);
    }
  }

  lemma SendForgets(w: World, t: nat)
    requires ThreadsOk(w.me) && NobodyForgotten(w.me, w.peer)
    requires t in w.me.threads && w.me.threads[t].Registered? && w.me.threads[t].va in w.me.descs
    ensures NobodyForgotten(DoSend(w, t).me, DoSend(w, t).peer)
  {
    var w' := DoSend(w, t);
    forall u | u in w'.me.threads && w'.me.threads[u].Waiting? && w'.me.threads[u].res.None?
      && w'.me.threads[u].va in w'.me.descs
      ensures Remembered(w'.me, w'.peer, w'.me.descs[w'.me.threads[u].va].id)
    {
      var id := w'.me.descs[w'.me.threads[u].va].id;
      if u == t {
        var Registered(va, params, res) := w.me.threads[t];
        assert Connect(id, params, 0, w.me.descs[va].recvQ, va) in w'.peer.net;
      } else {
        assert w.me.threads[u] == w'.me.threads[u];
        RememberedFrame(w.me, w.peer, w'.me, w'.peer, id);
      }
    }
  }

  lemma SendBase(w: World, t: nat)
    requires Base(w) && t in w.me.threads && w.me.threads[t].Registered? && w.me.threads[t].va in w.me.descs
    ensures Base(DoSend(w, t))
  {
  }

  // Sending adds a request, and disturbs nothing that the other direction rests on.
  lemma SendNets(w: World, t: nat)
    requires t in w.me.threads && w.me.threads[t].Registered? && w.me.threads[t].va in w.me.descs
    ensures var w' := DoSend(w, t);
      && Fewer(w.me.net, w'.me.net, true) && Fewer(w.peer.net, w'.peer.net, false)
      && Remain(w.me.net, w'.me.net, true) && Remain(w.peer.net, w'.peer.net, false)
      && w'.peer.log == w.peer.log && EnabledKept(w.me, w'.me)
  {
  }

  lemma SendSteady(w: World, t: nat)
    requires t in w.me.threads && w.me.threads[t].Registered? && w.me.threads[t].va in w.me.descs && ThreadsOk(w.peer)
    ensures Steady(w.peer, DoSend(w, t).peer)
  {
  }

  lemma SendOther(w: World, t: nat)
    requires ThreadsOk(w.peer) && Half(w.peer, w.me)
    requires t in w.me.threads && w.me.threads[t].Registered? && w.me.threads[t].va in w.me.descs
    ensures Half(DoSend(w, t).peer, DoSend(w, t).me)
  {
    hide *;
    var w' := DoSend(w, t);
    SendNets(w, t);
    SendSteady(w, t);
    HalfFrame(w.peer, w.me, w'.peer, w'.me);
  }

  // ---------- Answering a request ----------

  // Taking a request off the wire and putting its reply on, or losing it; `me` may gain the accepted descriptor.
  ghost predicate Answers(w: World, m: Msg, r: Msg, j: Judgement, sent: bool, w': World) {
    && m in w.me.net && m.Connect? && r.Reply? && r.ref == m.ref
    && w'.me.net == w.me.net - multiset{m} && w'.peer == Told(w.peer, r, j, sent)
    && w'.me.threads == w.me.threads && w'.me.log == w.me.log
    && (forall va :: va in w.me.descs ==> va in w'.me.descs && w'.me.descs[va] == w.me.descs[va])
    && (r.status == 0 ==> r.va == m.va && Accepted(w.peer, m.va, w'.me, r.newc, r.rq))
  }

  lemma AnswerMine(w: World, m: Msg, r: Msg, j: Judgement, sent: bool, w': World)
    requires Answers(w, m, r, j, sent, w') && ThreadsOk(w.me) && Half(w.me, w.peer)
    ensures Half(w'.me, w'.peer)
  {
    HalfFrame(w.me, w.peer, w'.me, w'.peer);
  }

  lemma AnswerRequests(w: World, m: Msg, r: Msg, j: Judgement, sent: bool, w': World)
    requires Answers(w, m, r, j, sent, w') && ThreadsOk(w.peer) && RequestsOk(w.peer, w.me) && AnswersOk(w.peer, w.me)
      && ConnectedOk(w.peer, w.me)
    ensures RequestsOk(w'.peer, w'.me) && AnswersOk(w'.peer, w'.me) && ConnectedOk(w'.peer, w'.me)
  {
    RequestsFrame(w.peer, w.me, w'.peer, w'.me);
    AnswersFrame(w.peer, w.me, w'.peer, w'.me);
  }

  // The request that is answered was the only message about its id.
  lemma OnlyRequest(w: World, m: Msg)
    requires RequestsOk(w.peer, w.me) && RepliesOk(w.peer, w.me) && m in w.me.net && m.Connect?
    ensures forall c :: c in w.me.net - multiset{m} && c.Connect? ==> c.ref != m.ref
    ensures forall n :: n in w.peer.net && n.Reply? ==> n.ref != m.ref
    ensures Unanswered(w.peer, m.va, m.ref)
  {
    forall c | c in w.me.net - multiset{m} && c.Connect? ensures c.ref != m.ref {
      assert c in w.me.net && w.me.net[m] == 1;
    }
  }

  ghost predicate ReplyOk(me: Side, peer: Side, n: Msg) {
    me.net[n] == 1 && exists va :: Unanswered(me, va, n.ref) && ReplyFits(me, peer, va, n)
  }

  lemma OldReply(w: World, m: Msg, r: Msg, j: Judgement, sent: bool, w': World, n: Msg)
    requires Answers(w, m, r, j, sent, w') && ReplyOk(w.peer, w.me, n) && n != r
    ensures ReplyOk(w'.peer, w'.me, n)
  {
    var va :| Unanswered(w.peer, va, n.ref) && ReplyFits(w.peer, w.me, va, n);
    UnansweredSame(w.peer, w'.peer, va, n.ref);
    assert ReplyFits(w'.peer, w'.me, va, n);
  }

  lemma NewReply(w: World, m: Msg, r: Msg, j: Judgement, w': World)
    requires Answers(w, m, r, j, true, w') && r !in w.peer.net && Unanswered(w.peer, m.va, m.ref)
    ensures ReplyOk(w'.peer, w'.me, r)
  {
    UnansweredSame(w.peer, w'.peer, m.va, m.ref);
    assert Unanswered(w'.peer, m.va, r.ref) && ReplyFits(w'.peer, w'.me, m.va, r);
  }

  lemma AnswerReplies(w: World, m: Msg, r: Msg, j: Judgement, sent: bool, w': World)
    requires Answers(w, m, r, j, sent, w') && RequestsOk(w.peer, w.me) && RepliesOk(w.peer, w.me)
    ensures RepliesOk(w'.peer, w'.me)
  {
    hide Unanswered; hide ReplyFits; hide Accepted; hide RequestsOk;
    OnlyRequest(w, m);
    forall n | n in w'.peer.net && n.Reply? ensures ReplyOk(w'.peer, w'.me, n) {
      if n == r {
        NewReply(w, m, r, j, w');
      } else {
        assert n in w.peer.net && ReplyOk(w.peer, w.me, n);
        OldReply(w, m, r, j, sent, w', n);
      }
    }
  }

  lemma AnswerForgets(w: World, m: Msg, r: Msg, j: Judgement, sent: bool, w': World)
    requires Answers(w, m, r, j, sent, w') && ThreadsOk(w.peer) && NobodyForgotten(w.peer, w.me)
    ensures NobodyForgotten(w'.peer, w'.me)
  {
    forall t | t in w'.peer.threads && w'.peer.threads[t].Waiting? && w'.peer.threads[t].res.None?
      && w'.peer.threads[t].va in w'.peer.descs
      ensures Remembered(w'.peer, w'.me, w'.peer.descs[w'.peer.threads[t].va].id)
    {
      var id := w.peer.descs[w.peer.threads[t].va].id;
      assert Remembered(w.peer, w.me, id);
      if id == m.ref {
        assert if sent then r in w'.peer.net else id in w'.peer.log.lost;
      } else if n :| n in w.me.net && n.Connect? && n.ref == id {
        assert n in w'.me.net;
      } else if n :| n in w.peer.net && n.Reply? && n.ref == id {
        assert n in w'.peer.net;
      }
    }
  }

  lemma AnswerLost(w: World, m: Msg, r: Msg, j: Judgement, sent: bool, w': World)
    requires Answers(w, m, r, j, sent, w') && RequestsOk(w.peer, w.me) && RepliesOk(w.peer, w.me)
      && LostOk(w.peer, w.me)
    ensures LostOk(w'.peer, w'.me)
  {
    OnlyRequest(w, m);
    forall id | id in w'.peer.log.lost ensures SomeUnanswered(w'.peer, id) {
      if id == m.ref {
        UnansweredSame(w.peer, w'.peer, m.va, id);
      } else {
        assert SomeUnanswered(w.peer, id);
        var va :| Unanswered(w.peer, va, id);
        UnansweredSame(w.peer, w'.peer, va, id);
      }
    }
    forall c | c in w'.me.net && c.Connect? ensures c.ref !in w'.peer.log.lost {
      assert c in w.me.net;
    }
  }

  lemma UnansweredSame(s: Side, s': Side, va: nat, id: nat)
    requires Unanswered(s, va, id) && s'.threads == s.threads && s'.descs == s.descs
    ensures Unanswered(s', va, id)
  {
  }

  lemma AnswerKeeps(w: World, m: Msg, r: Msg, j: Judgement, sent: bool, w': World)
    requires Answers(w, m, r, j, sent, w') && WorldOk(w) && Base(w')
    ensures WorldOk(w')
  {
    AnswerMine(w, m, r, j, sent, w');
    AnswerHalf(w, m, r, j, sent, w');
  }

  lemma AnswerHalf(w: World, m: Msg, r: Msg, j: Judgement, sent: bool, w': World)
    requires Answers(w, m, r, j, sent, w') && ThreadsOk(w.peer) && Half(w.peer, w.me)
    ensures Half(w'.peer, w'.me)
  {
    AnswerRequests(w, m, r, j, sent, w');
    AnswerReplies(w, m, r, j, sent, w');
    AnswerForgets(w, m, r, j, sent, w');
    AnswerLost(w, m, r, j, sent, w');
  }

  lemma RefuseBase(w: World, m: Msg, r: int, created: bool, j: Judgement, sent: bool)
    requires Base(w) && m in w.me.net && m.Connect? && r != 0 && -TWO_31 < r < TWO_31
    ensures Base(DoRefuse(w, m, r, created, j, sent))
      && Answers(w, m, Reply(m.ref, Wire(r), 0, 0, 0), j, sent, DoRefuse(w, m, r, created, j, sent))
  {
    CodeRoundTrip(r);
  }

  lemma RefuseKeeps(w: World, m: Msg, r: int, created: bool, j: Judgement, sent: bool)
    requires WorldOk(w) && m in w.me.net && m.Connect? && r != 0 && -TWO_31 < r < TWO_31
    ensures WorldOk(DoRefuse(w, m, r, created, j, sent))
  {
    hide *;
    Parts(w);
    RefuseBase(w, m, r, created, j, sent);
    AnswerKeeps(w, m, Reply(m.ref, Wire(r), 0, 0, 0), j, sent, DoRefuse(w, m, r, created, j, sent));
  }

  lemma Parts(w: World)
    requires WorldOk(w)
    ensures Base(w) && ThreadsOk(w.me) && ThreadsOk(w.peer) && Half(w.me, w.peer) && Half(w.peer, w.me)
  {
  }

  lemma AcceptBase(w: World, m: Msg, va: nat, phys: nat, j: Judgement, sent: bool)
    requires Base(w) && m.Connect? && FreshVa(w.me, va) && FreshQueue(w.queues, phys)
    ensures Base(DoAccept(w, m, va, phys, j, sent))
  {
    var w' := DoAccept(w, m, va, phys, j, sent);
    AddedDesc(w.me, w.queues, va, w'.me.descs[va], w'.me);
    OtherQueue(w.peer, w.queues, phys, w'.me.lastId);
    assert QueuesApart(w'.me, w'.peer);
  }

  lemma AcceptKeeps(w: World, m: Msg, va: nat, phys: nat, j: Judgement, sent: bool)
    requires WorldOk(w) && m in w.me.net && m.Connect? && FreshVa(w.me, va) && FreshQueue(w.queues, phys)
    ensures WorldOk(DoAccept(w, m, va, phys, j, sent))
  {
    AcceptBase(w, m, va, phys, j, sent);
    AcceptAnswers(w, m, va, phys, j, sent);
    AnswerKeeps(w, m, Reply(m.ref, 0, phys, m.va, va), j, sent, DoAccept(w, m, va, phys, j, sent));
  }

  lemma AcceptAnswers(w: World, m: Msg, va: nat, phys: nat, j: Judgement, sent: bool)
    requires RequestsOk(w.peer, w.me) && m in w.me.net && m.Connect? && FreshVa(w.me, va)
    ensures Answers(w, m, Reply(m.ref, 0, phys, m.va, va), j, sent, DoAccept(w, m, va, phys, j, sent))
  {
  }

  // ---------- Receiving a reply ----------

  // Exactly the thread waiting under the reply's id is answered.
  lemma OneAnswered(w: World, m: Msg, va: nat, t: nat)
    requires DescsOk(w.me, w.queues) && ThreadsOk(w.me) && t in w.me.threads && w.me.threads[t] == Waiting(va, None)
    requires va in w.me.descs && w.me.descs[va].id == m.ref
    ensures Answer(w.me, m) == w.me.threads[t := Waiting(va, Some(m))]
  {
  }

  lemma TakeReplyHalf(w: World, m: Msg, va: nat, t: nat)
    requires Base(w) && Half(w.me, w.peer) && m in w.me.net && m.Reply?
    requires t in w.me.threads && w.me.threads[t] == Waiting(va, None) && ReplyFits(w.me, w.peer, va, m)
    ensures Half(DoTakeReply(w, m).me, DoTakeReply(w, m).peer)
  {
    OneAnswered(w, m, va, t);
    TakeReplyMessages(w, m, va, t);
    TakeReplyForgets(w, m, va, t);
    TakeReplyLost(w, m, va, t);
    var w' := DoTakeReply(w, m);
    assert ReplyFits(w'.me, w'.peer, va, m);
    assert AnswersOk(w'.me, w'.peer) && ConnectedOk(w'.me, w'.peer);
  }

  lemma StillUnanswered(w: World, m: Msg, va: nat, t: nat, vb: nat, id: nat)
    requires Answer(w.me, m) == w.me.threads[t := Waiting(va, Some(m))] && va in w.me.descs
      && w.me.descs[va].id == m.ref
    requires t in w.me.threads && w.me.threads[t] == Waiting(va, None) && Unanswered(w.me, vb, id) && id != m.ref
    ensures Unanswered(DoTakeReply(w, m).me, vb, id)
  {
    var u :| u in w.me.threads && w.me.threads[u] == Waiting(vb, None);
    assert DoTakeReply(w, m).me.threads[u] == Waiting(vb, None);
  }

  lemma TakeReplyMessages(w: World, m: Msg, va: nat, t: nat)
    requires RequestsOk(w.me, w.peer) && RepliesOk(w.me, w.peer) && m in w.me.net && m.Reply?
    requires t in w.me.threads && w.me.threads[t] == Waiting(va, None) && va in w.me.descs && w.me.descs[va].id == m.ref
    requires Answer(w.me, m) == w.me.threads[t := Waiting(va, Some(m))]
    ensures RequestsOk(DoTakeReply(w, m).me, DoTakeReply(w, m).peer)
      && RepliesOk(DoTakeReply(w, m).me, DoTakeReply(w, m).peer)
  {
    var w' := DoTakeReply(w, m);
    forall c | c in w.peer.net && c.Connect? ensures Unanswered(w'.me, c.va, c.ref) {
      StillUnanswered(w, m, va, t, c.va, c.ref);
    }
    forall n | n in w'.me.net && n.Reply?
      ensures w'.me.net[n] == 1 && exists vb :: Unanswered(w'.me, vb, n.ref) && ReplyFits(w'.me, w'.peer, vb, n)
    {
      assert n in w.me.net && n != m;
      var vb :| Unanswered(w.me, vb, n.ref) && ReplyFits(w.me, w.peer, vb, n);
      StillUnanswered(w, m, va, t, vb, n.ref);
      assert ReplyFits(w'.me, w'.peer, vb, n);
    }
  }

  lemma TakeReplyLost(w: World, m: Msg, va: nat, t: nat)
    requires LostOk(w.me, w.peer) && m in w.me.net && m.Reply?
    requires t in w.me.threads && w.me.threads[t] == Waiting(va, None) && va in w.me.descs && w.me.descs[va].id == m.ref
    requires Answer(w.me, m) == w.me.threads[t := Waiting(va, Some(m))]
    ensures LostOk(DoTakeReply(w, m).me, DoTakeReply(w, m).peer)
  {
    var w' := DoTakeReply(w, m);
    forall id | id in w'.me.log.lost ensures SomeUnanswered(w'.me, id) {
      assert SomeUnanswered(w.me, id);
      var vb :| Unanswered(w.me, vb, id);
      StillUnanswered(w, m, va, t, vb, id);
    }
    forall n | n in w'.me.net && n.Reply? ensures n.ref !in w'.me.log.lost {
      assert n in w.me.net;
    }
  }

  lemma TakeReplyForgets(w: World, m: Msg, va: nat, t: nat)
    requires DescsOk(w.me, w.queues) && ThreadsOk(w.me) && NobodyForgotten(w.me, w.peer) && m in w.me.net && m.Reply?
    requires t in w.me.threads && w.me.threads[t] == Waiting(va, None) && va in w.me.descs && w.me.descs[va].id == m.ref
    requires Answer(w.me, m) == w.me.threads[t := Waiting(va, Some(m))]
    ensures NobodyForgotten(DoTakeReply(w, m).me, DoTakeReply(w, m).peer)
  {
    var w' := DoTakeReply(w, m);
    forall u | u in w'.me.threads && w'.me.threads[u].Waiting? && w'.me.threads[u].res.None?
      && w'.me.threads[u].va in w'.me.descs
      ensures Remembered(w'.me, w'.peer, w'.me.descs[w'.me.threads[u].va].id)
    {
      var id := w.me.descs[w.me.threads[u].va].id;
      assert Remembered(w.me, w.peer, id) && id != m.ref;
      if n :| n in w.me.net && n.Reply? && n.ref == id {
        assert n in w'.me.net;
      }
    }
  }

  lemma TakeReplyOther(w: World, m: Msg)
    requires Base(w) && Half(w.peer, w.me) && m in w.me.net && m.Reply?
    ensures Half(DoTakeReply(w, m).peer, DoTakeReply(w, m).me)
  {
    var w' := DoTakeReply(w, m);
    StaysSteady(w.peer);
    HalfFrame(w.peer, w.me, w'.peer, w'.me);
  }

  lemma TakeReplyBase(w: World, m: Msg, va: nat, t: nat)
    requires Base(w) && t in w.me.threads && w.me.threads[t] == Waiting(va, None)
    requires Answer(w.me, m) == w.me.threads[t := Waiting(va, Some(m))]
    ensures Base(DoTakeReply(w, m))
  {
  }

  lemma TakeReplyKeeps(w: World, m: Msg)
    requires WorldOk(w) && m in w.me.net && m.Reply?
    ensures WorldOk(DoTakeReply(w, m))
  {
    var va :| Unanswered(w.me, va, m.ref) && ReplyFits(w.me, w.peer, va, m);
    var t :| t in w.me.threads && w.me.threads[t] == Waiting(va, None);
    OneAnswered(w, m, va, t);
    TakeReplyBase(w, m, va, t);
    TakeReplyHalf(w, m, va, t);
    TakeReplyOther(w, m);
  }

  // ---------- Finishing ----------

  lemma FinishHalf(w: World, t: nat, m: Msg)
    requires Base(w) && Half(w.me, w.peer) && t in w.me.threads && w.me.threads[t].Waiting?
      && w.me.threads[t].res == Some(m)
    requires m.Reply? && m.status == 0 && m.rq in w.queues
    ensures Half(DoFinish(w, t, m).me, DoFinish(w, t, m).peer)
  {
    var w' := DoFinish(w, t, m);
    FinishWaiters(w, t, m);
    RequestsFrame(w.me, w.peer, w'.me, w'.peer);
    RepliesFrame(w.me, w.peer, w'.me, w'.peer);
    FinishLinks(w, t, m);
    FinishForgets(w, t, m);
    LostFrame(w.me, w.peer, w'.me, w'.peer);
  }

  lemma FinishWaiters(w: World, t: nat, m: Msg)
    requires ThreadsOk(w.me) && t in w.me.threads && w.me.threads[t].Waiting? && w.me.threads[t].res == Some(m)
    requires m.Reply? && m.rq in w.queues
    ensures WaitersKept(w.me, DoFinish(w, t, m).me)
  {
  }

  lemma FinishLinks(w: World, t: nat, m: Msg)
    requires Base(w) && AnswersOk(w.me, w.peer) && ConnectedOk(w.me, w.peer)
    requires t in w.me.threads && w.me.threads[t].Waiting? && w.me.threads[t].res == Some(m)
    requires m.Reply? && m.status == 0 && m.rq in w.queues
    ensures AnswersOk(DoFinish(w, t, m).me, DoFinish(w, t, m).peer)
      && ConnectedOk(DoFinish(w, t, m).me, DoFinish(w, t, m).peer)
  {
    assert ReplyFits(w.me, w.peer, w.me.threads[t].va, m);
  }

  lemma FinishForgets(w: World, t: nat, m: Msg)
    requires ThreadsOk(w.me) && NobodyForgotten(w.me, w.peer)
    requires t in w.me.threads && w.me.threads[t].Waiting? && w.me.threads[t].res == Some(m)
    requires m.Reply? && m.rq in w.queues
    ensures NobodyForgotten(DoFinish(w, t, m).me, DoFinish(w, t, m).peer)
  {
    var w' := DoFinish(w, t, m);
    forall u | u in w'.me.threads && w'.me.threads[u].Waiting? && w'.me.threads[u].res.None?
      && w'.me.threads[u].va in w'.me.descs
      ensures Remembered(w'.me, w'.peer, w'.me.descs[w'.me.threads[u].va].id)
    {
      assert w.me.threads[u] == w'.me.threads[u];
      RememberedFrame(w.me, w.peer, w'.me, w'.peer, w.me.descs[w.me.threads[u].va].id);
    }
  }

  lemma FinishOther(w: World, t: nat, m: Msg)
    requires Base(w) && Half(w.peer, w.me) && t in w.me.threads && w.me.threads[t].Waiting? && m.Reply?
      && m.rq in w.queues
    ensures Half(DoFinish(w, t, m).peer, DoFinish(w, t, m).me)
  {
    var w' := DoFinish(w, t, m);
    StaysSteady(w.peer);
    HalfFrame(w.peer, w.me, w'.peer, w'.me);
  }

  lemma FinishBase(w: World, t: nat, m: Msg)
    requires Base(w) && t in w.me.threads && w.me.threads[t].Waiting? && m.Reply? && m.rq in w.queues
    ensures Base(DoFinish(w, t, m))
  {
  }

  // ---------- Every schedule ----------

  lemma SendKeeps(w: World, t: nat)
    requires WorldOk(w) && t in w.me.threads && w.me.threads[t].Registered? && w.me.threads[t].va in w.me.descs
    ensures WorldOk(DoSend(w, t))
  {
    SendBase(w, t);
    SendHalf(w, t);
    SendOther(w, t);
  }

  lemma FinishKeeps(w: World, t: nat, m: Msg)
    requires WorldOk(w) && t in w.me.threads && w.me.threads[t].Waiting? && w.me.threads[t].res == Some(m)
    requires m.Reply? && m.status == 0 && m.rq in w.queues
    ensures WorldOk(DoFinish(w, t, m))
  {
    FinishBase(w, t, m);
    FinishHalf(w, t, m);
    FinishOther(w, t, m);
  }

  lemma FailKeeps(w: World, t: nat, code: int)
    requires WorldOk(w) && t in w.me.threads && w.me.threads[t].OnWaitList() && w.me.threads[t].va in w.me.descs
    requires w.me.threads[t].Waiting? ==> w.me.threads[t].res.Some?
    ensures WorldOk(DoFail(w, t, code))
  {
    FailBase(w, t, code);
    FailSteady(w, t, code);
    QuietChange(w, DoFail(w, t, code));
  }

  lemma CreateKeeps(w: World, t: nat, params: Params, va: nat, phys: nat)
    requires WorldOk(w) && t in w.me.threads && !w.me.threads[t].Owns() && FreshVa(w.me, va)
      && FreshQueue(w.queues, phys)
    ensures WorldOk(DoCreate(w, t, params, va, phys))
  {
    CreateBase(w, t, params, va, phys);
    CreateSteady(w, t, params, va, phys);
    QuietChange(w, DoCreate(w, t, params, va, phys));
  }

  lemma QuietActionBase(w: World, a: Action)
    requires Base(w) && (a.ListenPort? || a.Register?)
    ensures Base(Act(w, a)) && Act(w, a).peer == w.peer && Act(w, a).me.net == w.me.net && Act(w, a).me.log == w.me.log
  {
  }

  lemma QuietActionSteady(w: World, a: Action)
    requires ThreadsOk(w.me) && (a.ListenPort? || a.Register?)
    ensures Steady(w.me, Act(w, a).me)
  {
    var me' := Act(w, a).me;
    assert me'.descs == w.me.descs;
    assert forall t :: t in w.me.threads && !w.me.threads[t].Created? ==> SameThread(w.me, me', t);
  }

  lemma QuietActKeeps(w: World, a: Action)
    requires WorldOk(w) && (a.ListenPort? || a.Register?)
    ensures WorldOk(Act(w, a))
  {
    hide *;
    Parts(w);
    QuietActionBase(w, a);
    QuietActionSteady(w, a);
    QuietChange(w, Act(w, a));
  }

  lemma StartKeeps(w: World, a: Action)
    requires WorldOk(w) && (a.Create? || a.Send?)
    ensures WorldOk(Act(w, a))
  {
    hide WorldOk; hide DoCreate; hide DoSend; hide DoFail;
    if Act(w, a) != w {
      match a
      case Create(t, params, va, phys) => CreateKeeps(w, t, params, va, phys);
      case Send(t, ok) => if ok { SendKeeps(w, t); } else { FailKeeps(w, t, -EBUSY); }
    }
  }

  lemma AcceptActKeeps(w: World, a: Action)
    requires WorldOk(w) && a.Accept?
    ensures WorldOk(Act(w, a))
  {
    hide WorldOk; hide DoRefuse; hide DoAccept;
    if Act(w, a) != w {
      var j := Judgement(w.me.listeners, a.m.params, a.memory, a.verdict);
      if Refusal(j) != 0 {
        RefuseKeeps(w, a.m, Refusal(j), Refusal(j.(verdict := 0)) == 0, j, a.sent);
      } else {
        AcceptKeeps(w, a.m, a.va, a.phys, j, a.sent);
      }
    }
  }

  lemma EndKeeps(w: World, a: Action)
    requires WorldOk(w) && (a.TakeReply? || a.Complete?)
    ensures WorldOk(Act(w, a))
  {
    hide WorldOk; hide DoFail; hide DoTakeReply; hide DoFinish; hide Code;
    if Act(w, a) != w {
      match a
      case TakeReply(m) => TakeReplyKeeps(w, m);
      case Complete(t) =>
        var m := w.me.threads[t].res.value;
        if m.status != 0 { FailKeeps(w, t, Code(m.status)); } else { FinishKeeps(w, t, m); }
    }
  }

  lemma ActKeeps(w: World, a: Action)
    requires WorldOk(w)
    ensures WorldOk(Act(w, a))
  {
    hide *;
    if a.ListenPort? || a.Register? {
      QuietActKeeps(w, a);
    } else if a.Create? || a.Send? {
      StartKeeps(w, a);
    } else if a.Accept? {
      AcceptActKeeps(w, a);
    } else {
      EndKeeps(w, a);
    }
  }

  lemma Swap(w: World)
    requires WorldOk(w)
    ensures WorldOk(World(w.peer, w.me, w.queues))
  {
  }

  ghost predicate StateOk(s: State) { WorldOk(World(s.host, s.guest, s.queues)) }

  lemma StepKeeps(s: State, step: Step)
    requires StateOk(s)
    ensures StateOk(Apply(s, step))
  {
    hide WorldOk; hide Act;
    if step.OnHost? {
      ActKeeps(World(s.host, s.guest, s.queues), step.a);
    } else {
      Swap(World(s.host, s.guest, s.queues));
      ActKeeps(World(s.guest, s.host, s.queues), step.a);
      Swap(Act(World(s.guest, s.host, s.queues), step.a));
    }
  }

  lemma InitOk(hostThreads: set<nat>, guestThreads: set<nat>)
    ensures StateOk(Init(hostThreads, guestThreads))
  {
  }

  lemma FinalUnfolds(s: State, steps: seq<Step>)
    ensures Final(s, steps) == if steps == [] then s else Apply(Final(s, steps[..|steps| - 1]), steps[|steps| - 1])
  {
    hide Apply;
  }

  lemma {:induction false} EveryScheduleIsOk(hostThreads: set<nat>, guestThreads: set<nat>, steps: seq<Step>)
    ensures StateOk(Final(Init(hostThreads, guestThreads), steps))
  {
    hide *;
    FinalUnfolds(Init(hostThreads, guestThreads), steps);
    if steps == [] {
      InitOk(hostThreads, guestThreads);
    } else {
      EveryScheduleIsOk(hostThreads, guestThreads, steps[..|steps| - 1]);
      StepKeeps(Final(Init(hostThreads, guestThreads), steps[..|steps| - 1]), steps[|steps| - 1]);
    }
  }

  // Every channel that a connect returned is cross-linked with a channel of the other side, whatever
  // other connects ran meanwhile, and no two connects share a peer.
  lemma ConnectsAreCrossLinked(hostThreads: set<nat>, guestThreads: set<nat>, steps: seq<Step>)
    ensures var s := Final(Init(hostThreads, guestThreads), steps);
      ConnectedOk(s.host, s.guest) && ConnectedOk(s.guest, s.host) && PeersDistinct(s.host) && PeersDistinct(s.guest)
  {
    EveryScheduleIsOk(hostThreads, guestThreads, steps);
    var s := Final(Init(hostThreads, guestThreads), steps);
    DistinctPeers(World(s.host, s.guest, s.queues));
    Swap(World(s.host, s.guest, s.queues));
    DistinctPeers(World(s.guest, s.host, s.queues));
  }

  ghost predicate PeersDistinct(s: Side) {
    forall t, u :: t in s.threads && u in s.threads && t != u && s.threads[t].Connected? && s.threads[u].Connected?
      && s.threads[t].va in s.descs && s.threads[u].va in s.descs
      ==> s.descs[s.threads[t].va].remoteVa != s.descs[s.threads[u].va].remoteVa
  }

  lemma DistinctPeers(w: World)
    requires WorldOk(w)
    ensures PeersDistinct(w.me)
  {
  }

  // A requester is answered only by a reply that carries the id of its own channel, an id no other
  // channel of its side has.
  ghost predicate OwnReply(me: Side, t: nat)
    requires t in me.threads && me.threads[t].Waiting? && me.threads[t].res.Some?
  {
    var va := me.threads[t].va;
    va in me.descs && me.threads[t].res.value.ref == me.descs[va].id
    && forall vb :: vb in me.descs && vb != va ==> me.descs[vb].id != me.threads[t].res.value.ref
  }

  lemma AnsweredByOwnReply(hostThreads: set<nat>, guestThreads: set<nat>, steps: seq<Step>)
    ensures var s := Final(Init(hostThreads, guestThreads), steps);
      && (forall t :: t in s.host.threads && s.host.threads[t].Waiting? && s.host.threads[t].res.Some? ==>
        OwnReply(s.host, t))
      && (forall t :: t in s.guest.threads && s.guest.threads[t].Waiting? && s.guest.threads[t].res.Some? ==>
        OwnReply(s.guest, t))
  {
    EveryScheduleIsOk(hostThreads, guestThreads, steps);
  }

  // With no message left in flight a connect still waits if and only if its reply was lost.
  lemma ForgottenExactly(hostThreads: set<nat>, guestThreads: set<nat>, steps: seq<Step>)
    requires var s := Final(Init(hostThreads, guestThreads), steps);
      s.host.net == multiset{} && s.guest.net == multiset{}
    ensures var s := Final(Init(hostThreads, guestThreads), steps); WaitsExactly(s.host) && WaitsExactly(s.guest)
  {
    EveryScheduleIsOk(hostThreads, guestThreads, steps);
    var s := Final(Init(hostThreads, guestThreads), steps);
    var w := World(s.host, s.guest, s.queues);
    Parts(w);
    QuietWaits(s.host, s.guest, s.queues);
    QuietWaits(s.guest, s.host, s.queues);
  }

  ghost predicate WaitsExactly(s: Side) {
    forall t :: t in s.threads && s.threads[t].Waiting? ==>
      s.threads[t].va in s.descs && (s.threads[t].res.None? <==> s.descs[s.threads[t].va].id in s.log.lost)
  }

  lemma QuietWaits(me: Side, peer: Side, queues: map<nat, nat>)
    requires DescsOk(me, queues) && ThreadsOk(me) && NobodyForgotten(me, peer) && LostOk(me, peer)
    requires me.net == multiset{} && peer.net == multiset{}
    ensures WaitsExactly(me)
  {
    forall t | t in me.threads && me.threads[t].Waiting?
      ensures me.threads[t].va in me.descs
        && (me.threads[t].res.None? <==> me.descs[me.threads[t].va].id in me.log.lost)
    {
      var id := me.descs[me.threads[t].va].id;
      if me.threads[t].res.None? { assert Remembered(me, peer, id); }
      assert id in me.log.lost ==> SomeUnanswered(me, id);
    }
  }

  lemma ActKeepsLost(w: World, a: Action)
    ensures w.me.log.lost <= Act(w, a).me.log.lost && w.peer.log.lost <= Act(w, a).peer.log.lost
  {
  }

  lemma {:induction false} LostStays(s: State, steps: seq<Step>)
    ensures s.host.log.lost <= Final(s, steps).host.log.lost && s.guest.log.lost <= Final(s, steps).guest.log.lost
  {
    hide Act;
    if steps != [] {
      LostStays(s, steps[..|steps| - 1]);
      var m, a := Final(s, steps[..|steps| - 1]), steps[|steps| - 1].a;
      ActKeepsLost(World(m.host, m.guest, m.queues), a);
      ActKeepsLost(World(m.guest, m.host, m.queues), a);
    }
  }

  lemma {:induction false} FinalConcat(s: State, a: seq<Step>, b: seq<Step>)
    ensures Final(s, a + b) == Final(Final(s, a), b)
  {
    hide Apply;
    if b == [] {
      assert a + b == a;
    } else {
      assert (a + b)[..|a + b| - 1] == a + b[..|b| - 1];
      FinalConcat(s, a, b[..|b| - 1]);
    }
  }

  // A connect whose reply was lost waits for ever: after whatever else happens some thread still waits with it.
  lemma LostWaitsForEver(hostThreads: set<nat>, guestThreads: set<nat>, steps: seq<Step>, more: seq<Step>, id: nat)
    ensures var s, s' := Final(Init(hostThreads, guestThreads), steps),
      Final(Init(hostThreads, guestThreads), steps + more);
      && (id in s.host.log.lost ==> SomeUnanswered(s'.host, id))
      && (id in s.guest.log.lost ==> SomeUnanswered(s'.guest, id))
  {
    hide Final; hide SomeUnanswered;
    var s0 := Init(hostThreads, guestThreads);
    FinalConcat(s0, steps, more);
    LostStays(Final(s0, steps), more);
    EveryScheduleIsOk(hostThreads, guestThreads, steps + more);
  }
}
