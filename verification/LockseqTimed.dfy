/** The whole system with a clock: clients, replicas and the ports between them. Whatever it does, the transition system
    does too. */
module LockseqTimed {
  import opened PancyMsgs
  import opened DbSpec
  import opened LockKeys
  import opened Lockseq
  import opened LockseqNet
  import opened LockseqText
  import opened Netsim
  import LockCheck
  import LockseqCheck

  datatype Delays = Delays(link: nat, send: nat)

  /** Each replica has a port whose sources are clients, each client one whose sources are replicas. */
  datatype Timed = Timed(
    now: nat,
    db: PDb,
    clients: seq<Client>,
    inboxes: map<nat, PortState<nat, PRequest>>,
    mailboxes: map<nat, PortState<nat, PResponse>>,
    served: seq<PRequest>)

  function PortAt<T>(ports: map<nat, PortState<nat, T>>, i: nat): PortState<nat, T> {
    if i in ports then ports[i] else PortState([], [], [], map[])
  }

  datatype TimedStep =
    | TimedBegin(cid: nat, gid: nat, hex: string, nvalues: nat)
    | TimedSend(cid: nat, lost: bool)
    | Arrive(rid: nat, k: nat)
    | TimedServe(rid: nat, lost: bool)
    | Return(cid: nat, k: nat)
    | TimedReceive(cid: nat, pick: nat, wait: bool)
    | TimedTimeout(cid: nat, pick: nat)
    | Tick(t: nat)

  /** The sender's last awaited send to this port is complete. */
  predicate MaySendNow<T>(p: PortState<nat, T>, from: nat, now: nat) {
    from in p.idleAt ==> p.idleAt[from] <= now
  }

  predicate IsDue<T>(p: PortState<nat, T>, k: nat, now: nat) {
    k < |p.inFlight| && k < |p.due| && p.due[k] == now
  }

  predicate NoneBefore<T>(ports: map<nat, PortState<nat, T>>, t: nat) {
    forall i :: i in ports ==> forall k :: 0 <= k < |ports[i].due| ==> t <= ports[i].due[k]
  }

  predicate MayDo(cfg: Config, s: Timed, step: TimedStep) {
    match step
    case TimedBegin(cid, gid, hex, nvalues) =>
      cid < |s.clients| && s.clients[cid].phase == Resting && gid < NGROUPS && |hex| == 7
      && 1 <= nvalues <= MAX_SEQUENCE_LENGTH
    case TimedSend(cid, _) =>
      cid < |s.clients| && Active(s.clients[cid]) && !s.clients[cid].awaiting
      && MaySendNow(PortAt(s.inboxes, s.clients[cid].leader), cid, s.now)
    case Arrive(rid, k) => IsDue(PortAt(s.inboxes, rid), k, s.now)
    case TimedServe(rid, _) =>
      var p := PortAt(s.inboxes, rid);
      p.messageq != [] && p.messageq[0].from < |s.clients|
      && MaySendNow(PortAt(s.mailboxes, p.messageq[0].from), rid, s.now)
    case Return(cid, k) => IsDue(PortAt(s.mailboxes, cid), k, s.now)
    case TimedReceive(cid, pick, _) =>
      cid < |s.clients| && Active(s.clients[cid]) && s.clients[cid].awaiting && pick < cfg.nreplicas
      && PortAt(s.mailboxes, cid).messageq != []
    case TimedTimeout(cid, pick) =>
      cid < |s.clients| && Active(s.clients[cid]) && s.clients[cid].awaiting && pick < cfg.nreplicas
    case Tick(t) => s.now <= t && NoneBefore(s.inboxes, t) && NoneBefore(s.mailboxes, t)
  }

  function Do(cfg: Config, d: Delays, s: Timed, step: TimedStep): Timed
    requires MayDo(cfg, s, step)
  {
    match step
    case TimedBegin(cid, gid, hex, nvalues) =>
      s.(clients := s.clients[cid := BeginRound(s.clients[cid], gid, Tag(cid, hex), nvalues)])
    case TimedSend(cid, lost) =>
      var c := s.clients[cid];
      var p := PortAt(s.inboxes, c.leader);
      s.(clients := s.clients[cid := c.(awaiting := true)],
         inboxes := s.inboxes[c.leader := Sent(p, s.now, d.link, d.send, Message(CurrentRequest(c), cid), lost)])
    case Arrive(rid, k) =>
      s.(inboxes := s.inboxes[rid := Delivered(PortAt(s.inboxes, rid), k)])
    case TimedServe(rid, lost) =>
      var p := PortAt(s.inboxes, rid);
      var Message(req, cid) := p.messageq[0];
      var (db, resp) := Respond(cfg, s.db, rid, req);
      s.(db := db,
         inboxes := s.inboxes[rid := Received(p)],
         mailboxes := s.mailboxes[cid :=
           Sent(PortAt(s.mailboxes, cid), s.now, d.link, d.send, Message(resp, rid), lost)],
         served := if rid == cfg.leader then s.served + [req] else s.served)
    case Return(cid, k) =>
      s.(mailboxes := s.mailboxes[cid := Delivered(PortAt(s.mailboxes, cid), k)])
    case TimedReceive(cid, pick, wait) =>
      var p := PortAt(s.mailboxes, cid);
      s.(clients := s.clients[cid := OnMessage(s.clients[cid], p.messageq[0].body, pick, wait)],
         mailboxes := s.mailboxes[cid := Received(p)])
    case TimedTimeout(cid, pick) =>
      s.(clients := s.clients[cid := Retry(s.clients[cid], pick)])
    case Tick(t) => s.(now := t)
  }

  /** The state after a timed run; steps that cannot be done do nothing. */
  function TimedRun(cfg: Config, d: Delays, steps: seq<TimedStep>): Timed
    requires ValidConfig(cfg)
  {
    if steps == [] then Timed(0, EmptyDb(), Init(cfg).clients, map[], map[], [])
    else
      var s, step := TimedRun(cfg, d, steps[..|steps| - 1]), steps[|steps| - 1];
      if MayDo(cfg, s, step) then Do(cfg, d, s, step) else s
  }

  // ----- one port -----

  /** What the channel from `from` holds. */
  function Carried<T>(p: PortState<nat, T>, from: nat): seq<T> {
    Contents(Holds(p.messageq, p.inFlight, from))
  }

  ghost predicate OnTime<T>(d: Delays, now: nat, p: PortState<nat, T>) {
    Timely(now, d.link, d.send, p.inFlight, p.due, p.idleAt)
  }

  lemma SentOnTime<T>(d: Delays, now: nat, p: PortState<nat, T>, m: Message<nat, T>, lost: bool)
    requires OnTime(d, now, p) && d.send > 0 && MaySendNow(p, m.from, now)
    ensures OnTime(d, now, Sent(p, now, d.link, d.send, m, lost))
    ensures forall a :: Carried(Sent(p, now, d.link, d.send, m, lost), a)
                     == Carried(p, a) + if a == m.from && !lost then [m.body] else []
  {
    SentTimely(p, now, d.link, d.send, m, lost);
    if !lost {
      forall a ensures Holds(p.messageq, p.inFlight + [m], a) == Add(Holds(p.messageq, p.inFlight, a), m, a) {
        FromSnoc(p.inFlight, m, a);
      }
    }
  }

  lemma DeliveredOnTime<T>(d: Delays, now: nat, p: PortState<nat, T>, k: nat)
    requires OnTime(d, now, p) && IsDue(p, k, now)
    ensures OnTime(d, now, Delivered(p, k))
    ensures forall a :: Carried(Delivered(p, k), a) == Carried(p, a)
  {
    DeliverTimely(now, d.link, d.send, p.inFlight, p.due, p.idleAt, k);
    DeliverHolds(p.messageq, p.inFlight, k);
  }

  lemma ReceivedCarries<T>(p: PortState<nat, T>)
    requires p.messageq != []
    ensures forall a :: Carried(p, a)
                     == (if a == p.messageq[0].from then [p.messageq[0].body] else []) + Carried(Received(p), a)
  {
    var m := p.messageq[0];
    ReceiveHolds([], p.messageq, p.inFlight);
    forall a ensures Carried(p, a) == (if a == m.from then [m.body] else []) + Carried(Received(p), a) {
      ContentsJoin(Add(Empty, m, a), Holds(p.messageq[1..], p.inFlight, a));
    }
  }

  // ----- the simulation -----

  ghost predicate AllOnTime<T>(d: Delays, now: nat, ports: map<nat, PortState<nat, T>>) {
    forall i :: i in ports ==> OnTime(d, now, ports[i])
  }

  ghost predicate Clocked(d: Delays, t: Timed) {
    d.send > 0 && AllOnTime(d, t.now, t.inboxes) && AllOnTime(d, t.now, t.mailboxes)
  }

  /** The queues of `s` hold what the channels of `t` hold, and all else is the same. */
  ghost predicate Matches(t: Timed, s: System) {
    && t.db == s.db && t.clients == s.clients && t.served == s.served
    && PortsMatch(t.inboxes, s.requests, true) && PortsMatch(t.mailboxes, s.replies, false)
  }

  /** The channel into the port of `here` from `from`: requests go to replicas, replies to clients. */
  function LinkInto(here: nat, from: nat, requests: bool): Channel {
    if requests then Channel(from, here) else Channel(here, from)
  }

  ghost predicate PortsMatch<T>(ports: map<nat, PortState<nat, T>>, queues: map<Channel, seq<T>>, requests: bool) {
    forall here: nat, from: nat :: Queue(queues, LinkInto(here, from, requests)) == Carried(PortAt(ports, here), from)
  }

  lemma SentMatches<T>(d: Delays, now: nat, ports: map<nat, PortState<nat, T>>, queues: map<Channel, seq<T>>,
                       requests: bool, here: nat, m: Message<nat, T>, lost: bool)
    requires PortsMatch(ports, queues, requests) && AllOnTime(d, now, ports)
    requires d.send > 0 && MaySendNow(PortAt(ports, here), m.from, now)
    ensures var ports' := ports[here := Sent(PortAt(ports, here), now, d.link, d.send, m, lost)];
      && PortsMatch(ports', Put(queues, LinkInto(here, m.from, requests), m.body, !lost), requests)
      && AllOnTime(d, now, ports')
  {
    PortOnTime(d, now, ports, here);
    SentOnTime(d, now, PortAt(ports, here), m, lost);
    PutMatches(ports, queues, requests, here, m, lost, Sent(PortAt(ports, here), now, d.link, d.send, m, lost));
  }

  /** One port and its queues have changed, and match. */
  lemma PutMatches<T>(ports: map<nat, PortState<nat, T>>, queues: map<Channel, seq<T>>, requests: bool, here: nat,
                      m: Message<nat, T>, lost: bool, p: PortState<nat, T>)
    requires PortsMatch(ports, queues, requests)
    requires forall a :: Carried(p, a)
                      == Carried(PortAt(ports, here), a) + if a == m.from && !lost then [m.body] else []
    ensures PortsMatch(ports[here := p], Put(queues, LinkInto(here, m.from, requests), m.body, !lost), requests)
  {
  }

  lemma DeliveredMatches<T>(d: Delays, now: nat, ports: map<nat, PortState<nat, T>>, queues: map<Channel, seq<T>>,
                            requests: bool, here: nat, k: nat)
    requires PortsMatch(ports, queues, requests) && AllOnTime(d, now, ports) && IsDue(PortAt(ports, here), k, now)
    ensures var ports' := ports[here := Delivered(PortAt(ports, here), k)];
      PortsMatch(ports', queues, requests) && AllOnTime(d, now, ports')
  {
    PortOnTime(d, now, ports, here);
    DeliveredOnTime(d, now, PortAt(ports, here), k);
  }

  lemma ReceivedMatches<T>(d: Delays, now: nat, ports: map<nat, PortState<nat, T>>, queues: map<Channel, seq<T>>,
                           requests: bool, here: nat)
    requires PortsMatch(ports, queues, requests) && AllOnTime(d, now, ports) && PortAt(ports, here).messageq != []
    ensures var m := PortAt(ports, here).messageq[0]; var ch := LinkInto(here, m.from, requests);
      && Queue(queues, ch) != [] && Queue(queues, ch)[0] == m.body
      && PortsMatch(ports[here := Received(PortAt(ports, here))], Pop(queues, ch), requests)
      && AllOnTime(d, now, ports[here := Received(PortAt(ports, here))])
  {
    var p := PortAt(ports, here);
    PortOnTime(d, now, ports, here);
    ReceivedCarries(p);
    var ch := LinkInto(here, p.messageq[0].from, requests);
    assert Queue(queues, ch) == [p.messageq[0].body] + Carried(Received(p), p.messageq[0].from);
  }

  lemma PortOnTime<T>(d: Delays, now: nat, ports: map<nat, PortState<nat, T>>, i: nat)
    requires AllOnTime(d, now, ports)
    ensures OnTime(d, now, PortAt(ports, i))
  {
  }

  lemma SendSimulates(cfg: Config, d: Delays, t: Timed, s: System, cid: nat, lost: bool)
    requires Clocked(d, t) && Matches(t, s) && MayDo(cfg, t, TimedSend(cid, lost))
    ensures Enabled(cfg, s, Send(cid, !lost))
    ensures Clocked(d, Do(cfg, d, t, TimedSend(cid, lost)))
    ensures Matches(Do(cfg, d, t, TimedSend(cid, lost)), Apply(cfg, s, Send(cid, !lost)))
  {
    var c := t.clients[cid];
    SentMatches(d, t.now, t.inboxes, s.requests, true, c.leader, Message(CurrentRequest(c), cid), lost);
  }

  lemma ArriveSimulates(cfg: Config, d: Delays, t: Timed, s: System, step: TimedStep)
    requires Clocked(d, t) && Matches(t, s) && MayDo(cfg, t, step) && (step.Arrive? || step.Return?)
    ensures Clocked(d, Do(cfg, d, t, step)) && Matches(Do(cfg, d, t, step), s)
  {
    match step
    case Arrive(rid, k) =>
      DeliveredMatches(d, t.now, t.inboxes, s.requests, true, rid, k);
    case Return(cid, k) =>
      DeliveredMatches(d, t.now, t.mailboxes, s.replies, false, cid, k);
  }

  lemma ServeSimulates(cfg: Config, d: Delays, t: Timed, s: System, rid: nat, lost: bool) returns (step: Step)
    requires Clocked(d, t) && Matches(t, s) && MayDo(cfg, t, TimedServe(rid, lost))
    ensures Enabled(cfg, s, step)
    ensures Clocked(d, Do(cfg, d, t, TimedServe(rid, lost)))
    ensures Matches(Do(cfg, d, t, TimedServe(rid, lost)), Apply(cfg, s, step))
  {
    var p := PortAt(t.inboxes, rid);
    var Message(req, cid) := p.messageq[0];
    step := Serve(Channel(cid, rid), !lost);
    ReceivedMatches(d, t.now, t.inboxes, s.requests, true, rid);
    SentMatches(d, t.now, t.mailboxes, s.replies, false, cid, Message(Respond(cfg, t.db, rid, req).1, rid), lost);
  }

  lemma ReceiveSimulates(cfg: Config, d: Delays, t: Timed, s: System, cid: nat, pick: nat, wait: bool)
    returns (step: Step)
    requires Clocked(d, t) && Matches(t, s) && MayDo(cfg, t, TimedReceive(cid, pick, wait))
    ensures Enabled(cfg, s, step)
    ensures Clocked(d, Do(cfg, d, t, TimedReceive(cid, pick, wait)))
    ensures Matches(Do(cfg, d, t, TimedReceive(cid, pick, wait)), Apply(cfg, s, step))
  {
    step := Receive(Channel(cid, PortAt(t.mailboxes, cid).messageq[0].from), pick, wait);
    ReceivedMatches(d, t.now, t.mailboxes, s.replies, false, cid);
  }

  /** Every timed step is one step of the transition system, or none. */
  lemma StepSimulates(cfg: Config, d: Delays, t: Timed, s: System, step: TimedStep) returns (steps: seq<Step>)
    requires Clocked(d, t) && Matches(t, s) && MayDo(cfg, t, step)
    ensures Clocked(d, Do(cfg, d, t, step)) && |steps| <= 1
    ensures steps == [] ==> Matches(Do(cfg, d, t, step), s)
    ensures steps != [] ==> Enabled(cfg, s, steps[0]) && Matches(Do(cfg, d, t, step), Apply(cfg, s, steps[0]))
  {
    match step
    case TimedBegin(cid, gid, hex, nvalues) =>
      steps := [Begin(cid, gid, hex, nvalues)];
    case TimedSend(cid, lost) =>
      SendSimulates(cfg, d, t, s, cid, lost);
      steps := [Send(cid, !lost)];
    case Arrive(_, _) =>
      ArriveSimulates(cfg, d, t, s, step);
      steps := [];
    case TimedServe(rid, lost) =>
      var serve := ServeSimulates(cfg, d, t, s, rid, lost);
      steps := [serve];
    case Return(_, _) =>
      ArriveSimulates(cfg, d, t, s, step);
      steps := [];
    case TimedReceive(cid, pick, wait) =>
      var receive := ReceiveSimulates(cfg, d, t, s, cid, pick, wait);
      steps := [receive];
    case TimedTimeout(cid, pick) =>
      steps := [Timeout(cid, pick)];
    case Tick(_) =>
      steps := [];
  }

  /** For every timed run there is a run of the transition system that ends in the matching state. */
  lemma {:induction false} TimedRunIsRun(cfg: Config, d: Delays, timed: seq<TimedStep>) returns (steps: seq<Step>)
    requires ValidConfig(cfg) && d.send > 0
    ensures Clocked(d, TimedRun(cfg, d, timed)) && Matches(TimedRun(cfg, d, timed), Run(cfg, steps))
  {
    if timed == [] {
      steps := [];
    } else {
      var init, step := timed[..|timed| - 1], timed[|timed| - 1];
      steps := TimedRunIsRun(cfg, d, init);
      if MayDo(cfg, TimedRun(cfg, d, init), step) {
        var more := StepSimulates(cfg, d, TimedRun(cfg, d, init), Run(cfg, steps), step);
        if more != [] {
          RunSnoc(cfg, steps, more[0]);
          steps := steps + [more[0]];
        }
      }
    }
  }

  /** So whatever the timed system has done, what its leader holds is what `check` demands. */
  lemma TimedPassesCheck(cfg: Config, d: Delays, timed: seq<TimedStep>)
    requires ValidConfig(cfg) && d.send > 0
    ensures var es := LockseqCheck.Entries(ProcessAll(EmptyDb(), RenderAll(TimedRun(cfg, d, timed).served), ""));
      LockCheck.Sorted(es) && LockCheck.WellFormed(es)
  {
    var steps := TimedRunIsRun(cfg, d, timed);
    LockseqCheck.EveryDatabasePassesCheck(cfg, steps);
  }

  // ----- a timed run that does something -----

  lemma Longer(cfg: Config, d: Delays, steps: seq<TimedStep>, step: TimedStep) returns (longer: seq<TimedStep>)
    requires ValidConfig(cfg) && MayDo(cfg, TimedRun(cfg, d, steps), step)
    ensures TimedRun(cfg, d, longer) == Do(cfg, d, TimedRun(cfg, d, steps), step)
  {
    longer := steps + [step];
    assert longer[..|longer| - 1] == steps;
  }

  /** The state with one client, whose port and whose replica's port are the only ones. */
  ghost predicate Stage(t: Timed, now: nat, db: PDb, c: Client, served: seq<PRequest>,
                        inbox: PortState<nat, PRequest>, mailbox: PortState<nat, PResponse>) {
    && t.now == now && t.db == db && t.clients == [c] && t.served == served
    && PortAt(t.inboxes, 0) == inbox && (forall i :: i in t.inboxes ==> i == 0)
    && PortAt(t.mailboxes, 0) == mailbox && (forall i :: i in t.mailboxes ==> i == 0)
  }

  function Idle<T>(idleAt: map<nat, nat>): PortState<nat, T> { PortState([], [], [], idleAt) }

  function InFlight<T>(body: T, due: nat, idleAt: map<nat, nat>): PortState<nat, T> {
    PortState([Message(body, 0)], [due], [], idleAt)
  }

  function Waiting<T>(body: T, idleAt: map<nat, nat>): PortState<nat, T> {
    PortState([], [], [Message(body, 0)], idleAt)
  }

  lemma SentFlies<T>(d: Delays, now: nat, p: PortState<nat, T>, body: T)
    requires p == Idle(map[])
    ensures Sent(p, now, d.link, d.send, Message(body, 0), false)
         == InFlight(body, now + d.link, map[0 := now + d.send])
  {
    assert map[][0 := now + d.send] == map[0 := now + d.send];
  }

  lemma DeliveredWaits<T>(p: PortState<nat, T>, body: T, due: nat, idleAt: map<nat, nat>)
    requires p == InFlight(body, due, idleAt)
    ensures Delivered(p, 0) == Waiting(body, idleAt)
  {
  }

  lemma ReceivedIsIdle<T>(p: PortState<nat, T>, body: T, idleAt: map<nat, nat>)
    requires p == Waiting(body, idleAt)
    ensures Received(p) == Idle(idleAt)
  {
  }

  /** The client sends its lock request. */
  lemma RequestLeaves(cfg: Config, d: Delays, t: Timed, c: Client)
    requires Stage(t, 0, EmptyDb(), c, [], Idle(map[]), Idle(map[]))
    requires Active(c) && !c.awaiting && c.leader == 0 && c.phase == Locking
    ensures MayDo(cfg, t, TimedSend(0, false))
    ensures Stage(Do(cfg, d, t, TimedSend(0, false)), 0, EmptyDb(), c.(awaiting := true), [],
                  InFlight(LockRequest(c), d.link, map[0 := d.send]), Idle(map[]))
  {
    SentFlies(d, 0, PortAt(t.inboxes, 0), LockRequest(c));
  }

  /** The clock moves to the request's arrival. */
  lemma RequestIsDue(cfg: Config, d: Delays, t: Timed, db: PDb, c: Client, req: PRequest, idle: map<nat, nat>)
    requires Stage(t, 0, db, c, [], InFlight(req, d.link, idle), Idle(map[]))
    ensures MayDo(cfg, t, Tick(d.link))
    ensures Stage(Do(cfg, d, t, Tick(d.link)), d.link, db, c, [], InFlight(req, d.link, idle), Idle(map[]))
  {
  }

  lemma RequestArrives(cfg: Config, d: Delays, t: Timed, db: PDb, c: Client, req: PRequest, idle: map<nat, nat>)
    requires Stage(t, d.link, db, c, [], InFlight(req, d.link, idle), Idle(map[]))
    ensures MayDo(cfg, t, Arrive(0, 0))
    ensures Stage(Do(cfg, d, t, Arrive(0, 0)), d.link, db, c, [], Waiting(req, idle), Idle(map[]))
  {
    DeliveredWaits(PortAt(t.inboxes, 0), req, d.link, idle);
  }

  /** The leader serves it, and its answer is in flight. */
  lemma RequestIsServed(cfg: Config, d: Delays, t: Timed, c: Client, req: PRequest, idle: map<nat, nat>)
    requires cfg.leader == 0
    requires Stage(t, d.link, EmptyDb(), c, [], Waiting(req, idle), Idle(map[]))
    ensures MayDo(cfg, t, TimedServe(0, false))
    ensures var (db, resp) := Process(EmptyDb(), req, NoTag);
      Stage(Do(cfg, d, t, TimedServe(0, false)), d.link, db, c, [req], Idle(idle),
            InFlight(resp, d.link + d.link, map[0 := d.link + d.send]))
  {
    ReceivedIsIdle(PortAt(t.inboxes, 0), req, idle);
    SentFlies(d, d.link, PortAt(t.mailboxes, 0), Process(EmptyDb(), req, NoTag).1);
  }

  /** The clock moves to the answer's arrival. */
  lemma AnswerIsDue(cfg: Config, d: Delays, t: Timed, db: PDb, c: Client, served: seq<PRequest>, resp: PResponse,
                    idle: map<nat, nat>, busy: map<nat, nat>)
    requires Stage(t, d.link, db, c, served, Idle(idle), InFlight(resp, d.link + d.link, busy))
    ensures MayDo(cfg, t, Tick(d.link + d.link))
    ensures Stage(Do(cfg, d, t, Tick(d.link + d.link)), d.link + d.link, db, c, served, Idle(idle),
                  InFlight(resp, d.link + d.link, busy))
  {
  }

  lemma AnswerArrives(cfg: Config, d: Delays, t: Timed, db: PDb, c: Client, served: seq<PRequest>, resp: PResponse,
                      idle: map<nat, nat>, busy: map<nat, nat>)
    requires Stage(t, d.link + d.link, db, c, served, Idle(idle), InFlight(resp, d.link + d.link, busy))
    ensures MayDo(cfg, t, Return(0, 0))
    ensures Stage(Do(cfg, d, t, Return(0, 0)), d.link + d.link, db, c, served, Idle(idle), Waiting(resp, busy))
  {
    DeliveredWaits(PortAt(t.mailboxes, 0), resp, d.link + d.link, busy);
  }

  /** The first lock request of all succeeds, and its answer takes the client on. */
  lemma LockSucceeds(c: Client)
    requires c.phase == Locking && c.awaiting && c.value.Tag? && c.nvalues >= 1
    ensures var (db, resp) := Process(EmptyDb(), LockRequest(c), NoTag);
      var c' := OnMessage(c, resp, 0, false);
      && c'.phase == Writing && c'.gid == c.gid && c'.value == c.value
      && Lock(c.gid) in db.kv && db.kv[Lock(c.gid)] == Versioned(c.value, c'.lockVersion)
  {
  }

  /** The client accepts the answer and has its lock. */
  lemma AnswerIsAccepted(cfg: Config, d: Delays, t: Timed, now: nat, c: Client, resp: PResponse, db: PDb,
                         idle: map<nat, nat>, busy: map<nat, nat>)
    requires c.phase == Locking && c.awaiting && c.value.Tag? && c.nvalues >= 1 && cfg.nreplicas > 0
    requires Stage(t, now, db, c, [LockRequest(c)], Idle(idle), Waiting(resp, busy))
    requires (db, resp) == Process(EmptyDb(), LockRequest(c), NoTag)
    ensures MayDo(cfg, t, TimedReceive(0, 0, false)) && HasLock(Do(cfg, d, t, TimedReceive(0, 0, false)), now)
  {
    LockSucceeds(c);
  }

  /** One request was served by `now`, and the one client has its lock. */
  ghost predicate HasLock(t: Timed, now: nat) {
    && t.now == now && |t.served| == 1 && |t.clients| == 1 && t.clients[0].phase == Writing
    && Lock(t.clients[0].gid) in t.db.kv
    && t.db.kv[Lock(t.clients[0].gid)] == Versioned(t.clients[0].value, t.clients[0].lockVersion)
  }

  /** A client has begun its round and sent its lock request. */
  lemma RequestInFlight(cfg: Config, d: Delays) returns (timed: seq<TimedStep>, c: Client)
    requires cfg == Config(1, 1, 0, [0])
    ensures c.phase == Locking && c.awaiting && c.value.Tag? && c.nvalues >= 1
    ensures Stage(TimedRun(cfg, d, timed), 0, EmptyDb(), c, [],
                  InFlight(LockRequest(c), d.link, map[0 := d.send]), Idle(map[]))
  {
    var begin, send := TimedBegin(0, 0, "0123456", 1), TimedSend(0, false);
    timed := Longer(cfg, d, [], begin);
    c := BeginRound(Init(cfg).clients[0], 0, Tag(0, "0123456"), 1);
    RequestLeaves(cfg, d, TimedRun(cfg, d, timed), c);
    timed := Longer(cfg, d, timed, send);
    c := c.(awaiting := true);
  }

  /** It is served, and the answer is in flight. */
  lemma AnswerInFlight(cfg: Config, d: Delays) returns (timed: seq<TimedStep>, c: Client)
    requires cfg == Config(1, 1, 0, [0])
    ensures c.phase == Locking && c.awaiting && c.value.Tag? && c.nvalues >= 1
    ensures var (db, resp) := Process(EmptyDb(), LockRequest(c), NoTag);
      Stage(TimedRun(cfg, d, timed), d.link, db, c, [LockRequest(c)], Idle(map[0 := d.send]),
            InFlight(resp, d.link + d.link, map[0 := d.link + d.send]))
  {
    timed, c := RequestInFlight(cfg, d);
    var req, idle := LockRequest(c), map[0 := d.send];
    RequestIsDue(cfg, d, TimedRun(cfg, d, timed), EmptyDb(), c, req, idle);
    timed := Longer(cfg, d, timed, Tick(d.link));
    RequestArrives(cfg, d, TimedRun(cfg, d, timed), EmptyDb(), c, req, idle);
    timed := Longer(cfg, d, timed, Arrive(0, 0));
    RequestIsServed(cfg, d, TimedRun(cfg, d, timed), c, req, idle);
    timed := Longer(cfg, d, timed, TimedServe(0, false));
  }

  /** The clock does not stand in the way: with any delays there is a run in which a request is sent, arrives, is
      served, and is answered, and the client has its lock. */
  lemma ARequestIsAnswered(d: Delays) returns (cfg: Config, timed: seq<TimedStep>)
    ensures ValidConfig(cfg) && HasLock(TimedRun(cfg, d, timed), d.link + d.link)
  {
    cfg := Config(1, 1, 0, [0]);
    var c;
    timed, c := AnswerInFlight(cfg, d);
    var req, idle, busy := LockRequest(c), map[0 := d.send], map[0 := d.link + d.send];
    var (db, resp) := Process(EmptyDb(), req, NoTag);
    AnswerIsDue(cfg, d, TimedRun(cfg, d, timed), db, c, [req], resp, idle, busy);
    timed := Longer(cfg, d, timed, Tick(d.link + d.link));
    AnswerArrives(cfg, d, TimedRun(cfg, d, timed), db, c, [req], resp, idle, busy);
    timed := Longer(cfg, d, timed, Return(0, 0));
    AnswerIsAccepted(cfg, d, TimedRun(cfg, d, timed), d.link + d.link, c, resp, db, idle, busy);
    timed := Longer(cfg, d, timed, TimedReceive(0, 0, false));
  }
}
