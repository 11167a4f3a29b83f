/** What each step of a run does to a client, its queues and the replicas, field by field. */
module LockseqRounds {
  import opened PancyMsgs
  import opened DbSpec
  import opened LockKeys
  import opened Lockseq
  import opened LockseqInv
  import opened LockseqSafety
  import LockseqSteps

  // ----- requests -----

  /** A round begins with what was picked, under the next serial, and with no tries. */
  lemma RoundBegins(cfg: Config, steps: seq<Step>, cid: nat, gid: nat, hex: string, nvalues: nat)
    requires ValidConfig(cfg) && Enabled(cfg, Run(cfg, steps), Begin(cid, gid, hex, nvalues))
    ensures var s := Run(cfg, steps); var s' := Run(cfg, steps + [Begin(cid, gid, hex, nvalues)]);
      var c := s.clients[cid];
      && s' == s.(clients := s'.clients) && OnlyClient(s, s', cid)
      && s'.clients[cid] == Client(cid, Locking, c.serial + 4096, gid, Tag(cid, hex), nvalues, 0, 0, 0, false, c.leader)
  {
    RunSnoc(cfg, steps, Begin(cid, gid, hex, nvalues));
    LockseqSteps.Always(cfg, steps);
    assert ClientOk(Run(cfg, steps).db, cid, Run(cfg, steps).clients[cid]);
  }

  /** Of the clients, only `cid` may have changed. */
  ghost predicate OnlyClient(s: System, s': System, cid: nat) {
    |s'.clients| == |s.clients| && cid < |s.clients|
    && forall i :: 0 <= i < |s.clients| && i != cid ==> s'.clients[i] == s.clients[i]
  }

  /** The request of each phase. */
  function PhaseRequest(c: Client): PRequest {
    match c.phase
    case Writing => PutRequest(c.serial, Slot(c.gid, c.n), c.value, -1)
    case Clearing => RemoveRequest(c.serial, Slot(c.gid, c.n), -1)
    case Unlocking => RemoveRequest(c.serial, Lock(c.gid), c.lockVersion)
    case _ => CasRequest(c.serial, Lock(c.gid), NoTag, c.value, -1)
  }

  /** A send puts the request of the phase at the end of one queue, unless it is lost, and makes the client wait. */
  lemma SendsItsRequest(cfg: Config, steps: seq<Step>, cid: nat, kept: bool)
    requires ValidConfig(cfg) && Enabled(cfg, Run(cfg, steps), Send(cid, kept))
    ensures var s := Run(cfg, steps); var s' := Run(cfg, steps + [Send(cid, kept)]);
      var c := s.clients[cid]; var link := Channel(cid, c.leader);
      && s'.clients == s.clients[cid := c.(awaiting := true)] && s'.db == s.db && s'.served == s.served
      && s'.replies == s.replies
      && Queue(s'.requests, link) == Queue(s.requests, link) + (if kept then [PhaseRequest(c)] else [])
      && forall ch :: ch != link ==> Queue(s'.requests, ch) == Queue(s.requests, ch)
  {
    RunSnoc(cfg, steps, Send(cid, kept));
  }

  /** A client that is not answered, by a timeout or by a redirection to `leader`, asks again. */
  ghost predicate AsksAgain(c: Client, c': Client, leader: nat, pick: nat) {
    && c' == c.(leader := c'.leader, tries := c.tries + 1, awaiting := false)
    && c'.leader == if c.tries % 3 == 2 then pick else leader
  }

  lemma TimeoutAsksAgain(cfg: Config, steps: seq<Step>, cid: nat, pick: nat)
    requires ValidConfig(cfg) && Enabled(cfg, Run(cfg, steps), Timeout(cid, pick))
    ensures var s := Run(cfg, steps); var s' := Run(cfg, steps + [Timeout(cid, pick)]);
      && s' == s.(clients := s'.clients) && OnlyClient(s, s', cid)
      && AsksAgain(s.clients[cid], s'.clients[cid], s.clients[cid].leader, pick)
  {
    RunSnoc(cfg, steps, Timeout(cid, pick));
  }

  // ----- replies -----

  /** A reply about to be received. */
  function Head(s: System, ch: Channel): PResponse
    requires Queue(s.replies, ch) != []
  {
    Queue(s.replies, ch)[0]
  }

  /** Only the head of one reply queue and one client have changed. */
  ghost predicate Took(s: System, s': System, ch: Channel)
    requires Queue(s.replies, ch) != []
  {
    && s'.db == s.db && s'.requests == s.requests && s'.served == s.served && OnlyClient(s, s', ch.cid)
    && Queue(s.replies, ch) == [Head(s, ch)] + Queue(s'.replies, ch)
    && forall other :: other != ch ==> Queue(s'.replies, other) == Queue(s.replies, other)
  }

  lemma ReceiveTakes(cfg: Config, steps: seq<Step>, ch: Channel, pick: nat, wait: bool)
    requires ValidConfig(cfg) && Enabled(cfg, Run(cfg, steps), Receive(ch, pick, wait))
    ensures Took(Run(cfg, steps), Run(cfg, steps + [Receive(ch, pick, wait)]), ch)
  {
    RunSnoc(cfg, steps, Receive(ch, pick, wait));
  }

  /** A reply to another serial is dropped, and the client keeps waiting. */
  lemma StaleIsDropped(cfg: Config, steps: seq<Step>, ch: Channel, pick: nat, wait: bool)
    requires ValidConfig(cfg) && Enabled(cfg, Run(cfg, steps), Receive(ch, pick, wait))
    requires Head(Run(cfg, steps), ch).serial != Run(cfg, steps).clients[ch.cid].serial
    ensures var s := Run(cfg, steps); var s' := Run(cfg, steps + [Receive(ch, pick, wait)]);
      Took(s, s', ch) && s'.clients == s.clients
  {
    ReceiveTakes(cfg, steps, ch, pick, wait);
    RunSnoc(cfg, steps, Receive(ch, pick, wait));
  }

  /** A redirection with the live serial is followed: the client asks the replica that it names, or a random one on
      every third try, and sends it the very same request. */
  lemma RedirectionIsFollowed(cfg: Config, steps: seq<Step>, ch: Channel, pick: nat, wait: bool, kept: bool)
    requires ValidConfig(cfg) && Enabled(cfg, Run(cfg, steps), Receive(ch, pick, wait))
    requires Head(Run(cfg, steps), ch).RedirectionResponse?
    requires Head(Run(cfg, steps), ch).serial == Run(cfg, steps).clients[ch.cid].serial
    ensures var s := Run(cfg, steps); var c := s.clients[ch.cid];
      var s' := Run(cfg, steps + [Receive(ch, pick, wait)]);
      var s'' := Run(cfg, steps + [Receive(ch, pick, wait), Send(ch.cid, kept)]);
      var asked := if c.tries % 3 == 2 then pick else Head(s, ch).redirection;
      var link := Channel(ch.cid, asked);
      && Took(s, s', ch) && AsksAgain(c, s'.clients[ch.cid], Head(s, ch).redirection, pick)
      && s'.clients[ch.cid].leader == asked
      && Queue(s''.requests, link) == Queue(s.requests, link) + (if kept then [PhaseRequest(c)] else [])
  {
    var receive, send := Receive(ch, pick, wait), Send(ch.cid, kept);
    ReceiveTakes(cfg, steps, ch, pick, wait);
    RunSnoc(cfg, steps, receive);
    SendsItsRequest(cfg, steps + [receive], ch.cid, kept);
    assert steps + [receive, send] == (steps + [receive]) + [send];
  }

  /** The loop that follows an answer: a new serial, no tries, the same round. */
  ghost predicate NextLoop(c: Client, c': Client, phase: Phase, n: nat) {
    && phase == c'.phase && n == c'.n && c'.serial == c.serial + 4096 && c'.tries == 0 && !c'.awaiting
    && c'.cid == c.cid && c'.gid == c.gid && c'.value == c.value && c'.nvalues == c.nvalues && c'.leader == c.leader
  }

  /** What an answer `r` makes of client `c`. From the lock to the first value, from value to value, from the last value
      to clearing, from slot to slot until a first-try miss or the end of the range, to the unlock, and to rest. Only a
      lock held by another client makes it halt, or try again. */
  ghost predicate MovedOn(c: Client, c': Client, r: PResponse, wait: bool) {
    match c.phase
    case Locking =>
      && r.CasResponse?
      && if r.errcode == Ok || r.actual == c.value then NextLoop(c, c', Writing, 0) && c'.lockVersion == r.version
         else if wait then c' == c.(tries := c.tries + 1, awaiting := false)
         else c' == c.(phase := Blocked)
    case Writing =>
      && r.PutResponse? && r.errcode == Ok && c'.lockVersion == c.lockVersion
      && NextLoop(c, c', if c.n + 1 < c.nvalues then Writing else if c.n + 1 < 100 then Clearing else Unlocking,
                  c.n + 1)
    case Clearing =>
      && r.RemoveResponse? && c'.lockVersion == c.lockVersion
      && if r.errcode == NotFound && c.tries == 0 then NextLoop(c, c', Unlocking, c.n)
         else NextLoop(c, c', if c.n + 1 < 100 then Clearing else Unlocking, c.n + 1)
    case _ =>
      r.RemoveResponse? && c' == c.(phase := Resting, awaiting := false)
  }

  /** In every run an answer moves the round on. */
  lemma AnswerMovesOn(cfg: Config, steps: seq<Step>, ch: Channel, pick: nat, wait: bool)
    requires ValidConfig(cfg) && Enabled(cfg, Run(cfg, steps), Receive(ch, pick, wait))
    requires Answering(cfg, Run(cfg, steps), ch)
    ensures var s := Run(cfg, steps); var s' := Run(cfg, steps + [Receive(ch, pick, wait)]);
      Took(s, s', ch) && MovedOn(s.clients[ch.cid], s'.clients[ch.cid], Head(s, ch), wait)
  {
    ReceiveTakes(cfg, steps, ch, pick, wait);
    RunSnoc(cfg, steps, Receive(ch, pick, wait));
    LockseqSteps.Always(cfg, steps);
    AnswerOk(cfg, Run(cfg, steps), ch);
    MovesOn(Run(cfg, steps).db, ch.cid, Run(cfg, steps).clients[ch.cid], Head(Run(cfg, steps), ch), pick, wait);
  }

  lemma MovesOn(db: PDb, i: nat, c: Client, r: PResponse, pick: nat, wait: bool)
    requires ClientOk(db, i, c) && ReplyOk(db, i, c, r) && Answers(c, r) && Active(c)
    ensures MovedOn(c, OnMessage(c, r, pick, wait), r, wait)
  {
  }

  // ----- replicas -----

  /** A replica takes the oldest request of a channel and, unless it is lost, puts its reply on the way back. The leader
      applies the request. Every other replica changes nothing and names the leader. */
  lemma ReplicaAnswers(cfg: Config, steps: seq<Step>, ch: Channel, kept: bool)
    requires ValidConfig(cfg) && Enabled(cfg, Run(cfg, steps), Serve(ch, kept))
    ensures var s := Run(cfg, steps); var s' := Run(cfg, steps + [Serve(ch, kept)]);
      var req := Queue(s.requests, ch)[0];
      var reply := if ch.rid == cfg.leader then Process(s.db, req, NoTag).1
                   else RedirectionResponse(req.serial, Redirect, cfg.leader);
      && s'.clients == s.clients
      && s'.db == (if ch.rid == cfg.leader then Process(s.db, req, NoTag).0 else s.db)
      && s'.served == s.served + (if ch.rid == cfg.leader then [req] else [])
      && Queue(s.requests, ch) == [req] + Queue(s'.requests, ch)
      && Queue(s'.replies, ch) == Queue(s.replies, ch) + (if kept then [reply] else [])
      && forall other :: other != ch ==>
           Queue(s'.requests, other) == Queue(s.requests, other) && Queue(s'.replies, other) == Queue(s.replies, other)
  {
    RunSnoc(cfg, steps, Serve(ch, kept));
  }

  /** Every redirection on its way names the leader, and every client's idea of the leader is a replica. */
  ghost predicate Pointed(cfg: Config, s: System) {
    && (forall ch: Channel, r :: r in Queue(s.replies, ch) && r.RedirectionResponse? ==>
          r.errcode == Redirect && r.redirection == cfg.leader)
    && forall i :: 0 <= i < |s.clients| ==> s.clients[i].leader < cfg.nreplicas
  }

  lemma StepPoints(cfg: Config, s: System, step: Step)
    requires ValidConfig(cfg) && Pointed(cfg, s) && Enabled(cfg, s, step)
    ensures Pointed(cfg, Apply(cfg, s, step))
  {
    var s' := Apply(cfg, s, step);
    forall ch: Channel, r | r in Queue(s'.replies, ch) && r.RedirectionResponse?
      ensures r.errcode == Redirect && r.redirection == cfg.leader
    {
      if r !in Queue(s.replies, ch) {
        assert step.Serve? && r == Respond(cfg, s.db, step.ch.rid, Queue(s.requests, step.ch)[0]).1;
      }
    }
    if step.Receive? { assert Queue(s.replies, step.ch)[0] in Queue(s.replies, step.ch); }
  }

  lemma {:induction false} AlwaysPointed(cfg: Config, steps: seq<Step>)
    requires ValidConfig(cfg)
    ensures Pointed(cfg, Run(cfg, steps))
  {
    if steps != [] {
      var init, step := steps[..|steps| - 1], steps[|steps| - 1];
      AlwaysPointed(cfg, init);
      RunSnoc(cfg, init, step);
      assert steps == init + [step];
      if Enabled(cfg, Run(cfg, init), step) { StepPoints(cfg, Run(cfg, init), step); }
    }
  }

  /** So a client that takes a redirection, and does not pick at random this time, has the leader, and asks it. */
  lemma RedirectionFindsLeader(cfg: Config, steps: seq<Step>, ch: Channel, pick: nat, wait: bool, kept: bool)
    requires ValidConfig(cfg) && Enabled(cfg, Run(cfg, steps), Receive(ch, pick, wait))
    requires Head(Run(cfg, steps), ch).RedirectionResponse?
    requires Head(Run(cfg, steps), ch).serial == Run(cfg, steps).clients[ch.cid].serial
    requires Run(cfg, steps).clients[ch.cid].tries % 3 != 2
    ensures var s := Run(cfg, steps);
      var s' := Run(cfg, steps + [Receive(ch, pick, wait)]);
      var s'' := Run(cfg, steps + [Receive(ch, pick, wait), Send(ch.cid, kept)]);
      var link := Channel(ch.cid, cfg.leader);
      && OnlyClient(s, s', ch.cid) && s'.clients[ch.cid].leader == cfg.leader
      && Queue(s''.requests, link) == Queue(s.requests, link) + (if kept then [PhaseRequest(s.clients[ch.cid])] else [])
  {
    AlwaysPointed(cfg, steps);
    assert Head(Run(cfg, steps), ch) in Queue(Run(cfg, steps).replies, ch);
    RedirectionIsFollowed(cfg, steps, ch, pick, wait, kept);
  }
}
