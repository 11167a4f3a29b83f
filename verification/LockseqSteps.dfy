/** Every step keeps the invariant, so every run does. */
module LockseqSteps {
  import opened PancyMsgs
  import opened DbSpec
  import opened LockKeys
  import opened Lockseq
  import opened LockseqInv
  import opened LockseqServe

  /** Replies only leave the queues of client `i`. */
  ghost predicate Fewer(i: nat, replies: Replies, replies': Replies) {
    forall rid: nat, r :: r in Queue(replies', Channel(i, rid)) ==> r in Queue(replies, Channel(i, rid))
  }

  /** The lock of client `i`, if it is in the database, survives the client's own change of state. */
  ghost predicate KeepsLock(db: PDb, c: Client, c': Client) {
    c.phase != Resting && Held(db, c) ==> c'.gid == c.gid && c'.value == c.value && Held(db, c') && Shape(db, c')
  }

  /** Held locks name their client, and their slots are as far as the client is. */
  lemma HolderShape(cfg: Config, s: System, i: nat)
    requires Inv(cfg, s) && i < |s.clients|
    ensures Held(s.db, s.clients[i]) ==>
      s.db.kv[Lock(s.clients[i].gid)].value == s.clients[i].value && Shape(s.db, s.clients[i])
    ensures forall g: nat :: Lock(g) in s.db.kv && HasPrefix(s.db.kv[Lock(g)].value, i) ==>
      g == s.clients[i].gid && Held(s.db, s.clients[i])
  {
    var c := s.clients[i];
    assert ClientOk(s.db, i, c);
    if Held(s.db, c) {
      assert OwnedBy(s.db, s.clients, c.gid, s.db.kv[Lock(c.gid)].value);
    }
    forall g: nat | Lock(g) in s.db.kv && HasPrefix(s.db.kv[Lock(g)].value, i)
      ensures g == c.gid && Held(s.db, c)
    {
      assert OwnedBy(s.db, s.clients, g, s.db.kv[Lock(g)].value);
    }
  }

  /** A step that changes one client and its own channels. */
  lemma ClientUpdate(cfg: Config, s: System, s': System, i: nat, c': Client)
    requires Inv(cfg, s) && i < |s.clients|
    requires s'.db == s.db && s'.clients == s.clients[i := c']
    requires forall ch: Channel :: ch.cid != i ==>
      Queue(s'.requests, ch) == Queue(s.requests, ch) && Queue(s'.replies, ch) == Queue(s.replies, ch)
    requires KeepsLock(s.db, s.clients[i], c')
    requires ClientInv(s.db, i, c', Queue(s'.requests, Channel(i, cfg.leader)), s'.replies)
    ensures Inv(cfg, s')
  {
    var db := s.db;
    forall g: nat | Lock(g) in db.kv ensures OwnedBy(db, s'.clients, g, db.kv[Lock(g)].value) {
      assert OwnedBy(db, s.clients, g, db.kv[Lock(g)].value);
    }
    forall j: nat | j < |s'.clients|
      ensures ClientInv(db, j, s'.clients[j], Queue(s'.requests, Channel(j, cfg.leader)), s'.replies)
    {
      if j != i {
        assert ClientInv(db, j, s.clients[j], Queue(s.requests, Channel(j, cfg.leader)), s.replies);
        SameReplies(db, j, s.clients[j], Queue(s.requests, Channel(j, cfg.leader)), s.replies, s'.replies);
      }
    }
  }

  lemma SameReplies(db: PDb, j: nat, d: Client, queue: seq<PRequest>, replies: Replies, replies': Replies)
    requires ClientInv(db, j, d, queue, replies) && Fewer(j, replies, replies')
    ensures ClientInv(db, j, d, queue, replies')
  {
  }

  /** A new loop starts under a serial that no message carries yet. */
  lemma StartLoop(db: PDb, i: nat, c: Client, c': Client, queue: seq<PRequest>, replies: Replies)
    requires ClientInv(db, i, c, queue, replies)
    requires c'.serial == c.serial + SERIAL_STEP && c'.tries == 0 && !c'.awaiting
    requires ClientOk(db, i, c') && Before(db, c')
    requires forall q :: q in queue && Legit(db, c, q) ==> Legit(db, c', q)
    ensures ClientInv(db, i, c', queue, replies)
  {
    if queue != [] { assert queue[|queue| - 1] in queue; }
    if |queue| >= 2 { assert queue[|queue| - 2] in queue; }
  }

  lemma BeginKeeps(cfg: Config, s: System, step: Step)
    requires Inv(cfg, s) && step.Begin? && Enabled(cfg, s, step)
    ensures Inv(cfg, Apply(cfg, s, step))
  {
    var Begin(i, gid, hex, nvalues) := step;
    var c := s.clients[i];
    var c' := BeginRound(c, gid, Tag(i, hex), nvalues);
    HolderShape(cfg, s, i);
    assert !Held(s.db, c');
    StartLoop(s.db, i, c, c', Queue(s.requests, Channel(i, cfg.leader)), s.replies);
    ClientUpdate(cfg, s, Apply(cfg, s, step), i, c');
  }

  lemma SendKeeps(cfg: Config, s: System, step: Step)
    requires Inv(cfg, s) && step.Send? && Enabled(cfg, s, step)
    ensures Inv(cfg, Apply(cfg, s, step))
  {
    SendEffect(cfg, s, step);
    SentKeeps(cfg, s, Apply(cfg, s, step), step.cid);
  }

  predicate MaySend(i: nat, c: Client, ch: Channel, queue: seq<PRequest>, queue': seq<PRequest>) {
    queue' == queue || (ch.cid == i && queue' == queue + [CurrentRequest(c)])
  }

  /** What a send changes: one client starts to wait, and one of its queues may have gained its request. */
  lemma SendEffect(cfg: Config, s: System, step: Step)
    requires step.Send? && Enabled(cfg, s, step)
    ensures var (i, s') := (step.cid, Apply(cfg, s, step));
      && s'.db == s.db && s'.replies == s.replies
      && s'.clients == s.clients[i := s.clients[i].(awaiting := true)]
      && forall ch: Channel :: MaySend(i, s.clients[i], ch, Queue(s.requests, ch), Queue(s'.requests, ch))
  {
  }

  lemma SentKeeps(cfg: Config, s: System, s': System, i: nat)
    requires Inv(cfg, s) && i < |s.clients| && Active(s.clients[i]) && !s.clients[i].awaiting
    requires s'.db == s.db && s'.replies == s.replies
    requires s'.clients == s.clients[i := s.clients[i].(awaiting := true)]
    requires forall ch: Channel :: MaySend(i, s.clients[i], ch, Queue(s.requests, ch), Queue(s'.requests, ch))
    ensures Inv(cfg, s')
  {
    var c := s.clients[i];
    var ch := Channel(i, cfg.leader);
    HolderShape(cfg, s, i);
    assert ClientInv(s.db, i, c, Queue(s.requests, ch), s.replies);
    SentLegit(s.db, i, c, Queue(s.requests, ch), s.replies);
    SendClient(s.db, i, c, Queue(s.requests, ch), Queue(s'.requests, ch), s.replies);
    ClientUpdate(cfg, s, s', i, c.(awaiting := true));
  }

  /** What a client sends is either live or already dead. */
  lemma SentLegit(db: PDb, i: nat, c: Client, queue: seq<PRequest>, replies: Replies)
    requires ClientInv(db, i, c, queue, replies) && Active(c)
    ensures Legit(db, c, CurrentRequest(c))
  {
  }

  lemma SendClient(db: PDb, i: nat, c: Client, queue: seq<PRequest>, queue': seq<PRequest>, replies: Replies)
    requires ClientInv(db, i, c, queue, replies) && Active(c) && !c.awaiting
    requires queue' == queue || (queue' == queue + [CurrentRequest(c)] && Legit(db, c, CurrentRequest(c)))
    ensures ClientInv(db, i, c.(awaiting := true), queue', replies)
  {
    SendQueue(db, i, c, queue, queue', replies);
    var c' := c.(awaiting := true);
    forall rid: nat, r | r in Queue(replies, Channel(i, rid)) && Answers(c', r) ensures ReplyOk(db, i, c', r) {
      assert ReplyOk(db, i, c, r);
    }
    SendFirstTry(db, i, c, queue, queue', replies);
  }

  lemma SendFirstTry(db: PDb, i: nat, c: Client, queue: seq<PRequest>, queue': seq<PRequest>, replies: Replies)
    requires ClientInv(db, i, c, queue, replies) && Active(c) && !c.awaiting
    requires queue' == queue || queue' == queue + [CurrentRequest(c)]
    ensures FirstTry(db, i, c.(awaiting := true), queue', replies)
  {
    if c.tries == 0 {
      var c' := c.(awaiting := true);
      assert Unanswered(i, c, replies);
      forall rid: nat, r | r in Queue(replies, Channel(i, rid)) ensures !Answers(c', r) { assert !Answers(c, r); }
      assert Before(db, c) && Before(db, c');
      if |queue'| >= 2 && queue' != queue {
        assert queue'[|queue'| - 2] == queue[|queue| - 1];
        assert queue[|queue| - 1] in queue;
      }
    }
  }

  lemma SendQueue(db: PDb, i: nat, c: Client, queue: seq<PRequest>, queue': seq<PRequest>, replies: Replies)
    requires ClientInv(db, i, c, queue, replies) && Active(c) && !c.awaiting
    requires queue' == queue || (queue' == queue + [CurrentRequest(c)] && Legit(db, c, CurrentRequest(c)))
    ensures QueueOk(db, c.(awaiting := true), queue')
  {
    var c' := c.(awaiting := true);
    forall q | q in queue' ensures q.serial <= c.serial && Legit(db, c', q) { assert Legit(db, c, q); }
    forall a, b | 0 <= a < b < |queue'| ensures queue'[a].serial <= queue'[b].serial {
      if b < |queue| { assert queue'[a] == queue[a] && queue'[b] == queue[b]; } else { assert queue'[a] in queue'; }
    }
  }

  lemma RetryClient(db: PDb, i: nat, c: Client, c': Client, queue: seq<PRequest>, replies: Replies)
    requires ClientInv(db, i, c, queue, replies) && Active(c)
    requires c' == c.(leader := c'.leader, tries := c.tries + 1, awaiting := false)
    ensures ClientInv(db, i, c', queue, replies)
  {
    forall q | q in queue ensures Legit(db, c', q) { assert Legit(db, c, q); }
    forall rid: nat, r | r in Queue(replies, Channel(i, rid)) && Answers(c', r) ensures ReplyOk(db, i, c', r) {
      assert ReplyOk(db, i, c, r);
    }
  }

  lemma TimeoutKeeps(cfg: Config, s: System, step: Step)
    requires Inv(cfg, s) && step.Timeout? && Enabled(cfg, s, step)
    ensures Inv(cfg, Apply(cfg, s, step))
  {
    var Timeout(i, pick) := step;
    var c := s.clients[i];
    HolderShape(cfg, s, i);
    RetryClient(s.db, i, c, Retry(c, pick), Queue(s.requests, Channel(i, cfg.leader)), s.replies);
    ClientUpdate(cfg, s, Apply(cfg, s, step), i, Retry(c, pick));
  }

  // ----- receiving -----

  /** What a client can rely on when an answer to its current request arrives. */
  ghost predicate Informed(db: PDb, i: nat, c: Client, queue: seq<PRequest>, replies: Replies, r: PResponse) {
    && DbOk(db) && ClientInv(db, i, c, queue, replies) && Active(c)
    && Answers(c, r) && ReplyOk(db, i, c, r)
    && (Held(db, c) ==> db.kv[Lock(c.gid)].value == c.value && Shape(db, c))
  }

  lemma CasReply(db: PDb, i: nat, c: Client, queue: seq<PRequest>, replies: Replies, r: PResponse, wait: bool)
    requires Informed(db, i, c, queue, replies, r) && c.phase == Locking
    ensures r.CasResponse?
    ensures var c' := OnCas(c, r, wait); KeepsLock(db, c, c') && ClientInv(db, i, c', queue, replies)
  {
    var c' := OnCas(c, r, wait);
    if c'.phase == Writing {
      forall q | q in queue && Legit(db, c, q) ensures Legit(db, c', q) {}
      StartLoop(db, i, c, c', queue, replies);
    } else if c'.phase == Blocked {
      forall q | q in queue ensures Legit(db, c', q) { assert Legit(db, c, q); }
      forall q | q in queue && q.serial == c'.serial ensures q == CurrentRequest(c') { assert q == CurrentRequest(c); }
    } else {
      RetryClient(db, i, c, c', queue, replies);
    }
  }

  lemma PutReply(db: PDb, i: nat, c: Client, queue: seq<PRequest>, replies: Replies, r: PResponse)
    requires Informed(db, i, c, queue, replies, r) && c.phase == Writing
    ensures r.PutResponse?
    ensures var c' := OnPut(c, r); KeepsLock(db, c, c') && ClientInv(db, i, c', queue, replies)
  {
    var c' := OnPut(c, r);
    forall q | q in queue && Legit(db, c, q) ensures Legit(db, c', q) {}
    StartLoop(db, i, c, c', queue, replies);
  }

  lemma ClearReply(db: PDb, i: nat, c: Client, queue: seq<PRequest>, replies: Replies, r: PResponse)
    requires Informed(db, i, c, queue, replies, r) && c.phase == Clearing
    ensures r.RemoveResponse?
    ensures var c' := OnClear(c, r); KeepsLock(db, c, c') && ClientInv(db, i, c', queue, replies)
  {
    var c' := OnClear(c, r);
    forall q | q in queue && Legit(db, c, q) ensures Legit(db, c', q) {}
    StartLoop(db, i, c, c', queue, replies);
  }

  lemma UnlockReply(db: PDb, i: nat, c: Client, queue: seq<PRequest>, replies: Replies, r: PResponse)
    requires Informed(db, i, c, queue, replies, r) && c.phase == Unlocking
    ensures r.RemoveResponse?
    ensures var c' := OnUnlock(c, r); KeepsLock(db, c, c') && ClientInv(db, i, c', queue, replies)
  {
    var c' := OnUnlock(c, r);
    forall q | q in queue ensures Legit(db, c', q) { assert Legit(db, c, q); }
  }

  lemma ReceiveKeeps(cfg: Config, s: System, step: Step)
    requires Inv(cfg, s) && step.Receive? && Enabled(cfg, s, step)
    ensures Inv(cfg, Apply(cfg, s, step))
  {
    var Receive(ch, pick, wait) := step;
    var i := ch.cid;
    var c, r, s' := s.clients[i], Queue(s.replies, ch)[0], Apply(cfg, s, step);
    var c' := OnMessage(c, r, pick, wait);
    var queue := Queue(s.requests, Channel(i, cfg.leader));
    assert ClientInv(s.db, i, c, queue, s.replies);
    HolderShape(cfg, s, i);
    assert Channel(i, ch.rid) == ch && r in Queue(s.replies, ch);
    assert Answers(c, r) ==> Informed(s.db, i, c, queue, s.replies, r);
    MessageKeeps(s.db, i, c, queue, s.replies, r, pick, wait);
    SameReplies(s.db, i, c', queue, s.replies, s'.replies);
    ClientUpdate(cfg, s, s', i, c');
  }

  lemma MessageKeeps(db: PDb, i: nat, c: Client, queue: seq<PRequest>, replies: Replies, r: PResponse,
                     pick: nat, wait: bool)
    requires ClientInv(db, i, c, queue, replies) && Active(c)
    requires Held(db, c) ==> db.kv[Lock(c.gid)].value == c.value && Shape(db, c)
    requires Answers(c, r) ==> Informed(db, i, c, queue, replies, r)
    ensures var c' := OnMessage(c, r, pick, wait); KeepsLock(db, c, c') && ClientInv(db, i, c', queue, replies)
  {
    if r.serial == c.serial {
      if r.RedirectionResponse? {
        RetryClient(db, i, c, OnMessage(c, r, pick, wait), queue, replies);
      } else {
        match c.phase
        case Locking => CasReply(db, i, c, queue, replies, r, wait);
        case Writing => PutReply(db, i, c, queue, replies, r);
        case Clearing => ClearReply(db, i, c, queue, replies, r);
        case Unlocking => UnlockReply(db, i, c, queue, replies, r);
      }
    }
  }

  // ----- serving -----

  lemma AddReply(db: PDb, i: nat, c: Client, queue: seq<PRequest>, replies: Replies, replies': Replies, r: PResponse)
    requires ClientInv(db, i, c, queue, replies)
    requires r.serial <= c.serial && (Answers(c, r) ==> ReplyOk(db, i, c, r))
    requires Answers(c, r) && Active(c) && c.tries == 0 ==> c.awaiting && !Pending(c, queue)
    requires forall rid: nat, x :: x in Queue(replies', Channel(i, rid)) ==>
      x == r || x in Queue(replies, Channel(i, rid))
    ensures ClientInv(db, i, c, queue, replies')
  {
  }

  lemma RedirectKeeps(cfg: Config, s: System, step: Step)
    requires Inv(cfg, s) && step.Serve? && Enabled(cfg, s, step) && step.ch.rid != cfg.leader
    requires SerialsOk(s)
    ensures Inv(cfg, Apply(cfg, s, step))
  {
    var Serve(ch, kept) := step;
    var i, c, s' := ch.cid, s.clients[ch.cid], Apply(cfg, s, step);
    var queue := Queue(s.requests, Channel(i, cfg.leader));
    var req := Queue(s.requests, ch)[0];
    assert ClientInv(s.db, i, c, queue, s.replies);
    HolderShape(cfg, s, i);
    assert req in Queue(s.requests, ch);
    AddReply(s.db, i, c, queue, s.replies, s'.replies, RedirectionResponse(req.serial, Redirect, cfg.leader));
    assert s.clients == s.clients[i := c];
    ClientUpdate(cfg, s, s', i, c);
  }

  /** No message carries a serial that its client has not reached, on any channel. */
  ghost predicate SerialsOk(s: System) {
    forall ch: Channel, q :: q in Queue(s.requests, ch) && ch.cid < |s.clients| ==> q.serial <= s.clients[ch.cid].serial
  }

  lemma ServeKeeps(cfg: Config, s: System, step: Step)
    requires Inv(cfg, s) && step.Serve? && Enabled(cfg, s, step) && step.ch.rid == cfg.leader
    ensures Inv(cfg, Apply(cfg, s, step))
  {
    var Serve(ch, kept) := step;
    var i, s' := ch.cid, Apply(cfg, s, step);
    var c, queue := s.clients[i], Queue(s.requests, ch);
    var (db', resp) := Process(s.db, queue[0], NoTag);
    assert ch == Channel(i, cfg.leader);
    assert ClientInv(s.db, i, c, queue, s.replies);
    HolderShape(cfg, s, i);
    ServeOwn(s.db, i, c, queue, s.replies);
    assert Served(s.db, db', i, c, queue, s.replies, resp);
    assert queue[0] in queue;
    AddReply(db', i, c, queue[1..], s.replies, s'.replies, resp);
    GlobalFrame(s.db, db', s.clients, i);
    forall j: nat | j < |s.clients| && j != i
      ensures ClientInv(db', j, s.clients[j], Queue(s'.requests, Channel(j, cfg.leader)), s'.replies)
    {
      OthersKeep(cfg, s, s', i, j);
    }
  }

  lemma OthersKeep(cfg: Config, s: System, s': System, i: nat, j: nat)
    requires Inv(cfg, s) && i < |s.clients| && j < |s.clients| && i != j
    requires Touches(s.db, s'.db, s.clients[i])
    requires forall ch: Channel :: ch.cid == j ==>
      Queue(s'.requests, ch) == Queue(s.requests, ch) && Queue(s'.replies, ch) == Queue(s.replies, ch)
    ensures ClientInv(s'.db, j, s.clients[j], Queue(s'.requests, Channel(j, cfg.leader)), s'.replies)
  {
    var d, queue := s.clients[j], Queue(s.requests, Channel(j, cfg.leader));
    HolderShape(cfg, s, i);
    assert ClientInv(s.db, j, d, queue, s.replies) && ClientOk(s.db, i, s.clients[i]);
    OtherClient(s.db, s'.db, i, s.clients[i], j, d, queue, s.replies);
    SameReplies(s'.db, j, d, queue, s.replies, s'.replies);
  }

  lemma SerialsKeep(cfg: Config, s: System, step: Step)
    requires SerialsOk(s) && Enabled(cfg, s, step)
    ensures SerialsOk(Apply(cfg, s, step))
  {
    var s' := Apply(cfg, s, step);
    forall ch: Channel, q | q in Queue(s'.requests, ch) && ch.cid < |s'.clients|
      ensures q.serial <= s'.clients[ch.cid].serial
    {
      assert q in Queue(s.requests, ch) || (step.Send? && q == CurrentRequest(s.clients[step.cid]));
    }
  }

  lemma StepKeeps(cfg: Config, s: System, step: Step)
    requires Inv(cfg, s) && SerialsOk(s) && Enabled(cfg, s, step)
    ensures Inv(cfg, Apply(cfg, s, step)) && SerialsOk(Apply(cfg, s, step))
  {
    SerialsKeep(cfg, s, step);
    match step
    case Begin(_, _, _, _) => BeginKeeps(cfg, s, step);
    case Send(_, _) => SendKeeps(cfg, s, step);
    case Serve(ch, _) =>
      if ch.rid == cfg.leader { ServeKeeps(cfg, s, step); } else { RedirectKeeps(cfg, s, step); }
    case Receive(_, _, _) => ReceiveKeeps(cfg, s, step);
    case Timeout(_, _) => TimeoutKeeps(cfg, s, step);
  }

  /** The invariant holds after every run, with any losses, duplicates, redirections, timeouts and halts. */
  lemma {:induction false} Always(cfg: Config, steps: seq<Step>)
    requires ValidConfig(cfg)
    ensures Inv(cfg, Run(cfg, steps)) && SerialsOk(Run(cfg, steps))
    ensures |Run(cfg, steps).clients| == cfg.nclients
  {
    if steps != [] {
      var init, step := steps[..|steps| - 1], steps[|steps| - 1];
      Always(cfg, init);
      RunSnoc(cfg, init, step);
      assert steps == init + [step];
      if Enabled(cfg, Run(cfg, init), step) { StepKeeps(cfg, Run(cfg, init), step); }
    }
  }
}
