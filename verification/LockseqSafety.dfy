/** What the protocol guarantees in every run. */
module LockseqSafety {
  import opened PancyMsgs
  import opened DbSpec
  import opened LockKeys
  import opened LockGrammar
  import opened Lockseq
  import opened LockseqInv
  import opened LockseqSteps
  import opened LockseqHistory
  import LockseqServe

  /** An answer to the current request is about to be received. */
  predicate Answering(cfg: Config, s: System, ch: Channel) {
    && ch.cid < |s.clients| && Active(s.clients[ch.cid]) && s.clients[ch.cid].awaiting
    && Queue(s.replies, ch) != [] && Answers(s.clients[ch.cid], Queue(s.replies, ch)[0])
  }

  lemma AnswerOk(cfg: Config, s: System, ch: Channel)
    requires Inv(cfg, s) && Answering(cfg, s, ch)
    ensures ReplyOk(s.db, ch.cid, s.clients[ch.cid], Queue(s.replies, ch)[0])
    ensures ClientOk(s.db, ch.cid, s.clients[ch.cid])
  {
    assert ClientInv(s.db, ch.cid, s.clients[ch.cid], Queue(s.requests, Channel(ch.cid, cfg.leader)), s.replies);
    assert ch == Channel(ch.cid, ch.rid) && Queue(s.replies, ch)[0] in Queue(s.replies, ch);
  }

  lemma HistoryKeeps(cfg: Config, s: System, step: Step)
    requires Inv(cfg, s) && History(cfg, s) && Enabled(cfg, s, step)
    ensures History(cfg, Apply(cfg, s, step))
  {
    if step.Receive? {
      var ch := step.ch;
      var c, r := s.clients[ch.cid], Queue(s.replies, ch)[0];
      if Answering(cfg, s, ch) { AnswerOk(cfg, s, ch); }
      assert OnMessageOk(c, r);
    }
    StepHistory(cfg, s, step);
  }

  lemma {:induction false} AlwaysHistory(cfg: Config, steps: seq<Step>)
    requires ValidConfig(cfg)
    ensures History(cfg, Run(cfg, steps))
  {
    if steps != [] {
      var init, step := steps[..|steps| - 1], steps[|steps| - 1];
      AlwaysHistory(cfg, init);
      Always(cfg, init);
      if Enabled(cfg, Run(cfg, init), step) { HistoryKeeps(cfg, Run(cfg, init), step); }
    }
  }

  // ----- mutual exclusion -----

  /** The client knows that it holds its lock, and its unlock has not taken effect. */
  predicate Holds(s: System, i: nat) {
    i < |s.clients| && InRound(s.clients[i]) && Held(s.db, s.clients[i])
  }

  /** While it writes and clears, and until its unlock takes effect, a client's lock entry is its value at its
      version. */
  lemma HolderHasLock(cfg: Config, steps: seq<Step>, i: nat)
    requires ValidConfig(cfg) && i < cfg.nclients
    ensures var s := Run(cfg, steps); i < |s.clients| && var c := s.clients[i];
      && (c.phase == Writing || c.phase == Clearing ==> Holds(s, i))
      && (Holds(s, i) ==>
            Lock(c.gid) in s.db.kv && s.db.kv[Lock(c.gid)] == Versioned(c.value, c.lockVersion))
  {
    Always(cfg, steps);
    var s := Run(cfg, steps);
    assert ClientOk(s.db, i, s.clients[i]);
  }

  /** Two clients never hold the same group. */
  lemma MutualExclusion(cfg: Config, steps: seq<Step>, i: nat, j: nat)
    requires ValidConfig(cfg) && i < cfg.nclients && j < cfg.nclients && i != j
    ensures |Run(cfg, steps).clients| == cfg.nclients
    ensures Holds(Run(cfg, steps), i) && Holds(Run(cfg, steps), j) ==>
      Run(cfg, steps).clients[i].gid != Run(cfg, steps).clients[j].gid
  {
    Always(cfg, steps);
    var s := Run(cfg, steps);
    assert ClientOk(s.db, i, s.clients[i]) && ClientOk(s.db, j, s.clients[j]);
  }

  /** No step but serving a request of the holder itself, fresh or duplicate, changes a key of the held group. */
  lemma HeldGroupIsPrivate(cfg: Config, steps: seq<Step>, i: nat, step: Step)
    requires ValidConfig(cfg) && Holds(Run(cfg, steps), i)
    requires Enabled(cfg, Run(cfg, steps), step)
    requires !(step.Serve? && step.ch == Channel(i, cfg.leader))
    ensures SameGroup(Run(cfg, steps).db, Apply(cfg, Run(cfg, steps), step).db, Run(cfg, steps).clients[i].gid)
  {
    Always(cfg, steps);
    var s := Run(cfg, steps);
    var s' := Apply(cfg, s, step);
    if step.Serve? && step.ch.rid == cfg.leader {
      var j := step.ch.cid;
      ServeTouches(cfg, s, j);
      HolderShape(cfg, s, j);
      assert ClientOk(s.db, i, s.clients[i]) && ClientOk(s.db, j, s.clients[j]);
    }
  }

  /** A client holds its group until the leader serves the unlock of this very round. */
  lemma HeldUntilUnlock(cfg: Config, steps: seq<Step>, i: nat, step: Step)
    requires ValidConfig(cfg) && Holds(Run(cfg, steps), i)
    requires Enabled(cfg, Run(cfg, steps), step)
    ensures var s := Run(cfg, steps); var s' := Apply(cfg, s, step);
      || (Holds(s', i) && s'.clients[i].gid == s.clients[i].gid && s'.clients[i].value == s.clients[i].value)
      || (&& step.Serve? && step.ch == Channel(i, cfg.leader) && s.clients[i].phase == Unlocking
          && Queue(s.requests, step.ch)[0] == CurrentRequest(s.clients[i]))
  {
    Always(cfg, steps);
    if step.Serve? && step.ch.rid == cfg.leader {
      HeldThroughServe(cfg, Run(cfg, steps), i, step);
    } else {
      HeldThroughOther(cfg, Run(cfg, steps), i, step);
    }
  }

  lemma HeldThroughOther(cfg: Config, s: System, i: nat, step: Step)
    requires Inv(cfg, s) && Holds(s, i) && Enabled(cfg, s, step) && !(step.Serve? && step.ch.rid == cfg.leader)
    ensures var s' := Apply(cfg, s, step);
      Holds(s', i) && s'.clients[i].gid == s.clients[i].gid && s'.clients[i].value == s.clients[i].value
  {
    if step.Receive? && step.ch.cid == i {
      var r := Queue(s.replies, step.ch)[0];
      if Answers(s.clients[i], r) { AnswerOk(cfg, s, step.ch); }
      MessageKeepsHold(s.db, i, s.clients[i], r, step.pick, step.wait);
    }
  }

  lemma HeldThroughServe(cfg: Config, s: System, i: nat, step: Step)
    requires Inv(cfg, s) && Holds(s, i) && Enabled(cfg, s, step) && step.Serve? && step.ch.rid == cfg.leader
    ensures Holds(Apply(cfg, s, step), i)
      || (step.ch.cid == i && s.clients[i].phase == Unlocking
          && Queue(s.requests, step.ch)[0] == CurrentRequest(s.clients[i]))
  {
    var j := step.ch.cid;
    assert step.ch == Channel(j, cfg.leader);
    ServeKeepsLock(cfg, s, j, s.clients[i].gid);
    assert ClientOk(s.db, i, s.clients[i]) && ClientOk(s.db, j, s.clients[j]);
  }

  lemma MessageKeepsHold(db: PDb, i: nat, c: Client, r: PResponse, pick: nat, wait: bool)
    requires InRound(c) && Held(db, c) && (Answers(c, r) ==> ReplyOk(db, i, c, r))
    ensures var c' := OnMessage(c, r, pick, wait);
      InRound(c') && Held(db, c') && c'.gid == c.gid && c'.value == c.value
  {
  }

  lemma ServeTouches(cfg: Config, s: System, j: nat)
    requires Inv(cfg, s) && j < |s.clients| && Queue(s.requests, Channel(j, cfg.leader)) != []
    ensures var queue := Queue(s.requests, Channel(j, cfg.leader));
      var (db', resp) := Process(s.db, queue[0], NoTag);
      LockseqServe.Served(s.db, db', j, s.clients[j], queue, s.replies, resp)
  {
    var queue := Queue(s.requests, Channel(j, cfg.leader));
    assert ClientInv(s.db, j, s.clients[j], queue, s.replies);
    HolderShape(cfg, s, j);
    LockseqServe.ServeOwn(s.db, j, s.clients[j], queue, s.replies);
  }

  // ----- unlocking -----

  /** A request that removes a lock. */
  predicate IsUnlock(q: PRequest) { q.RemoveRequest? && q.key.Lock? }

  /** An unlock, however late or often it is served, has an effect only as the holder's own unlock of this very
      round; it then leaves exactly the round's values in the group. Otherwise it changes nothing. */
  lemma UnlockIsOwn(cfg: Config, steps: seq<Step>, i: nat, kept: bool)
    requires ValidConfig(cfg) && i < cfg.nclients
    requires Enabled(cfg, Run(cfg, steps), Serve(Channel(i, cfg.leader), kept))
    requires IsUnlock(Queue(Run(cfg, steps).requests, Channel(i, cfg.leader))[0])
    ensures var s := Run(cfg, steps); i < |s.clients| && var c := s.clients[i];
      var q := Queue(s.requests, Channel(i, cfg.leader))[0];
      var db' := Apply(cfg, s, Serve(Channel(i, cfg.leader), kept)).db;
      if db' == s.db then Dead(s.db, q)
      else
        && c.phase == Unlocking && q == CurrentRequest(c) && Holds(s, i)
        && db'.kv == s.db.kv - {Lock(c.gid)}
        && AllSlots(db'.kv, c.gid, 0, c.nvalues, c.value) && NoSlotsFrom(db'.kv, c.gid, c.nvalues)
  {
    Always(cfg, steps);
    var s := Run(cfg, steps);
    var c, queue := s.clients[i], Queue(s.requests, Channel(i, cfg.leader));
    assert ClientInv(s.db, i, c, queue, s.replies);
    assert queue[0] in queue && Legit(s.db, c, queue[0]);
    HolderShape(cfg, s, i);
  }

  /** A lock leaves the database only by the unlock that its holder sent. */
  lemma LockLeavesByUnlock(cfg: Config, steps: seq<Step>, step: Step, g: nat)
    requires ValidConfig(cfg) && Enabled(cfg, Run(cfg, steps), step)
    requires Lock(g) in Run(cfg, steps).db.kv
    ensures var s := Run(cfg, steps); var db' := Apply(cfg, s, step).db;
      || SameAt(s.db, db', Lock(g))
      || (&& step.Serve? && step.ch.rid == cfg.leader && step.ch.cid < |s.clients|
          && Holds(s, step.ch.cid) && s.clients[step.ch.cid].gid == g && s.clients[step.ch.cid].phase == Unlocking
          && Queue(s.requests, step.ch)[0] == CurrentRequest(s.clients[step.ch.cid]))
  {
    Always(cfg, steps);
    var s := Run(cfg, steps);
    if step.Serve? && step.ch.rid == cfg.leader {
      assert step.ch == Channel(step.ch.cid, cfg.leader);
      ServeKeepsLock(cfg, s, step.ch.cid, g);
    }
  }

  lemma ServeKeepsLock(cfg: Config, s: System, i: nat, g: nat)
    requires Inv(cfg, s) && i < |s.clients| && Queue(s.requests, Channel(i, cfg.leader)) != [] && Lock(g) in s.db.kv
    ensures var q := Queue(s.requests, Channel(i, cfg.leader))[0];
      || SameAt(s.db, Process(s.db, q, NoTag).0, Lock(g))
      || (Holds(s, i) && s.clients[i].gid == g && s.clients[i].phase == Unlocking && q == CurrentRequest(s.clients[i]))
  {
    var c, queue := s.clients[i], Queue(s.requests, Channel(i, cfg.leader));
    assert ClientInv(s.db, i, c, queue, s.replies);
    assert queue[0] in queue && Legit(s.db, c, queue[0]);
    LegitKeepsLock(s.db, i, c, queue[0], g);
  }

  lemma LegitKeepsLock(db: PDb, i: nat, c: Client, q: PRequest, g: nat)
    requires DbOk(db) && ClientOk(db, i, c) && Legit(db, c, q) && Lock(g) in db.kv
    ensures
      || SameAt(db, Process(db, q, NoTag).0, Lock(g))
      || (InRound(c) && Held(db, c) && c.gid == g && c.phase == Unlocking && q == CurrentRequest(c))
  {
    assert GoodTag(db.kv[Lock(g)].value);
  }

  /** Once dead, an unlock stays dead: versions are never used again. */
  lemma {:induction false} DeadForever(cfg: Config, steps: seq<Step>, more: seq<Step>, q: PRequest)
    requires ValidConfig(cfg) && Dead(Run(cfg, steps).db, q)
    ensures Dead(Run(cfg, steps + more).db, q)
  {
    if more == [] {
      assert steps + more == steps;
    } else {
      var init, step := more[..|more| - 1], more[|more| - 1];
      DeadForever(cfg, steps, init, q);
      Always(cfg, steps + init);
      RunSnoc(cfg, steps + init, step);
      assert steps + more == (steps + init) + [step];
      if Enabled(cfg, Run(cfg, steps + init), step) { DeadStaysDead(cfg, Run(cfg, steps + init), step, q); }
    }
  }

  lemma DeadStaysDead(cfg: Config, s: System, step: Step, q: PRequest)
    requires Inv(cfg, s) && Enabled(cfg, s, step) && Dead(s.db, q)
    ensures Dead(Apply(cfg, s, step).db, q)
  {
    if step.Serve? && step.ch.rid == cfg.leader {
      assert step.ch == Channel(step.ch.cid, cfg.leader);
      ServeTouches(cfg, s, step.ch.cid);
      DeadFrame(s.db, Apply(cfg, s, step).db, s.clients[step.ch.cid], q);
    }
  }

  // ----- replies -----

  /** No run makes a client throw, except where it finds a lock held by another client. */
  lemma NoUnexpectedThrow(cfg: Config, steps: seq<Step>, i: nat)
    requires ValidConfig(cfg) && i < cfg.nclients
    ensures var s := Run(cfg, steps); i < |s.clients| && s.clients[i].phase != Failed
  {
    Always(cfg, steps);
    var s := Run(cfg, steps);
    assert ClientOk(s.db, i, s.clients[i]);
  }

  /** A failed compare-and-swap reports the client's own value exactly when an earlier try took the lock; so a client
      that throws on any other failure, as the code does, never waits and retries here. */
  lemma FailedCasNamesAnother(cfg: Config, steps: seq<Step>, ch: Channel, pick: nat)
    requires ValidConfig(cfg) && Answering(cfg, Run(cfg, steps), ch)
    requires Run(cfg, steps).clients[ch.cid].phase == Locking
    ensures var s := Run(cfg, steps); var c := s.clients[ch.cid]; var r := Queue(s.replies, ch)[0];
      && r.CasResponse?
      && (r.errcode != Ok ==> r.errcode == NoMatch)
      && (r.errcode != Ok ==> (HasPrefix(r.actual, ch.cid) <==> r.actual == c.value && c.tries > 0))
      && var c' := OnMessage(c, r, pick, false);
         if r.errcode == Ok || r.actual == c.value
         then c'.phase == Writing && c'.n == 0 && s.db.kv.Keys >= {Lock(c.gid)}
              && s.db.kv[Lock(c.gid)] == Versioned(c.value, c'.lockVersion)
         else c'.phase == Blocked
  {
    Always(cfg, steps);
    AnswerOk(cfg, Run(cfg, steps), ch);
  }

  /** Stopping to clear at a first-try miss is sound: nothing lies beyond. A later miss only tells about its own
      slot. */
  lemma ClearStopsAtTheEnd(cfg: Config, steps: seq<Step>, ch: Channel)
    requires ValidConfig(cfg) && Answering(cfg, Run(cfg, steps), ch)
    requires Run(cfg, steps).clients[ch.cid].phase == Clearing
    ensures var s := Run(cfg, steps); var c := s.clients[ch.cid]; var r := Queue(s.replies, ch)[0];
      && r.RemoveResponse? && Slot(c.gid, c.n) !in s.db.kv
      && (r.errcode == NotFound && c.tries == 0 ==> NoSlotsFrom(s.db.kv, c.gid, c.n))
      && (OnClear(c, r).phase == Unlocking ==>
            AllSlots(s.db.kv, c.gid, 0, c.nvalues, c.value) && NoSlotsFrom(s.db.kv, c.gid, c.nvalues))
  {
    Always(cfg, steps);
    var s := Run(cfg, steps);
    AnswerOk(cfg, s, ch);
    HolderShape(cfg, s, ch.cid);
    ClearedAll(s.db, s.clients[ch.cid], Queue(s.replies, ch)[0]);
  }

  lemma ClearedAll(db: PDb, c: Client, r: PResponse)
    requires DbOk(db) && Shape(db, c) && c.phase == Clearing && r.RemoveResponse? && Slot(c.gid, c.n) !in db.kv
    requires r.errcode == NotFound && c.tries == 0 ==> NoSlotsFrom(db.kv, c.gid, c.n)
    ensures OnClear(c, r).phase == Unlocking ==>
      AllSlots(db.kv, c.gid, 0, c.nvalues, c.value) && NoSlotsFrom(db.kv, c.gid, c.nvalues)
  {
  }

  /** Any answer to an unlock means that this round's lock is gone; on the first try it can only be success. */
  lemma UnlockAnswerMeansUnlocked(cfg: Config, steps: seq<Step>, ch: Channel)
    requires ValidConfig(cfg) && Answering(cfg, Run(cfg, steps), ch)
    requires Run(cfg, steps).clients[ch.cid].phase == Unlocking
    ensures var s := Run(cfg, steps); var c := s.clients[ch.cid]; var r := Queue(s.replies, ch)[0];
      && !(Lock(c.gid) in s.db.kv && s.db.kv[Lock(c.gid)].version == c.lockVersion)
      && !(Lock(c.gid) in s.db.kv && HasPrefix(s.db.kv[Lock(c.gid)].value, ch.cid))
      && (c.tries == 0 ==> r.errcode == Ok)
  {
    Always(cfg, steps);
    var s := Run(cfg, steps);
    AnswerOk(cfg, s, ch);
    HolderShape(cfg, s, ch.cid);
  }

  /** The log of served requests only grows. */
  lemma {:induction false} ServedGrowsAlong(cfg: Config, steps: seq<Step>, m: nat)
    requires ValidConfig(cfg) && m <= |steps|
    ensures Run(cfg, steps[..m]).served <= Run(cfg, steps).served
  {
    if m == |steps| {
      assert steps[..m] == steps;
    } else {
      var init := steps[..|steps| - 1];
      assert init[..m] == steps[..m];
      ServedGrowsAlong(cfg, init, m);
    }
  }

  /** An accepted answer is of the awaited kind, and is what the leader answered to that very request, at a point after
      every moment `m` at which the client had not yet reached the request's serial. */
  lemma AcceptedAnswerWasServed(cfg: Config, steps: seq<Step>, ch: Channel, m: nat) returns (t: nat)
    requires ValidConfig(cfg) && Answering(cfg, Run(cfg, steps), ch)
    requires m <= |steps| && ch.cid < |Run(cfg, steps[..m]).clients|
    requires Run(cfg, steps[..m]).clients[ch.cid].serial < Run(cfg, steps).clients[ch.cid].serial
    ensures var s := Run(cfg, steps); var c := s.clients[ch.cid]; var r := Queue(s.replies, ch)[0];
      && Expected(c, r)
      && |Run(cfg, steps[..m]).served| <= t < |s.served|
      && s.served[t] == CurrentRequest(c)
      && AnswerAt(s.served, t, r)
  {
    Always(cfg, steps);
    AlwaysHistory(cfg, steps);
    AlwaysHistory(cfg, steps[..m]);
    var s, s0 := Run(cfg, steps), Run(cfg, steps[..m]);
    AnswerOk(cfg, s, ch);
    assert Queue(s.replies, ch)[0] in Queue(s.replies, ch);
    t := AnswerIsCurrent(cfg, s, ch, Queue(s.replies, ch)[0]);
    ServedGrowsAlong(cfg, steps, m);
    assert ClientOf(s.clients[ch.cid].serial) == ch.cid;
    NotYetServed(cfg, s0, ch.cid, s.served[t]);
    assert forall u :: 0 <= u < |s0.served| ==> s0.served[u] == s.served[u] && s0.served[u] in s0.served;
  }

  lemma NotYetServed(cfg: Config, s: System, i: nat, q: PRequest)
    requires History(cfg, s) && i < |s.clients| && ClientOf(q.serial) == i && s.clients[i].serial < q.serial
    ensures q !in s.served
  {
  }
}
