/** A run in which a retried remove finds nothing although more values lie beyond: why the client then has to go on. */
module LockseqRetry {
  import opened PancyMsgs
  import opened DbSpec
  import opened LockKeys
  import opened Lockseq
  import LockseqSafety

  /** One client, and one replica, which leads. */
  const ALONE := Config(1, 1, 0, [0])
  const LINK := Channel(0, 0)

  /** The client is at `c`, the leader at `db`, and nothing is on its way. */
  predicate Quiet(s: System, db: PDb, c: Client) {
    && s.db == db && s.clients == [c]
    && Queue(s.requests, LINK) == [] && Queue(s.replies, LINK) == []
  }

  predicate Idle(c: Client) { Active(c) && !c.awaiting && c.cid == 0 && c.leader == 0 }

  /** The request is sent and served; the answer is kept or lost. */
  lemma Ask(steps: seq<Step>, db: PDb, c: Client, kept: bool) returns (longer: seq<Step>)
    requires Quiet(Run(ALONE, steps), db, c) && Idle(c)
    ensures var s := Run(ALONE, longer); var (db', r) := Process(db, CurrentRequest(c), NoTag);
      && s.db == db' && s.clients == [c.(awaiting := true)]
      && Queue(s.requests, LINK) == [] && Queue(s.replies, LINK) == if kept then [r] else []
  {
    RunSnoc(ALONE, steps, Send(0, true));
    var sent := steps + [Send(0, true)];
    assert Queue(Run(ALONE, sent).requests, LINK) == [CurrentRequest(c)];
    RunSnoc(ALONE, sent, Serve(LINK, kept));
    longer := sent + [Serve(LINK, kept)];
  }

  /** The request is sent and answered. */
  lemma Exchange(steps: seq<Step>, db: PDb, c: Client) returns (longer: seq<Step>, db': PDb, c': Client)
    requires Quiet(Run(ALONE, steps), db, c) && Idle(c)
    ensures Quiet(Run(ALONE, longer), db', c')
    ensures var (db'', r) := Process(db, CurrentRequest(c), NoTag);
      db' == db'' && c' == OnMessage(c.(awaiting := true), r, 0, false)
  {
    var asked := Ask(steps, db, c, true);
    RunSnoc(ALONE, asked, Receive(LINK, 0, false));
    longer := asked + [Receive(LINK, 0, false)];
    var r := Process(db, CurrentRequest(c), NoTag).1;
    db', c' := Process(db, CurrentRequest(c), NoTag).0, OnMessage(c.(awaiting := true), r, 0, false);
  }

  /** The answer to the request is lost, and the client gives up waiting for it. */
  lemma LostAnswer(steps: seq<Step>, db: PDb, c: Client) returns (longer: seq<Step>, db': PDb, c': Client)
    requires Quiet(Run(ALONE, steps), db, c) && Idle(c)
    ensures Quiet(Run(ALONE, longer), db', c')
    ensures db' == Process(db, CurrentRequest(c), NoTag).0 && c' == Retry(c, 0)
  {
    var asked := Ask(steps, db, c, false);
    RunSnoc(ALONE, asked, Timeout(0, 0));
    longer := asked + [Timeout(0, 0)];
    db', c' := Process(db, CurrentRequest(c), NoTag).0, Retry(c, 0);
  }

  /** A client that has group 0 to itself, and how far it is. */
  predicate Stage(db: PDb, c: Client, phase: Phase, n: nat, nvalues: nat) {
    && Idle(c) && c.phase == phase && c.n == n && c.nvalues == nvalues && c.gid == 0 && c.tries == 0 && c.value.Tag?
    && db.next >= 1
    && (phase == Locking <==> Lock(0) !in db.kv)
    && (phase != Locking ==> db.kv[Lock(0)] == Versioned(c.value, c.lockVersion) && c.lockVersion >= 1)
  }

  lemma Locks(steps: seq<Step>, db: PDb, c: Client) returns (longer: seq<Step>, db': PDb, c': Client)
    requires Quiet(Run(ALONE, steps), db, c) && Stage(db, c, Locking, 0, c.nvalues) && c.nvalues > 0
    ensures Quiet(Run(ALONE, longer), db', c') && Stage(db', c', Writing, 0, c.nvalues)
    ensures db'.kv.Keys == db.kv.Keys + {Lock(0)}
  {
    longer, db', c' := Exchange(steps, db, c);
  }

  lemma Puts(steps: seq<Step>, db: PDb, c: Client) returns (longer: seq<Step>, db': PDb, c': Client)
    requires Quiet(Run(ALONE, steps), db, c)
    requires Stage(db, c, Writing, c.n, c.nvalues) && c.n < c.nvalues < MAX_SEQUENCE_LENGTH
    ensures Quiet(Run(ALONE, longer), db', c')
    ensures Stage(db', c', if c.n + 1 == c.nvalues then Clearing else Writing, c.n + 1, c.nvalues)
    ensures db'.kv.Keys == db.kv.Keys + {Slot(0, c.n)}
  {
    longer, db', c' := Exchange(steps, db, c);
  }

  /** Clearing finds nothing at once, and the lock is given up. */
  lemma Ends(steps: seq<Step>, db: PDb, c: Client) returns (longer: seq<Step>, db': PDb, c': Client)
    requires Quiet(Run(ALONE, steps), db, c) && Stage(db, c, Clearing, c.n, c.nvalues) && Slot(0, c.n) !in db.kv
    ensures Quiet(Run(ALONE, longer), db', c') && c'.phase == Resting && c'.cid == 0 && c'.leader == 0
    ensures db'.next >= 1 && db'.kv.Keys == db.kv.Keys - {Lock(0)}
  {
    var cleared, db1, c1 := Exchange(steps, db, c);
    longer, db', c' := Exchange(cleared, db1, c1);
  }

  lemma Begins(steps: seq<Step>, db: PDb, c: Client, nvalues: nat) returns (longer: seq<Step>, c': Client)
    requires Quiet(Run(ALONE, steps), db, c) && c.phase == Resting && c.cid == 0 && c.leader == 0
    requires 1 <= nvalues <= MAX_SEQUENCE_LENGTH && db.next >= 1 && Lock(0) !in db.kv
    ensures Quiet(Run(ALONE, longer), db, c') && Stage(db, c', Locking, 0, nvalues)
  {
    var step := Begin(0, 0, "0123456", nvalues);
    RunSnoc(ALONE, steps, step);
    longer, c' := steps + [step], BeginRound(c, 0, Tag(0, "0123456"), nvalues);
  }

  /** A first round writes three values ... */
  lemma WritesThree() returns (steps: seq<Step>, db: PDb, c: Client)
    ensures Quiet(Run(ALONE, steps), db, c) && Stage(db, c, Clearing, 3, 3)
    ensures db.kv.Keys == {Lock(0), Slot(0, 0), Slot(0, 1), Slot(0, 2)}
  {
    db, c := EmptyDb(), Client(0, Resting, 0, 0, NoTag, 0, 0, 0, 0, false, 0);
    assert Run(ALONE, []).clients == [c];
    steps, c := Begins([], db, c, 3);
    steps, db, c := Locks(steps, db, c);
    steps, db, c := Puts(steps, db, c);
    steps, db, c := Puts(steps, db, c);
    steps, db, c := Puts(steps, db, c);
  }

  /** ... and leaves them. */
  lemma ThreeValues() returns (steps: seq<Step>, db: PDb, c: Client)
    ensures Quiet(Run(ALONE, steps), db, c) && c.phase == Resting && c.cid == 0 && c.leader == 0
    ensures db.next >= 1 && db.kv.Keys == {Slot(0, 0), Slot(0, 1), Slot(0, 2)}
  {
    steps, db, c := WritesThree();
    steps, db, c := Ends(steps, db, c);
  }

  /** A second round writes one value and removes the second; the answer is lost. The retried remove finds nothing,
      and the third value of the first round is still there. */
  lemma RetriedMissIsNotTheEnd() returns (cfg: Config, steps: seq<Step>)
    ensures ValidConfig(cfg) && LockseqSafety.Answering(cfg, Run(cfg, steps), LINK)
    ensures var s := Run(cfg, steps); var c := s.clients[0]; var r := Queue(s.replies, LINK)[0];
      && c.phase == Clearing && r.RemoveResponse? && r.errcode == NotFound && c.tries > 0
      && Slot(c.gid, c.n) !in s.db.kv && Slot(c.gid, c.n + 1) in s.db.kv
  {
    cfg := ALONE;
    var db, c;
    steps, db, c := ThreeValues();
    steps, c := Begins(steps, db, c, 1);
    steps, db, c := Locks(steps, db, c);
    steps, db, c := Puts(steps, db, c);
    steps, db, c := LostAnswer(steps, db, c);
    steps := Ask(steps, db, c, true);
  }
}
