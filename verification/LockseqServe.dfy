/** Serving the oldest request of a client at the leader keeps the invariant. */
module LockseqServe {
  import opened PancyMsgs
  import opened DbSpec
  import opened LockKeys
  import opened LockGrammar
  import opened Lockseq
  import opened LockseqInv

  /** What holds when the leader is about to serve `queue[0]` of client `i`. */
  ghost predicate Ready(db: PDb, i: nat, c: Client, queue: seq<PRequest>, replies: Replies) {
    && DbOk(db) && Free(db) && queue != []
    && ClientInv(db, i, c, queue, replies)
    && (c.phase != Resting && Held(db, c) ==> Shape(db, c))
    && (c.phase != Resting && Lock(c.gid) in db.kv && HasPrefix(db.kv[Lock(c.gid)].value, i) ==> Held(db, c))
  }

  /** What holds when it has been served. */
  ghost predicate Served(db: PDb, db': PDb, i: nat, c: Client, queue: seq<PRequest>, replies: Replies, resp: PResponse)
    requires queue != []
  {
    && DbOk(db') && Touches(db, db', c)
    && (Taken(db, db', c) ==> AtLock(c))
    && (Held(db, c) && Lock(c.gid) in db'.kv ==> SameAt(db, db', Lock(c.gid)) && Shape(db', c))
    && (Held(db, c) && Lock(c.gid) !in db'.kv ==> Block(db'.kv, c.gid, 0))
    && ClientInv(db', i, c, queue[1..], replies)
    && resp.serial == queue[0].serial && !resp.RedirectionResponse?
    && (Answers(c, resp) ==> ReplyOk(db', i, c, resp))
    && (Answers(c, resp) && Active(c) && c.tries == 0 ==> c.awaiting && !Pending(c, queue[1..]))
  }

  predicate InOrder(queue: seq<PRequest>) {
    forall a, b :: 0 <= a < b < |queue| ==> queue[a].serial <= queue[b].serial
  }

  /** What remains of a queue is in it, in order, after its head, and ends as it did. */
  lemma TailOrder(queue: seq<PRequest>)
    requires queue != [] && InOrder(queue)
    ensures InOrder(queue[1..])
    ensures forall q :: q in queue[1..] ==> q in queue && queue[0].serial <= q.serial
    ensures |queue| >= 2 ==> queue[1..][|queue| - 2] == queue[|queue| - 1]
    ensures |queue| >= 3 ==> queue[1..][|queue| - 3] == queue[|queue| - 2]
  {
    forall q | q in queue[1..] ensures q in queue && queue[0].serial <= q.serial {
      var a :| 0 <= a < |queue| - 1 && queue[1..][a] == q;
      assert queue[a + 1] == q;
    }
  }

  /** A head with the current serial is all that is pending, on the first try. */
  lemma TailPending(db: PDb, i: nat, c: Client, queue: seq<PRequest>, replies: Replies)
    requires queue != [] && QueueOk(db, c, queue) && FirstTry(db, i, c, queue, replies)
    ensures Pending(c, queue[1..]) ==> Pending(c, queue)
    ensures queue[0].serial == c.serial ==> Pending(c, queue)
    ensures Active(c) && c.tries == 0 && queue[0].serial == c.serial ==> queue[1..] == [] && c.awaiting
  {
    assert InOrder(queue);
    TailOrder(queue);
    if queue[0].serial == c.serial {
      assert queue[|queue| - 1] in queue;
      assert |queue| >= 2 ==> queue[0].serial <= queue[|queue| - 2].serial;
    }
  }

  /** The rest of the queue keeps its order and its kinds. */
  lemma Tail(db: PDb, i: nat, c: Client, queue: seq<PRequest>, replies: Replies)
    requires Ready(db, i, c, queue, replies)
    ensures forall q :: q in queue[1..] ==> q in queue && queue[0].serial <= q.serial
    ensures QueueOk(db, c, queue[1..])
    ensures Pending(c, queue[1..]) ==> Pending(c, queue)
    ensures queue[0].serial == c.serial ==> Pending(c, queue)
    ensures Active(c) && c.tries == 0 && queue[0].serial == c.serial ==> queue[1..] == [] && c.awaiting
    ensures FirstTry(db, i, c, queue[1..], replies)
  {
    assert InOrder(queue);
    TailOrder(queue);
    TailPending(db, i, c, queue, replies);
    TailQueue(db, c, queue);
    TailFirstTry(db, i, c, queue, replies);
  }

  lemma TailQueue(db: PDb, c: Client, queue: seq<PRequest>)
    requires queue != [] && QueueOk(db, c, queue)
    ensures QueueOk(db, c, queue[1..])
  {
    assert InOrder(queue);
    TailOrder(queue);
    assert InOrder(queue[1..]);
  }

  lemma TailFirstTry(db: PDb, i: nat, c: Client, queue: seq<PRequest>, replies: Replies)
    requires queue != [] && QueueOk(db, c, queue) && FirstTry(db, i, c, queue, replies)
    ensures FirstTry(db, i, c, queue[1..], replies)
  {
    assert InOrder(queue);
    TailOrder(queue);
    TailPending(db, i, c, queue, replies);
  }

  /** A request that changes nothing. */
  lemma ServeIdle(db: PDb, i: nat, c: Client, queue: seq<PRequest>, replies: Replies, resp: PResponse)
    requires Ready(db, i, c, queue, replies)
    requires resp.serial == queue[0].serial && !resp.RedirectionResponse?
    requires Answers(c, resp) ==> ReplyOk(db, i, c, resp)
    ensures Served(db, db, i, c, queue, replies, resp)
  {
    Tail(db, i, c, queue, replies);
  }

  lemma ServeDead(db: PDb, i: nat, c: Client, queue: seq<PRequest>, replies: Replies)
    requires Ready(db, i, c, queue, replies) && Dead(db, queue[0])
    ensures var (db', resp) := Process(db, queue[0], NoTag); Served(db, db', i, c, queue, replies, resp)
  {
    var q := queue[0];
    var (db', resp) := Process(db, q, NoTag);
    assert db' == db;
    Tail(db, i, c, queue, replies);
    assert q in queue;
    if Answers(c, resp) && Active(c) {
      assert q == CurrentRequest(c);
      assert c.phase == Unlocking && !Held(db, c) && c.tries > 0;
    }
    ServeIdle(db, i, c, queue, replies, resp);
  }

  lemma StoreOk(db: PDb, k: PKey, v: Tag)
    requires DbOk(db) && k.group < NGROUPS && (k.Slot? ==> k.index < MAX_SEQUENCE_LENGTH) && GoodTag(v)
    ensures DbOk(Store(db, k, v))
  {
  }

  lemma EraseOk(db: PDb, k: PKey)
    requires DbOk(db) && k in db.kv
    ensures DbOk(Erase(db, k))
  {
  }

  /** The lock request that takes a free lock. */
  lemma ServeFreeLock(db: PDb, i: nat, c: Client, queue: seq<PRequest>, replies: Replies)
    requires Ready(db, i, c, queue, replies) && AtLock(c) && queue[0] == LockRequest(c) && Lock(c.gid) !in db.kv
    ensures var (db', resp) := Process(db, queue[0], NoTag); Served(db, db', i, c, queue, replies, resp)
  {
    var (db', resp) := Process(db, queue[0], NoTag);
    Tail(db, i, c, queue, replies);
    StoreOk(db, Lock(c.gid), c.value);
    assert Taken(db, db', c);
    assert Touches(db, db', c);
    assert SlotsSame(db, db', c.gid);
    SlotsBlock(db, db', c.gid, 0);
    TakenKeeps(db, db', i, c, queue[1..], replies);
  }

  lemma TakenKeeps(db: PDb, db': PDb, i: nat, c: Client, queue: seq<PRequest>, replies: Replies)
    requires ClientInv(db, i, c, queue, replies) && AtLock(c) && Touches(db, db', c) && Taken(db, db', c)
    requires Active(c) && c.tries == 0 ==> c.awaiting && !Pending(c, queue)
    ensures ClientInv(db', i, c, queue, replies)
  {
    forall q | q in queue && Dead(db, q) ensures Dead(db', q) { DeadFrame(db, db', c, q); }
  }

  lemma ServeLock(db: PDb, i: nat, c: Client, queue: seq<PRequest>, replies: Replies)
    requires Ready(db, i, c, queue, replies) && AtLock(c) && queue[0] == LockRequest(c)
    ensures var (db', resp) := Process(db, queue[0], NoTag); Served(db, db', i, c, queue, replies, resp)
  {
    var q := queue[0];
    var (db', resp) := Process(db, q, NoTag);
    Tail(db, i, c, queue, replies);
    if Lock(c.gid) in db.kv {
      assert db' == db;
      if Active(c) && c.tries == 0 { assert Before(db, c); }
      ServeIdle(db, i, c, queue, replies, resp);
    } else {
      ServeFreeLock(db, i, c, queue, replies);
    }
  }

  /** A lock request of an earlier loop finds its own lock and changes nothing. */
  lemma ServeEarlierLock(db: PDb, i: nat, c: Client, queue: seq<PRequest>, replies: Replies)
    requires Ready(db, i, c, queue, replies) && InRound(c) && Held(db, c)
    requires Earlier(c, queue[0]) && queue[0].CasRequest?
    ensures var (db', resp) := Process(db, queue[0], NoTag); Served(db, db', i, c, queue, replies, resp)
  {
    var (db', resp) := Process(db, queue[0], NoTag);
    assert db' == db;
    ServeIdle(db, i, c, queue, replies, resp);
  }

  /** While the lock is held, a change of slots that loses none of what the client relies on. */
  lemma HoldsOn(db: PDb, db': PDb, i: nat, c: Client, queue: seq<PRequest>, replies: Replies)
    requires ClientInv(db, i, c, queue, replies) && InRound(c) && Held(db, c)
    requires Touches(db, db', c) && SameAt(db, db', Lock(c.gid))
    requires c.phase == Writing && PutDone(db, c) ==> PutDone(db', c)
    requires c.phase == Clearing && RemoveDone(db, c) ==> RemoveDone(db', c)
    requires c.phase == Clearing && NoSlotsFrom(db.kv, c.gid, c.n) ==> NoSlotsFrom(db'.kv, c.gid, c.n)
    requires c.tries == 0 && (!c.awaiting || Pending(c, queue)) && Before(db, c) ==> Before(db', c)
    ensures ClientInv(db', i, c, queue, replies)
  {
    forall q | q in queue && Dead(db, q) ensures Dead(db', q) { DeadFrame(db, db', c, q); }
  }

  /** A put, of the current loop or an earlier one. */
  lemma ServePut(db: PDb, i: nat, c: Client, queue: seq<PRequest>, replies: Replies)
    requires Ready(db, i, c, queue, replies) && InRound(c) && Held(db, c)
    requires (queue[0] == CurrentRequest(c) || Earlier(c, queue[0])) && queue[0].PutRequest?
    ensures var (db', resp) := Process(db, queue[0], NoTag); Served(db, db', i, c, queue, replies, resp)
  {
    var q := queue[0];
    var (db', resp) := Process(db, q, NoTag);
    var k := q.key.index;
    Tail(db, i, c, queue, replies);
    assert db'.kv == db.kv[Slot(c.gid, k) := Versioned(c.value, db.next)];
    assert Touches(db, db', c);
    StoreOk(db, q.key, c.value);
    PutShape(db, db', c, k, q == CurrentRequest(c));
    HoldsOn(db, db', i, c, queue[1..], replies);
  }

  lemma PutShape(db: PDb, db': PDb, c: Client, k: nat, current: bool)
    requires InRound(c) && Shape(db, c)
    requires k < c.nvalues && (c.phase == Clearing ==> c.nvalues <= c.n)
    requires if current then c.phase == Writing && k == c.n else c.phase == Writing ==> k < c.n
    requires exists v :: db'.kv == db.kv[Slot(c.gid, k) := Versioned(c.value, v)]
    ensures Shape(db', c)
    ensures current ==> PutDone(db', c)
    ensures c.phase == Writing && PutDone(db, c) ==> PutDone(db', c)
    ensures c.phase == Clearing && RemoveDone(db, c) ==> RemoveDone(db', c)
    ensures c.phase == Clearing && NoSlotsFrom(db.kv, c.gid, c.n) ==> NoSlotsFrom(db'.kv, c.gid, c.n)
    ensures c.phase == Clearing && Block(db.kv, c.gid, c.n) ==> Block(db'.kv, c.gid, c.n)
  {
  }

  /** A remove of a slot, of the current loop or an earlier one. */
  lemma ServeClear(db: PDb, i: nat, c: Client, queue: seq<PRequest>, replies: Replies)
    requires Ready(db, i, c, queue, replies) && InRound(c) && Held(db, c)
    requires (queue[0] == CurrentRequest(c) || Earlier(c, queue[0])) && queue[0].RemoveRequest? && queue[0].key.Slot?
    ensures var (db', resp) := Process(db, queue[0], NoTag); Served(db, db', i, c, queue, replies, resp)
  {
    var q := queue[0];
    var (db', resp) := Process(db, q, NoTag);
    var k := q.key.index;
    Tail(db, i, c, queue, replies);
    assert db'.kv == db.kv - {Slot(c.gid, k)};
    assert Touches(db, db', c);
    ClearShape(db, db', c, k, q == CurrentRequest(c));
    HoldsOn(db, db', i, c, queue[1..], replies);
    if q == CurrentRequest(c) && resp.errcode == NotFound && c.tries == 0 {
      assert Before(db, c);
      assert NoSlotsFrom(db.kv, c.gid, c.n);
    }
  }

  lemma ClearShape(db: PDb, db': PDb, c: Client, k: nat, current: bool)
    requires InRound(c) && Shape(db, c)
    requires c.nvalues <= k && (c.phase == Writing ==> c.n < c.nvalues)
    requires if current then c.phase == Clearing && k == c.n
             else c.phase != Writing && (c.phase == Clearing ==> k < c.n)
    requires db'.kv == db.kv - {Slot(c.gid, k)}
    ensures Shape(db', c)
    ensures current ==> RemoveDone(db', c)
    ensures c.phase == Clearing && RemoveDone(db, c) ==> RemoveDone(db', c)
    ensures c.phase == Clearing && NoSlotsFrom(db.kv, c.gid, c.n) ==> NoSlotsFrom(db'.kv, c.gid, c.n)
    ensures c.phase == Clearing && !current && Block(db.kv, c.gid, c.n) ==> Block(db'.kv, c.gid, c.n)
  {
  }

  /** The unlock that takes effect: what remains in the queue is dead. */
  lemma ServeUnlock(db: PDb, i: nat, c: Client, queue: seq<PRequest>, replies: Replies)
    requires Ready(db, i, c, queue, replies) && c.phase == Unlocking && Held(db, c) && queue[0] == CurrentRequest(c)
    ensures var (db', resp) := Process(db, queue[0], NoTag); Served(db, db', i, c, queue, replies, resp)
  {
    var q := queue[0];
    var (db', resp) := Process(db, q, NoTag);
    Tail(db, i, c, queue, replies);
    assert db'.kv == db.kv - {Lock(c.gid)} && resp.errcode == Ok;
    EraseOk(db, q.key);
    assert SlotsSame(db, db', c.gid);
    SlotsBlock(db, db', c.gid, 0);
    assert Touches(db, db', c);
    forall p | p in queue[1..] ensures Dead(db', p) {
      assert p in queue && p.serial == c.serial && p == CurrentRequest(c);
    }
  }

  lemma ServeOwn(db: PDb, i: nat, c: Client, queue: seq<PRequest>, replies: Replies)
    requires Ready(db, i, c, queue, replies)
    ensures var (db', resp) := Process(db, queue[0], NoTag); Served(db, db', i, c, queue, replies, resp)
  {
    var q := queue[0];
    assert q in queue && Legit(db, c, q);
    if Dead(db, q) {
      ServeDead(db, i, c, queue, replies);
    } else if AtLock(c) {
      ServeLock(db, i, c, queue, replies);
    } else if q.CasRequest? {
      ServeEarlierLock(db, i, c, queue, replies);
    } else if q.PutRequest? {
      ServePut(db, i, c, queue, replies);
    } else if q.key.Slot? {
      ServeClear(db, i, c, queue, replies);
    } else {
      ServeUnlock(db, i, c, queue, replies);
    }
  }
}
