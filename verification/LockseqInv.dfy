/** The inductive invariant of the protocol. */
module LockseqInv {
  import opened PancyMsgs
  import opened DbSpec
  import opened LockKeys
  import opened LockGrammar
  import opened Lockseq

  /** An unlock whose version is gone for good: serving it changes nothing, now or ever. */
  predicate Dead(db: PDb, q: PRequest) {
    q.RemoveRequest? && q.key.Lock? && 1 <= q.versionMatch < db.next
    && !(q.key in db.kv && db.kv[q.key].version == q.versionMatch)
  }

  /** The client's own lock is in the database. Before the client knows the version, its value tells. */
  predicate Held(db: PDb, c: Client) {
    && c.phase != Resting && c.phase != Failed
    && Lock(c.gid) in db.kv
    && if c.phase == Locking || c.phase == Blocked then db.kv[Lock(c.gid)].value == c.value
       else db.kv[Lock(c.gid)].version == c.lockVersion
  }

  /** The slots of a group while `c` holds its lock. */
  ghost predicate Shape(db: PDb, c: Client) {
    var (t, g, n) := (db.kv, c.gid, c.n);
    match c.phase
    case Writing => AllSlots(t, g, 0, n, c.value) && (Block(t, g, n) || PutDone(db, c))
    case Clearing =>
      AllSlots(t, g, 0, c.nvalues, c.value) && NoSlots(t, g, c.nvalues, n) && (Block(t, g, n) || RemoveDone(db, c))
    case Unlocking => AllSlots(t, g, 0, c.nvalues, c.value) && NoSlotsFrom(t, g, c.nvalues)
    case _ => Block(t, g, 0)
  }

  /** The current put has taken effect. */
  ghost predicate PutDone(db: PDb, c: Client) {
    AllSlots(db.kv, c.gid, 0, c.n + 1, c.value) && Block(db.kv, c.gid, c.n + 1)
  }

  /** The current remove has taken effect, or had nothing to do. */
  ghost predicate RemoveDone(db: PDb, c: Client) {
    Slot(c.gid, c.n) !in db.kv && Block(db.kv, c.gid, c.n + 1)
  }

  /** A value as clients make them. */
  predicate GoodTag(v: Tag) { v.Tag? && |v.hex| == 7 }

  ghost predicate DbOk(db: PDb) {
    && db.next >= 1
    && (forall k :: k in db.kv ==> k.group < NGROUPS && 1 <= db.kv[k].version < db.next && GoodTag(db.kv[k].value))
    && (forall g: nat, i: nat :: Slot(g, i) in db.kv ==> i < MAX_SEQUENCE_LENGTH)
  }

  /** Every lock belongs to a client that is in a round on that group, and the slots show how far it is. */
  ghost predicate Owners(db: PDb, clients: seq<Client>) {
    forall g: nat :: Lock(g) in db.kv ==> OwnedBy(db, clients, g, db.kv[Lock(g)].value)
  }

  ghost predicate OwnedBy(db: PDb, clients: seq<Client>, g: nat, v: Tag) {
    && v.Tag? && v.cid < |clients|
    && var c := clients[v.cid];
       c.gid == g && c.value == v && Held(db, c) && Shape(db, c)
  }

  ghost predicate Free(db: PDb) {
    forall g: nat :: Lock(g) !in db.kv ==> Block(db.kv, g, 0)
  }

  /** A request of an earlier loop of the current round. */
  predicate Earlier(c: Client, q: PRequest) {
    && q.serial < c.serial
    && match q
       case CasRequest(_, key, expected, desired, vm) =>
         key == Lock(c.gid) && expected == NoTag && desired == c.value && vm == ANY_VERSION
       case PutRequest(_, Slot(g, k), value, vm) =>
         g == c.gid && value == c.value && vm == ANY_VERSION && k < c.nvalues && (c.phase == Writing ==> k < c.n)
       case RemoveRequest(_, Slot(g, k), vm) =>
         g == c.gid && vm == ANY_VERSION && c.nvalues <= k && c.phase != Writing && (c.phase == Clearing ==> k < c.n)
       case _ => false
  }

  predicate InRound(c: Client) { c.phase == Writing || c.phase == Clearing || c.phase == Unlocking }
  predicate AtLock(c: Client) { c.phase == Locking || c.phase == Blocked }

  /** What a request on its way to the leader can be. */
  predicate Legit(db: PDb, c: Client, q: PRequest) {
    || Dead(db, q)
    || (AtLock(c) && q == LockRequest(c))
    || (InRound(c) && Held(db, c) && (q == CurrentRequest(c) || Earlier(c, q)))
  }

  ghost predicate QueueOk(db: PDb, c: Client, queue: seq<PRequest>) {
    && (forall a, b :: 0 <= a < b < |queue| ==> queue[a].serial <= queue[b].serial)
    && (forall q :: q in queue ==> q.serial <= c.serial && Legit(db, c, q))
    && (c.phase != Resting ==> forall q :: q in queue && q.serial == c.serial ==> q == CurrentRequest(c))
  }

  /** What a reply to the current request says about the database. */
  ghost predicate ReplyOk(db: PDb, i: nat, c: Client, r: PResponse) {
    match c.phase
    case Locking =>
      && r.CasResponse? && (r.errcode == Ok || r.errcode == NoMatch)
      && (r.errcode == Ok || HasPrefix(r.actual, i) ==> Held(db, c) && db.kv[Lock(c.gid)].version == r.version)
      && (r.errcode == NoMatch && HasPrefix(r.actual, i) ==> r.actual == c.value && c.tries > 0)
    case Writing => r.PutResponse? && r.errcode == Ok && PutDone(db, c)
    case Clearing =>
      && r.RemoveResponse? && (r.errcode == Ok || r.errcode == NotFound) && RemoveDone(db, c)
      && (r.errcode == NotFound && c.tries == 0 ==> NoSlotsFrom(db.kv, c.gid, c.n))
    case Unlocking => r.RemoveResponse? && !Held(db, c) && (c.tries == 0 ==> r.errcode == Ok)
    case _ => true
  }

  type Replies = map<Channel, seq<PResponse>>

  predicate Answers(c: Client, r: PResponse) { r.serial == c.serial && !r.RedirectionResponse? }

  ghost predicate RepliesOk(db: PDb, i: nat, c: Client, replies: Replies) {
    forall rid: nat, r :: r in Queue(replies, Channel(i, rid)) ==>
      r.serial <= c.serial && (Answers(c, r) ==> ReplyOk(db, i, c, r))
  }

  ghost predicate Unanswered(i: nat, c: Client, replies: Replies) {
    forall rid: nat, r :: r in Queue(replies, Channel(i, rid)) ==> !Answers(c, r)
  }

  predicate Pending(c: Client, queue: seq<PRequest>) {
    queue != [] && queue[|queue| - 1].serial == c.serial
  }

  /** What is known before the first send of a loop takes effect. */
  ghost predicate Before(db: PDb, c: Client) {
    match c.phase
    case Locking => !Held(db, c)
    case Clearing => Block(db.kv, c.gid, c.n)
    case Unlocking => Held(db, c)
    case _ => true
  }

  /** On the first try there is at most one copy of the request, and no reply while it is on its way. */
  ghost predicate FirstTry(db: PDb, i: nat, c: Client, queue: seq<PRequest>, replies: Replies) {
    Active(c) && c.tries == 0 ==>
      && (!c.awaiting ==> !Pending(c, queue) && Unanswered(i, c, replies) && Before(db, c))
      && (|queue| >= 2 ==> queue[|queue| - 2].serial < c.serial)
      && (Pending(c, queue) ==> Unanswered(i, c, replies) && Before(db, c))
  }

  ghost predicate ClientOk(db: PDb, i: nat, c: Client) {
    && c.cid == i && c.phase != Failed
    && (c.value.Tag? ==> c.value.cid == i)
    && (c.phase != Resting ==> GoodTag(c.value) && c.gid < NGROUPS && 1 <= c.nvalues <= MAX_SEQUENCE_LENGTH)
    && (InRound(c) ==> 1 <= c.lockVersion < db.next && (Held(db, c) ==> db.kv[Lock(c.gid)].value == c.value))
    && (c.phase == Writing ==> Held(db, c) && c.n < c.nvalues)
    && (c.phase == Clearing ==> Held(db, c) && c.nvalues <= c.n < MAX_SEQUENCE_LENGTH)
  }

  ghost predicate ClientInv(db: PDb, i: nat, c: Client, queue: seq<PRequest>, replies: Replies) {
    && ClientOk(db, i, c)
    && QueueOk(db, c, queue)
    && RepliesOk(db, i, c, replies)
    && FirstTry(db, i, c, queue, replies)
  }

  ghost predicate Inv(cfg: Config, s: System) {
    && DbOk(s.db) && Owners(s.db, s.clients) && Free(s.db)
    && forall i: nat :: i < |s.clients| ==>
         ClientInv(s.db, i, s.clients[i], Queue(s.requests, Channel(i, cfg.leader)), s.replies)
  }

  // ----- frames -----

  /** The two databases agree on the keys of group `g`. */
  ghost predicate SameGroup(db: PDb, db': PDb, g: nat) {
    && SameAt(db, db', Lock(g))
    && forall i: nat :: SameAt(db, db', Slot(g, i))
  }

  predicate SameAt(db: PDb, db': PDb, k: PKey) {
    (k in db.kv <==> k in db'.kv) && (k in db.kv ==> db.kv[k] == db'.kv[k])
  }

  lemma BlockFrame(db: PDb, db': PDb, g: nat, from: nat)
    requires SameGroup(db, db', g)
    ensures Block(db.kv, g, from) <==> Block(db'.kv, g, from)
  {
    assert forall i: nat :: SameAt(db, db', Slot(g, i));
  }

  lemma ShapeFrame(db: PDb, db': PDb, c: Client)
    requires SameGroup(db, db', c.gid)
    ensures Held(db, c) <==> Held(db', c)
    ensures Shape(db, c) ==> Shape(db', c)
    ensures PutDone(db, c) ==> PutDone(db', c)
    ensures RemoveDone(db, c) ==> RemoveDone(db', c)
    ensures NoSlotsFrom(db.kv, c.gid, c.n) ==> NoSlotsFrom(db'.kv, c.gid, c.n)
    ensures Before(db, c) ==> Before(db', c)
  {
    assert forall i: nat :: SameAt(db, db', Slot(c.gid, i));
    BlockFrame(db, db', c.gid, 0);
    BlockFrame(db, db', c.gid, c.n);
    BlockFrame(db, db', c.gid, c.n + 1);
  }

  /** What serving a request of client `c` can do: take its free lock, give it up, or change slots while holding it. */
  ghost predicate Touches(db: PDb, db': PDb, c: Client) {
    && db.next <= db'.next
    && (forall k: PKey :: k.group != c.gid ==> SameAt(db, db', k))
    && (!Held(db, c) ==> forall i: nat :: SameAt(db, db', Slot(c.gid, i)))
    && (|| SameAt(db, db', Lock(c.gid))
        || Taken(db, db', c)
        || (Held(db, c) && Lock(c.gid) !in db'.kv))
  }

  predicate Taken(db: PDb, db': PDb, c: Client) {
    && Lock(c.gid) !in db.kv && db.next < db'.next && c.value.Tag?
    && Lock(c.gid) in db'.kv && db'.kv[Lock(c.gid)] == Versioned(c.value, db.next)
  }

  lemma DeadFrame(db: PDb, db': PDb, c: Client, q: PRequest)
    requires Touches(db, db', c) && Dead(db, q)
    ensures Dead(db', q)
  {
    assert SameAt(db, db', q.key) || q.key.group == c.gid;
  }

  /** Another client's invariant does not notice. */
  lemma OtherClient(db: PDb, db': PDb, i: nat, c: Client, j: nat, d: Client, queue: seq<PRequest>, replies: Replies)
    requires i != j && Touches(db, db', c) && (c.value.Tag? ==> c.value.cid == i)
    requires Held(db, c) ==> HasPrefix(db.kv[Lock(c.gid)].value, i)
    requires ClientInv(db, j, d, queue, replies)
    ensures ClientInv(db', j, d, queue, replies)
  {
    forall q | q in queue && Dead(db, q) ensures Dead(db', q) { DeadFrame(db, db', c, q); }
    if d.gid != c.gid || Held(db, d) {
      assert SameGroup(db, db', d.gid);
      ShapeFrame(db, db', d);
    } else {
      assert !Held(db', d);
    }
  }

  /** Owners and free groups after a request of client `i` was served. */
  lemma GlobalFrame(db: PDb, db': PDb, clients: seq<Client>, i: nat)
    requires i < |clients| && DbOk(db) && Owners(db, clients) && Free(db)
    requires var c := clients[i];
      && ClientOk(db, i, c)
      && Touches(db, db', c)
      && (Taken(db, db', c) ==> AtLock(c))
      && (Held(db, c) && Lock(c.gid) in db'.kv ==> SameAt(db, db', Lock(c.gid)) && Shape(db', c))
      && (Held(db, c) && Lock(c.gid) !in db'.kv ==> Block(db'.kv, c.gid, 0))
    ensures Owners(db', clients) && Free(db')
  {
    var c := clients[i];
    forall g: nat | Lock(g) in db'.kv ensures OwnedBy(db', clients, g, db'.kv[Lock(g)].value) {
      if g != c.gid {
        assert SameGroup(db, db', g);
        assert OwnedBy(db, clients, g, db.kv[Lock(g)].value);
        ShapeFrame(db, db', clients[db.kv[Lock(g)].value.cid]);
      } else if Held(db, c) {
        assert db'.kv[Lock(g)].value == c.value;
      } else if SameAt(db, db', Lock(g)) {
        assert SameGroup(db, db', g);
        assert OwnedBy(db, clients, g, db.kv[Lock(g)].value);
        ShapeFrame(db, db', clients[db.kv[Lock(g)].value.cid]);
      } else {
        assert SlotsSame(db, db', g);
        SlotsBlock(db, db', g, 0);
      }
    }
    forall g: nat | Lock(g) !in db'.kv ensures Block(db'.kv, g, 0) {
      if g != c.gid {
        assert SameGroup(db, db', g);
        BlockFrame(db, db', g, 0);
      } else if !Held(db, c) {
        assert SameGroup(db, db', g);
        BlockFrame(db, db', g, 0);
      }
    }
  }

  ghost predicate SlotsSame(db: PDb, db': PDb, g: nat) { forall i: nat :: SameAt(db, db', Slot(g, i)) }

  lemma SlotsBlock(db: PDb, db': PDb, g: nat, from: nat)
    requires SlotsSame(db, db', g)
    ensures Block(db.kv, g, from) ==> Block(db'.kv, g, from)
  {
    assert forall i: nat :: SameAt(db, db', Slot(g, i));
  }
}
