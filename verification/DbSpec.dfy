/** What a `pancydb` holds, what each request does to it, and the mutation log it refines. */
module DbSpec {
  import opened Base
  import opened PancyMsgs

  datatype Versioned<V> = Versioned(value: V, version: int)
  datatype RecentRemove<K, V> = RecentRemove(key: K, removed: Versioned<V>, removeVersion: int)

  const MAX_RECENT_REMOVES: nat := 100

  /** `removes` is the deque of recent removals, newest first. */
  datatype Db<K(==), V> = Db(next: int, kv: map<K, Versioned<V>>, removes: seq<RecentRemove<K, V>>)

  type StringDb = Db<string, string>

  function EmptyDb<K(==), V>(): Db<K, V> { Db(1, map[], []) }

  function Newest<T>(s: seq<T>): seq<T> {
    if |s| > MAX_RECENT_REMOVES then s[..MAX_RECENT_REMOVES] else s
  }

  /** What a lookup points at: the entry of `key`, or the shared nonexistent one, whose value is `empty`. */
  function Find<K(==), V>(db: Db<K, V>, key: K, empty: V): Versioned<V> {
    if key in db.kv then db.kv[key] else Versioned(empty, NONEXISTENT_VERSION)
  }

  function Store<K(==), V>(db: Db<K, V>, key: K, value: V): Db<K, V> {
    db.(next := db.next + 1, kv := db.kv[key := Versioned(value, db.next)])
  }

  function Erase<K(==), V>(db: Db<K, V>, key: K): Db<K, V>
    requires key in db.kv
  {
    Db(db.next + 1, db.kv - {key}, Newest([RecentRemove(key, db.kv[key], db.next)] + db.removes))
  }

  function VersionMatches(versionMatch: int, version: int): bool {
    versionMatch < 0 || versionMatch == version
  }

  /** The database and the response after `process_req`. */
  function Process<K(==), V(==)>(db: Db<K, V>, req: Request<K, V>, empty: V): (Db<K, V>, Response<V>) {
    var was := Find(db, req.key, empty);
    match req
    case GetRequest(serial, key) =>
      (db, GetResponse(serial, Ok, was.value, was.version))
    case PutRequest(serial, key, value, vm) =>
      if VersionMatches(vm, was.version)
      then (Store(db, key, value), PutResponse(serial, Ok, empty, was.version, db.next))
      else (db, PutResponse(serial, NoMatch, was.value, was.version, was.version))
    case CasRequest(serial, key, expected, desired, vm) =>
      if expected == was.value && VersionMatches(vm, was.version)
      then (Store(db, key, desired), CasResponse(serial, Ok, empty, was.version, db.next))
      else (db, CasResponse(serial, NoMatch, was.value, was.version, was.version))
    case RemoveRequest(serial, key, vm) =>
      if key !in db.kv then
        (db, RemoveResponse(serial, NotFound, empty, NONEXISTENT_VERSION, NONEXISTENT_VERSION))
      else if VersionMatches(vm, was.version)
      then (Erase(db, key), RemoveResponse(serial, Ok, empty, was.version, NONEXISTENT_VERSION))
      else (db, RemoveResponse(serial, NoMatch, was.value, was.version, was.version))
  }

  function ProcessAll<K(==), V(==)>(db: Db<K, V>, reqs: seq<Request<K, V>>, empty: V): Db<K, V>
  {
    if reqs == [] then db
    else Process(ProcessAll(db, reqs[..|reqs| - 1], empty), reqs[|reqs| - 1], empty).0
  }

  /** A request succeeds exactly when its conditions hold of the entry it finds, and then counts as one mutation. Its
      response reports the entry's version before and after. The value is reported only where it stood in the way. */
  lemma ResponseReports<K, V>(db: Db<K, V>, req: Request<K, V>, empty: V)
    ensures var (db', resp) := Process(db, req, empty);
      var before := if req.key in db.kv then db.kv[req.key] else Versioned(empty, 0);
      var after := if req.key in db'.kv then db'.kv[req.key] else Versioned(empty, 0);
      && resp.serial == req.serial
      && (forall k :: k != req.key ==> (k in db'.kv <==> k in db.kv) && (k in db.kv ==> db'.kv[k] == db.kv[k]))
      && if req.GetRequest? then resp == GetResponse(req.serial, Ok, before.value, before.version) && db' == db
         else
           && (resp.PutResponse? <==> req.PutRequest?) && (resp.CasResponse? <==> req.CasRequest?)
           && (resp.RemoveResponse? <==> req.RemoveRequest?)
           && resp.previousVersion == before.version && resp.version == after.version
           && (resp.errcode == NotFound <==> req.RemoveRequest? && req.key !in db.kv)
           && (resp.errcode == Ok <==>
                 && (req.versionMatch < 0 || req.versionMatch == before.version)
                 && (req.CasRequest? ==> req.expected == before.value)
                 && (req.RemoveRequest? ==> req.key in db.kv))
           && resp.errcode != Redirect
           && (resp.errcode == NoMatch ==> resp.actual == before.value)
           && (resp.errcode != NoMatch ==> resp.actual == empty)
           && (resp.errcode != Ok ==> db' == db)
           && (resp.errcode == Ok ==>
                 && db'.next == db.next + 1
                 && match req
                    case PutRequest(_, key, value, _) => key in db'.kv && after == Versioned(value, db.next)
                    case CasRequest(_, key, _, desired, _) => key in db'.kv && after == Versioned(desired, db.next)
                    case RemoveRequest(_, key, _) => key !in db'.kv)
  {
  }

  // ----- the mutation log -----

  datatype Mutation<K, V> = Stored(key: K, value: V) | Erased(key: K)
  type Log<K, V> = seq<Mutation<K, V>>

  /** The entry the log leaves at `key`. Mutation number `i` (from 1) writes version `i`. */
  function Current<K(==), V>(log: Log<K, V>, key: K): Option<Versioned<V>> {
    if log == [] then None
    else
      var last := log[|log| - 1];
      if last.key != key then Current(log[..|log| - 1], key)
      else if last.Stored? then Some(Versioned(last.value, |log|)) else None
  }

  /** Only what exists is erased. */
  predicate ProperLog<K(==), V>(log: Log<K, V>) {
    forall i :: 0 <= i < |log| && log[i].Erased? ==> Current(log[..i], log[i].key).Some?
  }

  /** Every removal of the log, newest first, with the entry it removed. */
  function Removals<K(==), V>(log: Log<K, V>): seq<RecentRemove<K, V>>
    requires ProperLog(log)
  {
    if log == [] then []
    else
      var init, last := log[..|log| - 1], log[|log| - 1];
      ProperPrefix(log, |log| - 1);
      if last.Stored? then Removals(init)
      else [RecentRemove(last.key, Current(init, last.key).value, |log|)] + Removals(init)
  }

  lemma ProperPrefix<K, V>(log: Log<K, V>, n: nat)
    requires ProperLog(log) && n <= |log|
    ensures ProperLog(log[..n])
  {
    forall i | 0 <= i < n && log[..n][i].Erased? ensures Current(log[..n][..i], log[..n][i].key).Some? {
      assert log[..n][..i] == log[..i];
    }
  }

  /** The refinement: the database is what the log says, and counts its mutations. */
  ghost predicate Represents<K(!new), V>(db: Db<K, V>, log: Log<K, V>) {
    && ProperLog(log)
    && db.next == |log| + 1
    && (forall k :: k in db.kv <==> Current(log, k).Some?)
    && (forall k :: k in db.kv ==> db.kv[k] == Current(log, k).value)
    && db.removes == Newest(Removals(log))
  }

  /** The mutation a request makes, if it succeeds. */
  function Effect<K(==), V(==)>(db: Db<K, V>, req: Request<K, V>, empty: V): Log<K, V> {
    if req.GetRequest? || Process(db, req, empty).1.errcode != Ok then []
    else match req
      case PutRequest(_, key, value, _) => [Stored(key, value)]
      case CasRequest(_, key, _, desired, _) => [Stored(key, desired)]
      case RemoveRequest(_, key, _) => [Erased(key)]
  }

  lemma StoreRefines<K(!new), V>(db: Db<K, V>, log: Log<K, V>, key: K, value: V)
    requires Represents(db, log)
    ensures Represents(Store(db, key, value), log + [Stored(key, value)])
  {
    ExtendProper(log, Stored(key, value));
    ExtendCurrent(log, Stored(key, value));
  }

  lemma EraseRefines<K(!new), V>(db: Db<K, V>, log: Log<K, V>, key: K)
    requires Represents(db, log) && key in db.kv
    ensures Represents(Erase(db, key), log + [Erased(key)])
  {
    ExtendProper(log, Erased(key));
    ExtendCurrent(log, Erased(key));
    NewestOfNewest(RecentRemove(key, db.kv[key], db.next), Removals(log));
  }

  lemma NewestOfNewest<T>(x: T, s: seq<T>)
    ensures Newest([x] + Newest(s)) == Newest([x] + s)
  {
  }

  lemma ExtendProper<K, V>(log: Log<K, V>, m: Mutation<K, V>)
    requires ProperLog(log)
    requires m.Erased? ==> Current(log, m.key).Some?
    ensures ProperLog(log + [m])
    ensures Removals(log + [m]) ==
            if m.Stored? then Removals(log)
            else [RecentRemove(m.key, Current(log, m.key).value, |log| + 1)] + Removals(log)
  {
    var longer := log + [m];
    forall i | 0 <= i < |longer| && longer[i].Erased? ensures Current(longer[..i], longer[i].key).Some? {
      assert longer[..i] == log[..i];
      assert log[..|log|] == log;
    }
    assert longer[..|longer| - 1] == log;
  }

  lemma ExtendCurrent<K(!new), V>(log: Log<K, V>, m: Mutation<K, V>)
    ensures forall k :: Current(log + [m], k) ==
                        if m.key != k then Current(log, k)
                        else if m.Stored? then Some(Versioned(m.value, |log| + 1)) else None
  {
    assert (log + [m])[..|log + [m]| - 1] == log;
  }

  /** Every request either appends its one mutation or, when it fails or only reads, changes nothing. */
  lemma ProcessRefines<K(!new), V>(db: Db<K, V>, log: Log<K, V>, req: Request<K, V>, empty: V)
    requires Represents(db, log)
    ensures Represents(Process(db, req, empty).0, log + Effect(db, req, empty))
    ensures Effect(db, req, empty) == [] ==> Process(db, req, empty).0 == db
  {
    assert log + [] == log;
    var mutation := Effect(db, req, empty);
    if mutation != [] {
      match req
      case PutRequest(_, key, value, _) => StoreRefines(db, log, key, value);
      case CasRequest(_, key, _, desired, _) => StoreRefines(db, log, key, desired);
      case RemoveRequest(_, key, _) => EraseRefines(db, log, key);
    }
  }

  /** The successful mutations of a fresh database that serves `reqs`. */
  function LogOf<K(==), V(==)>(reqs: seq<Request<K, V>>, empty: V): Log<K, V> {
    if reqs == [] then []
    else
      var init := reqs[..|reqs| - 1];
      LogOf(init, empty) + Effect(ProcessAll(EmptyDb(), init, empty), reqs[|reqs| - 1], empty)
  }

  /** Whatever requests a fresh database serves, it is what the log of their mutations says. */
  lemma {:induction false} AllRunsRefine<K(!new), V>(reqs: seq<Request<K, V>>, empty: V)
    ensures Represents(ProcessAll(EmptyDb(), reqs, empty), LogOf(reqs, empty))
  {
    if reqs != [] {
      var init := reqs[..|reqs| - 1];
      AllRunsRefine(init, empty);
      ProcessRefines(ProcessAll(EmptyDb(), init, empty), LogOf(init, empty), reqs[|reqs| - 1], empty);
    }
  }

  /** A request that makes the mutation `m` wherever it can be made. */
  function RequestOf<K, V>(m: Mutation<K, V>): Request<K, V> {
    match m
    case Stored(key, value) => PutRequest(0, key, value, ANY_VERSION)
    case Erased(key) => RemoveRequest(0, key, ANY_VERSION)
  }

  function RequestsOf<K, V>(log: Log<K, V>): seq<Request<K, V>> {
    seq(|log|, i requires 0 <= i < |log| => RequestOf(log[i]))
  }

  /** Every proper log is the log of a run of requests. */
  lemma {:induction false} EveryLogIsReached<K(!new), V>(log: Log<K, V>, empty: V)
    requires ProperLog(log)
    ensures Represents(ProcessAll(EmptyDb(), RequestsOf(log), empty), log)
  {
    if log != [] {
      var init, last := log[..|log| - 1], log[|log| - 1];
      ProperPrefix(log, |log| - 1);
      EveryLogIsReached(init, empty);
      assert RequestsOf(log)[..|log| - 1] == RequestsOf(init);
      var db := ProcessAll(EmptyDb(), RequestsOf(init), empty);
      assert last.Erased? ==> Current(init, last.key).Some?;
      ProcessRefines(db, init, RequestOf(last), empty);
      assert init + [last] == log;
    }
  }

  /** So the databases that a log represents are exactly those that requests can produce. */
  lemma RepresentedIsReached<K(!new), V>(db: Db<K, V>, log: Log<K, V>, empty: V)
    requires Represents(db, log)
    ensures db == ProcessAll(EmptyDb(), RequestsOf(log), empty)
  {
    EveryLogIsReached(log, empty);
    var reached := ProcessAll(EmptyDb(), RequestsOf(log), empty);
    assert db.kv == reached.kv;
  }

  // ----- what a log says -----

  /** An entry is the last mutation of its key, and its version is that mutation's number. */
  lemma {:induction false} CurrentIsLast<K(!new), V>(log: Log<K, V>, key: K)
    ensures match Current(log, key)
      case Some(e) =>
        && 1 <= e.version <= |log| && log[e.version - 1] == Stored(key, e.value)
        && forall i :: e.version <= i < |log| ==> log[i].key != key
      case None =>
        forall i :: 0 <= i < |log| && log[i].Stored? && log[i].key == key ==>
          exists j :: i < j < |log| && log[j] == Erased(key)
  {
    if log != [] {
      var init := log[..|log| - 1];
      var last := log[|log| - 1];
      assert log == init + [last];
      CurrentIsLast(init, key);
      if last.key != key && Current(init, key).None? {
        forall i | 0 <= i < |log| && log[i].Stored? && log[i].key == key
          ensures exists j :: i < j < |log| && log[j] == Erased(key)
        {
          assert init[i] == log[i];
          var j :| i < j < |init| && init[j] == Erased(key);
          assert log[j] == Erased(key);
        }
      }
      if last.key == key && last.Erased? {
        assert log[|log| - 1] == Erased(key);
      }
    }
  }

  /** The bounded list is the newest hundred removals of the log, or all when there are fewer. */
  lemma RemovesAreNewest<K(!new), V>(db: Db<K, V>, log: Log<K, V>)
    requires Represents(db, log)
    ensures db.removes <= Removals(log)
    ensures |db.removes| == if |Removals(log)| < 100 then |Removals(log)| else 100
  {
  }

  /** Stored versions are positive, below the next version, and never shared by two keys. */
  lemma VersionsAreDistinct<K(!new), V>(db: Db<K, V>, log: Log<K, V>, k: K, k': K)
    requires Represents(db, log) && k in db.kv && k' in db.kv
    ensures 1 <= db.kv[k].version < db.next
    ensures k != k' ==> db.kv[k].version != db.kv[k'].version
  {
    CurrentIsLast(log, k);
    CurrentIsLast(log, k');
  }

  /** The removal list is in descending order, each entry above the version it removed. */
  lemma {:induction false} RemovalsDescend<K, V>(log: Log<K, V>)
    requires ProperLog(log)
    ensures forall i :: 0 <= i < |Removals(log)| ==>
      var r := Removals(log)[i]; 1 <= r.removed.version < r.removeVersion <= |log|
    ensures forall i, j :: 0 <= i < j < |Removals(log)| ==>
      Removals(log)[j].removeVersion < Removals(log)[i].removeVersion
  {
    if log != [] {
      var init, last := log[..|log| - 1], log[|log| - 1];
      ProperPrefix(log, |log| - 1);
      RemovalsDescend(init);
      if last.Erased? {
        CurrentBounds(init, last.key);
      }
    }
  }

  lemma {:induction false} CurrentBounds<K, V>(log: Log<K, V>, key: K)
    ensures Current(log, key).Some? ==> 1 <= Current(log, key).value.version <= |log|
  {
    if log != [] { CurrentBounds(log[..|log| - 1], key); }
  }

  /** The removal list has exactly one entry for each erasure in the log. */
  lemma {:induction false} RemovalsAreErasures<K(!new), V>(log: Log<K, V>, r: RecentRemove<K, V>)
    requires ProperLog(log)
    ensures r in Removals(log) <==>
      && 1 <= r.removeVersion <= |log| && log[r.removeVersion - 1] == Erased(r.key)
      && Current(log[..r.removeVersion - 1], r.key) == Some(r.removed)
  {
    if log != [] {
      var init, last := log[..|log| - 1], log[|log| - 1];
      ProperPrefix(log, |log| - 1);
      RemovalsAreErasures(init, r);
      if 1 <= r.removeVersion <= |init| {
        assert init[..r.removeVersion - 1] == log[..r.removeVersion - 1];
      }
    }
  }
}
