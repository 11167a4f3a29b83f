/** A database compares keys and values only for equality, so renaming them injectively changes nothing else. */
module DbRename {
  import opened PancyMsgs
  import opened DbSpec

  ghost predicate Injective<A(!new), B>(f: A -> B) {
    forall a, b :: f(a) == f(b) ==> a == b
  }

  function RenameRequest<K, V, L, W>(q: Request<K, V>, rk: K -> L, rv: V -> W): Request<L, W> {
    match q
    case GetRequest(s, k) => GetRequest(s, rk(k))
    case PutRequest(s, k, v, vm) => PutRequest(s, rk(k), rv(v), vm)
    case CasRequest(s, k, e, d, vm) => CasRequest(s, rk(k), rv(e), rv(d), vm)
    case RemoveRequest(s, k, vm) => RemoveRequest(s, rk(k), vm)
  }

  function RenameAll<K, V, L, W>(qs: seq<Request<K, V>>, rk: K -> L, rv: V -> W): seq<Request<L, W>> {
    seq(|qs|, i requires 0 <= i < |qs| => RenameRequest(qs[i], rk, rv))
  }

  function RenameResponse<V, W>(r: Response<V>, rv: V -> W): Response<W> {
    match r
    case RedirectionResponse(s, e, l) => RedirectionResponse(s, e, l)
    case GetResponse(s, e, v, n) => GetResponse(s, e, rv(v), n)
    case PutResponse(s, e, a, p, n) => PutResponse(s, e, rv(a), p, n)
    case CasResponse(s, e, a, p, n) => CasResponse(s, e, rv(a), p, n)
    case RemoveResponse(s, e, a, p, n) => RemoveResponse(s, e, rv(a), p, n)
  }

  function RenameVv<V, W>(v: Versioned<V>, rv: V -> W): Versioned<W> { Versioned(rv(v.value), v.version) }

  function RenameRemove<K, V, L, W>(r: RecentRemove<K, V>, rk: K -> L, rv: V -> W): RecentRemove<L, W> {
    RecentRemove(rk(r.key), RenameVv(r.removed, rv), r.removeVersion)
  }

  /** `t` has the entries of `db` under their new names, and nothing else. */
  ghost predicate Renamed<K(!new), V, L(!new), W>(db: Db<K, V>, t: Db<L, W>, rk: K -> L, rv: V -> W) {
    && t.next == db.next
    && (forall k :: k in db.kv <==> rk(k) in t.kv)
    && (forall k :: k in db.kv ==> t.kv[rk(k)] == RenameVv(db.kv[k], rv))
    && (forall l :: l in t.kv ==> exists k :: k in db.kv && l == rk(k))
    && |t.removes| == |db.removes|
    && forall i :: 0 <= i < |t.removes| ==> t.removes[i] == RenameRemove(db.removes[i], rk, rv)
  }

  lemma StoreRenamed<K(!new), V, L(!new), W>(db: Db<K, V>, t: Db<L, W>, rk: K -> L, rv: V -> W, k: K, v: V)
    requires Renamed(db, t, rk, rv) && Injective(rk)
    ensures Renamed(Store(db, k, v), Store(t, rk(k), rv(v)), rk, rv)
  {
    var db', t' := Store(db, k, v), Store(t, rk(k), rv(v));
    forall l | l in t'.kv ensures exists k' :: k' in db'.kv && l == rk(k') {
      if l == rk(k) { assert k in db'.kv; }
      else { var k' :| k' in db.kv && l == rk(k'); assert k' in db'.kv; }
    }
  }

  lemma EraseRenamed<K(!new), V, L(!new), W>(db: Db<K, V>, t: Db<L, W>, rk: K -> L, rv: V -> W, k: K)
    requires Renamed(db, t, rk, rv) && Injective(rk) && k in db.kv
    ensures Renamed(Erase(db, k), Erase(t, rk(k)), rk, rv)
  {
    var db', t' := Erase(db, k), Erase(t, rk(k));
    forall l | l in t'.kv ensures exists k' :: k' in db'.kv && l == rk(k') {
      var k' :| k' in db.kv && l == rk(k');
      assert k' in db'.kv;
    }
  }

  /** Serving the renamed request gives the renamed response and the renamed database. */
  lemma ProcessRenamed<K(!new), V(!new), L(!new), W>(
    db: Db<K, V>, t: Db<L, W>, rk: K -> L, rv: V -> W, q: Request<K, V>, empty: V)
    requires Renamed(db, t, rk, rv) && Injective(rk) && Injective(rv)
    ensures Renamed(Process(db, q, empty).0, Process(t, RenameRequest(q, rk, rv), rv(empty)).0, rk, rv)
    ensures Process(t, RenameRequest(q, rk, rv), rv(empty)).1 == RenameResponse(Process(db, q, empty).1, rv)
  {
    AnswerRenamed(db, t, rk, rv, q, empty);
    var k := q.key;
    if Process(db, q, empty).1.errcode == Ok {
      match q
      case GetRequest(_, _) =>
      case PutRequest(_, _, v, _) => StoreRenamed(db, t, rk, rv, k, v);
      case CasRequest(_, _, _, d, _) => StoreRenamed(db, t, rk, rv, k, d);
      case RemoveRequest(_, _, _) => EraseRenamed(db, t, rk, rv, k);
    }
  }

  lemma AnswerRenamed<K(!new), V(!new), L(!new), W>(
    db: Db<K, V>, t: Db<L, W>, rk: K -> L, rv: V -> W, q: Request<K, V>, empty: V)
    requires Renamed(db, t, rk, rv) && Injective(rv)
    ensures Process(t, RenameRequest(q, rk, rv), rv(empty)).1 == RenameResponse(Process(db, q, empty).1, rv)
  {
    var was := Find(db, q.key, empty);
    assert Find(t, rk(q.key), rv(empty)) == RenameVv(was, rv);
    if q.CasRequest? { assert rv(q.expected) == rv(was.value) <==> q.expected == was.value; }
  }

  lemma {:induction false} RunRenamed<K(!new), V(!new), L(!new), W>(
    qs: seq<Request<K, V>>, rk: K -> L, rv: V -> W, empty: V)
    requires Injective(rk) && Injective(rv)
    ensures Renamed(ProcessAll(EmptyDb(), qs, empty), ProcessAll(EmptyDb(), RenameAll(qs, rk, rv), rv(empty)), rk, rv)
  {
    if qs != [] {
      var init := qs[..|qs| - 1];
      RunRenamed(init, rk, rv, empty);
      assert RenameAll(qs, rk, rv)[..|qs| - 1] == RenameAll(init, rk, rv);
      ProcessRenamed(ProcessAll(EmptyDb(), init, empty), ProcessAll(EmptyDb(), RenameAll(init, rk, rv), rv(empty)),
                     rk, rv, qs[|qs| - 1], empty);
    }
  }
}
