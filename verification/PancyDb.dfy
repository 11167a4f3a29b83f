/** The database itself: a versioned map that requests update in place. */
module PancyDb {
  import opened Base
  import opened PancyMsgs
  import opened DbSpec
  import opened DbDiff
  import opened DbDiffAny
  import Lex

  /** The one entry, shared by every database, that lookups of absent keys point at. */
  class NonexistentVv {
    var vv: Versioned<string>

    constructor ()
      ensures vv == Versioned("", NONEXISTENT_VERSION)
    {
      vv := Versioned("", NONEXISTENT_VERSION);
    }
  }

  /** A pointer to an entry: one in the map, or the shared nonexistent one. */
  datatype VvPtr = Entry(key: string) | Nonexistent

  class PancyDb {
    var nextVersion: int
    var db: map<string, Versioned<string>>
    var recentRemoves: seq<RecentRemove<string, string>>
    const nonexistent: NonexistentVv
    ghost var log: Log<string, string>

    ghost predicate Valid()
      reads this, nonexistent
    {
      nonexistent.vv == Versioned("", NONEXISTENT_VERSION) && Represents(Abs(), log)
    }

    function Abs(): StringDb
      reads this
    {
      Db(nextVersion, db, recentRemoves)
    }

    constructor (nonexistent: NonexistentVv)
      requires nonexistent.vv == Versioned("", NONEXISTENT_VERSION)
      ensures Valid() && this.nonexistent == nonexistent && Abs() == EmptyDb() && log == []
    {
      nextVersion, db, recentRemoves, log := 1, map[], [], [];
      this.nonexistent := nonexistent;
    }

    // ----- pointers to entries -----

    predicate Points(p: VvPtr)
      reads this
    {
      p.Entry? ==> p.key in db
    }

    function Deref(p: VvPtr): Versioned<string>
      requires Points(p)
      reads this, nonexistent
    {
      match p
      case Entry(key) => db[key]
      case Nonexistent => nonexistent.vv
    }

    /** The pointer leads to the key's entry, or else to the shared one that reads as empty at version zero; a write
        through it would be a write to `key` only in the first case. */
    method FindVvptr(key: string) returns (p: VvPtr)
      requires Valid()
      ensures Points(p) && Deref(p) == Find(Abs(), key, "")
      ensures p.Nonexistent? <==> key !in db
      ensures p.Entry? ==> p.key == key
    {
      p := if key in db then Entry(key) else Nonexistent;
    }

    /** Write through a pointer. Through the nonexistent one this would change every database. */
    method Write(p: VvPtr, value: string, version: int)
      requires Points(p)
      modifies this`db, nonexistent
      ensures p.Entry? ==> db == old(db)[p.key := Versioned(value, version)] && unchanged(nonexistent)
      ensures p.Nonexistent? ==> db == old(db) && nonexistent.vv == Versioned(value, version)
    {
      match p
      case Entry(key) => db := db[key := Versioned(value, version)];
      case Nonexistent => nonexistent.vv := Versioned(value, version);
    }

    method EmplaceVvptr(key: string, value: string) returns (p: VvPtr, inserted: bool)
      modifies this`db
      ensures p == Entry(key) && inserted == (key !in old(db))
      ensures db == if inserted then old(db)[key := Versioned(value, nextVersion)] else old(db)
    {
      inserted := key !in db;
      if inserted { db := db[key := Versioned(value, nextVersion)]; }
      p := Entry(key);
    }

    method DoRemove(key: string)
      requires key in db
      modifies this`db, this`nextVersion, this`recentRemoves
      ensures |old(recentRemoves)| <= MAX_RECENT_REMOVES ==> Abs() == Erase(old(Abs()), key)
    {
      recentRemoves := [RecentRemove(key, db[key], nextVersion)] + recentRemoves;
      ghost var all := recentRemoves;
      while |recentRemoves| > MAX_RECENT_REMOVES
        invariant recentRemoves <= all
        invariant |recentRemoves| >= if |all| < MAX_RECENT_REMOVES then |all| else MAX_RECENT_REMOVES
        invariant nextVersion == old(nextVersion) && db == old(db)
      {
        recentRemoves := recentRemoves[..|recentRemoves| - 1];
      }
      nextVersion := nextVersion + 1;
      db := db - {key};
    }

    // ----- the direct interface -----

    method Version(key: string) returns (version: int)
      requires Valid()
      ensures version == Find(Abs(), key, "").version
      ensures version == NONEXISTENT_VERSION <==> key !in db
    {
      var p := FindVvptr(key);
      version := Deref(p).version;
      if key in db { VersionsAreDistinct(Abs(), log, key, key); }
    }

    method Get(key: string) returns (vv: Option<Versioned<string>>)
      requires Valid()
      ensures vv == Current(log, key)
    {
      var p := FindVvptr(key);
      vv := if Deref(p).version != 0 then Some(Deref(p)) else None;
      if key in db { VersionsAreDistinct(Abs(), log, key, key); }
    }

    method Put(key: string, value: string)
      requires Valid()
      modifies this, nonexistent
      ensures Valid() && unchanged(nonexistent)
      ensures Abs() == Store(old(Abs()), key, value) && log == old(log) + [Stored(key, value)]
    {
      StoreRefines(Abs(), log, key, value);
      var p, inserted := EmplaceVvptr(key, value);
      if !inserted { Write(p, value, nextVersion); }
      nextVersion := nextVersion + 1;
      log := log + [Stored(key, value)];
    }

    method Remove(key: string) returns (removed: bool)
      requires Valid()
      modifies this
      ensures Valid() && removed == (key in old(db))
      ensures removed ==> Abs() == Erase(old(Abs()), key) && log == old(log) + [Erased(key)]
      ensures !removed ==> unchanged(this)
    {
      if key !in db { return false; }
      EraseRefines(Abs(), log, key);
      DoRemove(key);
      log := log + [Erased(key)];
      removed := true;
    }

    // ----- the message interface -----

    method ProcessGet(req: Request<string, string>) returns (resp: Response<string>)
      requires Valid() && req.GetRequest?
      ensures resp == Process(Abs(), req, "").1
    {
      var p := FindVvptr(req.key);
      resp := GetResponse(req.serial, Ok, Deref(p).value, Deref(p).version);
    }

    method ProcessPut(req: Request<string, string>) returns (resp: Response<string>)
      requires Valid() && req.PutRequest?
      modifies this, nonexistent
      ensures Processed(req, resp)
    {
      ProcessRefines(Abs(), log, req, "");
      var p := FindVvptr(req.key);
      if req.versionMatch >= 0 && req.versionMatch != Deref(p).version {
        return PutResponse(req.serial, NoMatch, Deref(p).value, Deref(p).version, Deref(p).version);
      }
      ghost var effect := Effect(Abs(), req, "");
      var previous := Deref(p).version;
      if previous == NONEXISTENT_VERSION {
        NonexistentIsAbsent(req.key);
        var entry, _ := EmplaceVvptr(req.key, req.value);
        p := entry;
        nextVersion := nextVersion + 1;
        resp := PutResponse(req.serial, Ok, "", NONEXISTENT_VERSION, Deref(p).version);
      } else {
        Write(p, req.value, nextVersion);
        nextVersion := nextVersion + 1;
        resp := PutResponse(req.serial, Ok, "", previous, Deref(p).version);
      }
      log := log + effect;
    }

    method ProcessCas(req: Request<string, string>) returns (resp: Response<string>)
      requires Valid() && req.CasRequest?
      modifies this, nonexistent
      ensures Processed(req, resp)
    {
      ProcessRefines(Abs(), log, req, "");
      var p := FindVvptr(req.key);
      if req.expected != Deref(p).value
         || (req.versionMatch >= 0 && req.versionMatch != Deref(p).version) {
        return CasResponse(req.serial, NoMatch, Deref(p).value, Deref(p).version, Deref(p).version);
      }
      ghost var effect := Effect(Abs(), req, "");
      var previous := Deref(p).version;
      if previous == NONEXISTENT_VERSION {
        NonexistentIsAbsent(req.key);
        var entry, _ := EmplaceVvptr(req.key, req.desired);
        p := entry;
        nextVersion := nextVersion + 1;
        resp := CasResponse(req.serial, Ok, "", NONEXISTENT_VERSION, Deref(p).version);
      } else {
        Write(p, req.desired, nextVersion);
        nextVersion := nextVersion + 1;
        resp := CasResponse(req.serial, Ok, "", previous, Deref(p).version);
      }
      log := log + effect;
    }

    method ProcessRemove(req: Request<string, string>) returns (resp: Response<string>)
      requires Valid() && req.RemoveRequest?
      modifies this
      ensures Processed(req, resp)
    {
      ProcessRefines(Abs(), log, req, "");
      if req.key !in db {
        return RemoveResponse(req.serial, NotFound, "", NONEXISTENT_VERSION, NONEXISTENT_VERSION);
      }
      var vv := db[req.key];
      if req.versionMatch >= 0 && req.versionMatch != vv.version {
        return RemoveResponse(req.serial, NoMatch, vv.value, vv.version, vv.version);
      }
      ghost var effect := Effect(Abs(), req, "");
      DoRemove(req.key);
      log := log + effect;
      resp := RemoveResponse(req.serial, Ok, "", vv.version, nonexistent.vv.version);
    }

    method ProcessReq(req: Request<string, string>) returns (resp: Response<string>)
      requires Valid()
      modifies this, nonexistent
      ensures Processed(req, resp)
    {
      ProcessRefines(Abs(), log, req, "");
      match req
      case GetRequest(_, _) => resp := ProcessGet(req); assert log + [] == log;
      case PutRequest(_, _, _, _) => resp := ProcessPut(req);
      case CasRequest(_, _, _, _, _) => resp := ProcessCas(req);
      case RemoveRequest(_, _, _) => resp := ProcessRemove(req);
    }

    /** One request was processed: state, response and log are those of the specification, the shared entry is
        untouched. */
    twostate predicate Processed(req: Request<string, string>, new resp: Response<string>)
      reads this, nonexistent
    {
      && Valid() && unchanged(nonexistent)
      && (Abs(), resp) == Process(old(Abs()), req, "")
      && log == old(log) + Effect(old(Abs()), req, "")
    }

    /** Version zero is never stored, so a pointer to it is the nonexistent one. */
    lemma NonexistentIsAbsent(key: string)
      requires Valid()
      ensures Find(Abs(), key, "").version == NONEXISTENT_VERSION <==> key !in db
    {
      if key in db { VersionsAreDistinct(Abs(), log, key, key); }
    }

    // ----- comparison -----

    /** The keys in the order in which `begin()` to `end()` visits them. */
    method KeysInOrder() returns (ks: seq<string>)
      ensures Lex.Sorted(ks) && forall k :: k in ks <==> k in db
    {
      ks := Lex.SortedKeys(db.Keys);
    }

    method FindRecent(key: string, minVersion: int) returns (vv: Option<Versioned<string>>)
      ensures vv == FindRecentRemove(recentRemoves, key, minVersion)
    {
      for i := 0 to |recentRemoves|
        invariant FindRecentRemove(recentRemoves[i..], key, minVersion)
               == FindRecentRemove(recentRemoves, key, minVersion)
      {
        var rr := recentRemoves[i];
        assert recentRemoves[i..][0] == rr && recentRemoves[i..][1..] == recentRemoves[i + 1..];
        if rr.key == key && rr.removeVersion >= minVersion { return Some(rr.removed); }
      }
      return None;
    }

    /** Find the versions of one key and check that they correspond. */
    method Differs(that: PancyDb, key: string, aLow: bool, bLow: bool, minVersion: int, removesComplete: bool)
      returns (differs: bool)
      requires aLow == (key in db) && bLow == (key in that.db)
      requires removesComplete == RemovesComplete(Abs(), minVersion)
      ensures differs == !Agree(Abs(), that.Abs(), minVersion, key)
    {
      var av, bv;
      if aLow { av := Some(db[key]); } else { av := FindRecent(key, minVersion); }
      if bLow { bv := Some(that.db[key]); } else { bv := that.FindRecent(key, minVersion); }
      if av.Some? && bv.None? && av.value.version >= minVersion {
        differs := false;  // stored within the window
      } else if av.None? && !removesComplete {
        differs := false;  // the removal may have been evicted
      } else {
        differs := av.None? || bv.None?
          || av.value.version < bv.value.version
          || (av.value.version > bv.value.version && av.value.version < minVersion)
          || (av.value.version == bv.value.version && av.value.value != bv.value.value);
      }
    }

    /** Merge the two maps in key order; report the least key at which they disagree. */
    method Diff(that: PancyDb, versionSkew: nat) returns (bad: Option<string>)
      requires Valid() && that.Valid()
      ensures var (a, b) := if nextVersion < that.nextVersion then (that.Abs(), Abs()) else (Abs(), that.Abs());
        DiffResult(a, b, versionSkew, bad)
      decreases nextVersion < that.nextVersion
    {
      if nextVersion < that.nextVersion {
        bad := that.Diff(this, versionSkew);
      } else {
        ghost var visited;
        bad, visited := DiffOlder(that, versionSkew);
      }
    }

    /** The merge loop. `visited` lists every key it looked at, in order and each once. */
    method DiffOlder(that: PancyDb, versionSkew: nat) returns (bad: Option<string>, ghost visited: seq<string>)
      requires nextVersion >= that.nextVersion
      ensures DiffResult(Abs(), that.Abs(), versionSkew, bad)
      ensures Lex.Sorted(visited)
      ensures bad.None? ==> forall k :: k in visited <==> k in db || k in that.db
    {
      var ak := KeysInOrder();
      var bk := that.KeysInOrder();
      var i, j := 0, 0;
      var minVersion := nextVersion - versionSkew;
      var removesComplete := |recentRemoves| < MAX_RECENT_REMOVES
        || recentRemoves[|recentRemoves| - 1].removeVersion <= minVersion;
      visited := [];
      ghost var a, b := Abs(), that.Abs();
      assert removesComplete == RemovesComplete(a, minVersion);
      while i != |ak| || j != |bk|
        invariant Merging(ak, bk, i, j, visited) && AllAgree(a, b, minVersion, visited)
        invariant a == Abs() && b == that.Abs()
        decreases |ak| + |bk| - i - j
      {
        var aLow, bLow, key := CompareHeads(ak, bk, i, j, visited);
        var differs := Differs(that, key, aLow, bLow, minVersion, removesComplete);
        if differs {
          Disagreement(a, b, versionSkew, visited, key);
          bad := Some(key);
          return;
        }
        visited := visited + [key];
        if aLow { i := i + 1; }
        if bLow { j := j + 1; }
      }
      MergeDone(ak, bk, visited);
      Agreement(a, b, versionSkew, visited);
      bad := None;
    }
  }

  /** Compare a database with one that lags it, either way round. Within the skew there is no alarm; beyond it there is
      none exactly when every key is accepted for one of the three reasons of `Accepted`. */
  method DiffLagging(a: PancyDb, b: PancyDb, versionSkew: nat) returns (ab: Option<string>, ba: Option<string>)
    requires a.Valid() && b.Valid() && b.log <= a.log
    ensures |a.log| - |b.log| <= versionSkew ==> ab.None? && ba.None?
    ensures ab.None? <==> forall k :: k in a.db || k in b.db ==> Accepted(a.Abs(), a.log, |b.log|, versionSkew, k)
    ensures ba.None? <==> ab.None?
  {
    ghost var lag := |a.log| - |b.log|;
    assert a.log[..|b.log|] == b.log;
    LaggingExact(a.Abs(), b.Abs(), a.log, |b.log|, versionSkew);
    if lag == 0 {
      assert b.log[..|b.log| - lag] == a.log;
      NoFalseAlarm(b.Abs(), a.Abs(), b.log, 0, versionSkew);
    }
    ab := a.Diff(b, versionSkew);
    ba := b.Diff(a, versionSkew);
  }

  /** Compare any two databases. There is no alarm exactly when every key is accepted, judged from their histories. */
  method DiffAny(a: PancyDb, b: PancyDb, versionSkew: nat) returns (bad: Option<string>)
    requires a.Valid() && b.Valid()
    ensures var (newer, older) := if a.nextVersion < b.nextVersion then (b, a) else (a, b);
      bad.None? <==> forall k :: k in newer.db || k in older.db ==>
        AcceptedOf(newer.log, older.log, newer.nextVersion - versionSkew, k)
  {
    if a.nextVersion < b.nextVersion {
      AnyExact(b.Abs(), a.Abs(), b.log, a.log, versionSkew);
    } else {
      AnyExact(a.Abs(), b.Abs(), a.log, b.log, versionSkew);
    }
    bad := a.Diff(b, versionSkew);
  }

  ghost predicate AllAgree(a: StringDb, b: StringDb, minVersion: int, keys: seq<string>) {
    forall k :: k in keys ==> Agree(a, b, minVersion, k)
  }

  /** No key is reported iff all agree, and a reported key is the least that does not. */
  ghost predicate DiffResult(a: StringDb, b: StringDb, skew: nat, bad: Option<string>)
    requires a.next >= b.next
  {
    && (bad.None? <==> Equivalent(a, b, skew))
    && (bad.Some? ==> LeastDisagreement(a, b, a.next - skew, bad.value))
  }

  lemma Disagreement(a: StringDb, b: StringDb, skew: nat, visited: seq<string>, key: string)
    requires a.next >= b.next && AllAgree(a, b, a.next - skew, visited)
    requires (key in a.kv || key in b.kv) && !Agree(a, b, a.next - skew, key)
    requires forall k :: (k in a.kv || k in b.kv) && Lex.Less(k, key) ==> k in visited
    ensures DiffResult(a, b, skew, Some(key))
  {
  }

  lemma Agreement(a: StringDb, b: StringDb, skew: nat, visited: seq<string>)
    requires a.next >= b.next && AllAgree(a, b, a.next - skew, visited)
    requires forall k :: k in a.kv || k in b.kv ==> k in visited
    ensures DiffResult(a, b, skew, None)
  {
  }

  ghost predicate LeastDisagreement(a: StringDb, b: StringDb, minVersion: int, key: string) {
    && (key in a.kv || key in b.kv) && !Agree(a, b, minVersion, key)
    && forall k :: (k in a.kv || k in b.kv) && Lex.Less(k, key) ==> Agree(a, b, minVersion, k)
  }

  predicate ALow(ak: seq<string>, bk: seq<string>, i: nat, j: nat)
    requires i <= |ak| && j <= |bk|
  {
    i != |ak| && (j == |bk| || ak[i] == bk[j] || Lex.Less(ak[i], bk[j]))
  }

  predicate BLow(ak: seq<string>, bk: seq<string>, i: nat, j: nat)
    requires i <= |ak| && j <= |bk|
  {
    j != |bk| && (i == |ak| || !Lex.Less(ak[i], bk[j]))
  }

  /** The keys visited so far are the merge of `ak[..i]` and `bk[..j]`, each once, below all that remain. */
  ghost predicate Merging(ak: seq<string>, bk: seq<string>, i: nat, j: nat, visited: seq<string>) {
    && i <= |ak| && j <= |bk|
    && Lex.Sorted(ak) && Lex.Sorted(bk) && Lex.Sorted(visited)
    && (forall k :: k in visited <==> k in ak[..i] || k in bk[..j])
    && (forall k, x :: k in visited && (x in ak[i..] || x in bk[j..]) ==> Lex.Less(k, x))
  }

  /** At the end the merge has visited exactly the keys of both lists. */
  lemma MergeDone(ak: seq<string>, bk: seq<string>, visited: seq<string>)
    requires Merging(ak, bk, |ak|, |bk|, visited)
    ensures Lex.Sorted(visited) && forall k :: k in visited <==> k in ak || k in bk
  {
    assert ak[..|ak|] == ak && bk[..|bk|] == bk;
  }

  lemma SplitAt(ks: seq<string>, i: nat)
    requires Lex.Sorted(ks) && i <= |ks|
    ensures forall x :: x in ks <==> x in ks[..i] || x in ks[i..]
    ensures i < |ks| ==> forall x :: x in ks[..i + 1] <==> x in ks[..i] || x == ks[i]
    ensures i < |ks| ==> forall x :: x in ks[i..] <==> x == ks[i] || x in ks[i + 1..]
    ensures i < |ks| ==> forall x :: x in ks[i + 1..] ==> Lex.Less(ks[i], x)
  {
    assert ks == ks[..i] + ks[i..];
    if i < |ks| {
      assert ks[..i + 1] == ks[..i] + [ks[i]];
      assert ks[i..] == [ks[i]] + ks[i + 1..];
    }
  }

  function LowKey(ak: seq<string>, bk: seq<string>, i: nat, j: nat): string
    requires i <= |ak| && j <= |bk| && (i < |ak| || j < |bk|)
  {
    if ALow(ak, bk, i, j) then ak[i] else bk[j]
  }

  /** The low key heads exactly the lists that contain it, and is below everything else that remains. */
  lemma LowIsLeast(ak: seq<string>, bk: seq<string>, i: nat, j: nat)
    requires Lex.Sorted(ak) && Lex.Sorted(bk)
    requires i <= |ak| && j <= |bk| && (i < |ak| || j < |bk|)
    ensures var key, a, b := LowKey(ak, bk, i, j), ALow(ak, bk, i, j), BLow(ak, bk, i, j);
      && (a || b) && (b ==> key == bk[j])
      && (key in ak[i..] <==> a) && (key in bk[j..] <==> b)
      && (forall x :: x in ak[if a then i + 1 else i..] || x in bk[if b then j + 1 else j..] ==> Lex.Less(key, x))
  {
    var key, a, b := LowKey(ak, bk, i, j), ALow(ak, bk, i, j), BLow(ak, bk, i, j);
    SplitAt(ak, i);
    SplitAt(bk, j);
    Lex.Irreflexive(key);
    if i < |ak| && j < |bk| {
      Lex.Total(ak[i], bk[j]);
      if a { Lex.Irreflexive(ak[i]); if b { Lex.Irreflexive(bk[j]); } }
      forall x | x in ak[i + 1..] ensures Lex.Less(key, x) {
        if !a { Lex.Transitive(key, ak[i], x); }
      }
      forall x | x in bk[j + 1..] ensures Lex.Less(key, x) {
        if !b { Lex.Transitive(key, bk[j], x); }
      }
    }
  }

  /** Which head is lower, and that advancing past it keeps the merge. */
  method CompareHeads(ak: seq<string>, bk: seq<string>, i: nat, j: nat, ghost visited: seq<string>)
    returns (aLow: bool, bLow: bool, key: string)
    requires Merging(ak, bk, i, j, visited) && (i < |ak| || j < |bk|)
    ensures (aLow || bLow) && (aLow ==> i < |ak|) && (bLow ==> j < |bk|)
    ensures (key in ak <==> aLow) && (key in bk <==> bLow)
    ensures forall k :: (k in ak || k in bk) && Lex.Less(k, key) ==> k in visited
    ensures Merging(ak, bk, if aLow then i + 1 else i, if bLow then j + 1 else j, visited + [key])
  {
    aLow, bLow, key := ALow(ak, bk, i, j), BLow(ak, bk, i, j), LowKey(ak, bk, i, j);
    MergeStep(ak, bk, i, j, visited);
  }

  /** Advancing past the low key keeps the merge. */
  lemma MergeStep(ak: seq<string>, bk: seq<string>, i: nat, j: nat, visited: seq<string>)
    requires Merging(ak, bk, i, j, visited) && (i < |ak| || j < |bk|)
    ensures var key, a, b := LowKey(ak, bk, i, j), ALow(ak, bk, i, j), BLow(ak, bk, i, j);
      && (a || b) && (b ==> key == bk[j])
      && (key in ak <==> a) && (key in bk <==> b)
      && (forall k :: (k in ak || k in bk) && Lex.Less(k, key) ==> k in visited)
      && Merging(ak, bk, if a then i + 1 else i, if b then j + 1 else j, visited + [key])
  {
    var key, a, b := LowKey(ak, bk, i, j), ALow(ak, bk, i, j), BLow(ak, bk, i, j);
    SplitAt(ak, i);
    SplitAt(bk, j);
    LowIsLeast(ak, bk, i, j);
    assert key in ak[i..] || key in bk[j..];
    if key in visited { Lex.Irreflexive(key); }
    forall k | (k in ak || k in bk) && Lex.Less(k, key) ensures k in visited {
      if k !in visited { Lex.Asymmetric(k, key); }
    }
  }
}
