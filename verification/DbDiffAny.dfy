/** Exactly what `diff` accepts of any two databases, whether or not one's history extends the other's. */
module DbDiffAny {
  import opened Base
  import opened DbSpec
  import opened DbDiff

  /** The last value a log stores at `key`, erased since or not. */
  function LastStored<K(==), V>(log: Log<K, V>, key: K): Option<Versioned<V>> {
    if log == [] then None
    else
      var last := log[|log| - 1];
      if last.Stored? && last.key == key then Some(Versioned(last.value, |log|))
      else LastStored(log[..|log| - 1], key)
  }

  /** The number of that store, or 0. */
  function LastVersion<K(==), V>(log: Log<K, V>, key: K): int {
    match LastStored(log, key)
    case Some(e) => e.version
    case None => 0
  }

  /** How many erasures there are after the first `m` mutations. */
  function ErasuresFrom<K, V>(log: Log<K, V>, m: int): nat {
    if log == [] then 0
    else ErasuresFrom(log[..|log| - 1], m) + if log[|log| - 1].Erased? && m < |log| then 1 else 0
  }

  /** Within the window the history still shows the key: it is there, or its last erasure falls inside the window and is
      one of the newest hundred. */
  ghost predicate Shown<K, V>(log: Log<K, V>, key: K, minVersion: int) {
    || Current(log, key).Some?
    || exists e: nat ::
         ErasedForGood(log, key, e) && minVersion <= e + 1 && ErasuresFrom(log, e + 1) < MAX_RECENT_REMOVES
  }

  /** When a key is accepted, from the two histories alone. `logA` is that of the newer database. */
  ghost predicate AcceptedOf<K, V>(logA: Log<K, V>, logB: Log<K, V>, minVersion: int, key: K) {
    if !Shown(logA, key, minVersion) then
      ErasuresFrom(logA, minVersion) >= MAX_RECENT_REMOVES
    else if !Shown(logB, key, minVersion) then
      LastVersion(logA, key) >= minVersion
    else
      || LastStored(logA, key) == LastStored(logB, key)
      || (LastVersion(logA, key) >= minVersion && LastVersion(logA, key) > LastVersion(logB, key))
  }

  // ----- counting erasures -----

  lemma {:induction false} NoErasuresAfter<K, V>(log: Log<K, V>, m: int)
    requires m >= |log|
    ensures ErasuresFrom(log, m) == 0
  {
    if log != [] { NoErasuresAfter(log[..|log| - 1], m); }
  }

  lemma {:induction false} FewerErasures<K, V>(log: Log<K, V>, m: int, m': int)
    requires m <= m'
    ensures ErasuresFrom(log, m') <= ErasuresFrom(log, m)
    ensures forall e :: m <= e < m' && 0 <= e < |log| && log[e].Erased? ==> ErasuresFrom(log, m') < ErasuresFrom(log, m)
  {
    if log != [] {
      var init := log[..|log| - 1];
      assert forall e :: 0 <= e < |init| ==> init[e] == log[e];
      FewerErasures(init, m, m');
    }
  }

  /** A removal is listed behind exactly the erasures that came after it. */
  lemma {:induction false} RemovalIndex<K, V>(log: Log<K, V>, i: nat)
    requires ProperLog(log) && i < |Removals(log)|
    ensures ErasuresFrom(log, Removals(log)[i].removeVersion) == i
  {
    var init, last := log[..|log| - 1], log[|log| - 1];
    ProperPrefix(log, |log| - 1);
    if last.Erased? && i == 0 {
      NoErasuresAfter(log, |log|);
    } else {
      var j := if last.Erased? then i - 1 else i;
      RemovalIndex(init, j);
      RemovalsDescend(init);
    }
  }

  lemma {:induction false} AtMostRemovals<K, V>(log: Log<K, V>, m: int)
    requires ProperLog(log)
    ensures ErasuresFrom(log, m) <= |Removals(log)|
  {
    if log != [] {
      ProperPrefix(log, |log| - 1);
      AtMostRemovals(log[..|log| - 1], m);
    }
  }

  /** The list reaches back past the window exactly when fewer than a hundred erasures came after the window's first
      version. */
  lemma CompleteIsFew<K(!new), V>(db: Db<K, V>, log: Log<K, V>, minVersion: int)
    requires Represents(db, log)
    ensures RemovesComplete(db, minVersion) <==> ErasuresFrom(log, minVersion) < MAX_RECENT_REMOVES
  {
    AtMostRemovals(log, minVersion);
    if |Removals(log)| >= MAX_RECENT_REMOVES {
      var oldest := Removals(log)[MAX_RECENT_REMOVES - 1];
      assert db.removes[|db.removes| - 1] == oldest;
      RemovalIndex(log, MAX_RECENT_REMOVES - 1);
      assert oldest in Removals(log);
      RemovalsAreErasures(log, oldest);
      if oldest.removeVersion <= minVersion {
        FewerErasures(log, oldest.removeVersion, minVersion);
      } else {
        FewerErasures(log, minVersion, oldest.removeVersion);
      }
    }
  }

  // ----- what a database knows of a key -----

  lemma {:induction false} CurrentIsLastStored<K, V>(log: Log<K, V>, key: K)
    ensures Current(log, key).Some? ==> LastStored(log, key) == Current(log, key)
  {
    if log != [] { CurrentIsLastStored(log[..|log| - 1], key); }
  }

  /** What an erasure for good took away is the last that was stored. */
  lemma {:induction false} ErasedIsLastStored<K, V>(log: Log<K, V>, key: K, e: nat)
    requires ErasedForGood(log, key, e)
    ensures LastStored(log, key) == LastStored(log[..e], key)
  {
    var init := log[..|log| - 1];
    if e < |log| - 1 {
      assert ErasedForGood(init, key, e);
      ErasedIsLastStored(init, key, e);
      assert init[..e] == log[..e];
    }
  }

  lemma FirstOf<K, V>(log: Log<K, V>, key: K, j: nat) returns (i: nat)
    requires ProperLog(log) && j < |Removals(log)| && Removals(log)[j].key == key
    ensures FirstRemoval(log, key, i)
  {
    i := 0;
    while Removals(log)[i].key != key
      invariant i <= j && forall l :: 0 <= l < i ==> Removals(log)[l].key != key
      decreases j - i
    {
      i := i + 1;
    }
  }

  /** An absent key that has been erased: its newest removal, as the log has it. */
  lemma NewestRemoval<K(!new), V>(log: Log<K, V>, key: K, i: nat) returns (e: nat)
    requires ProperLog(log) && Current(log, key).None? && FirstRemoval(log, key, i)
    ensures e + 1 == Removals(log)[i].removeVersion && ErasedForGood(log, key, e) && ErasuresFrom(log, e + 1) == i
    ensures LastStored(log, key) == Some(Removals(log)[i].removed)
  {
    RemovalIs(log, key, i);
    UntouchedSince(log, key, i);
    RemovalIndex(log, i);
    e := Removals(log)[i].removeVersion - 1;
    ErasedIsLastStored(log, key, e);
    CurrentIsLastStored(log[..e], key);
  }

  /** A key that was erased for good has a removal. */
  lemma ErasedHasRemoval<K(!new), V>(log: Log<K, V>, key: K, e: nat) returns (i: nat)
    requires ProperLog(log) && ErasedForGood(log, key, e)
    ensures FirstRemoval(log, key, i)
  {
    var r := RecentRemove(key, Current(log[..e], key).value, e + 1);
    RemovalsAreErasures(log, r);
    var j :| 0 <= j < |Removals(log)| && Removals(log)[j] == r;
    i := FirstOf(log, key, j);
  }

  /** What a database knows of a key is the last that was stored there, while the history shows it, and nothing
      after. */
  lemma KnownIsLast<K(!new), V>(db: Db<K, V>, log: Log<K, V>, key: K, minVersion: int)
    requires Represents(db, log)
    ensures Known(db, key, minVersion) == if Shown(log, key, minVersion) then LastStored(log, key) else None
    ensures Shown(log, key, minVersion) ==> LastStored(log, key).Some?
  {
    CurrentIsLastStored(log, key);
    if key !in db.kv {
      if i: nat :| FirstRemoval(log, key, i) {
        var e := NewestRemoval(log, key, i);
        ListedRemoval(db, log, key, i, minVersion);
      } else {
        forall e: nat ensures !ErasedForGood(log, key, e) {
          if ErasedForGood(log, key, e) { var i := ErasedHasRemoval(log, key, e); }
        }
        NothingListed(db, log, key, minVersion);
      }
    }
  }

  lemma NothingListed<K(!new), V>(db: Db<K, V>, log: Log<K, V>, key: K, minVersion: int)
    requires Represents(db, log) && forall i: nat :: !FirstRemoval(log, key, i)
    ensures FindRecentRemove(db.removes, key, minVersion).None?
  {
    forall j | 0 <= j < |db.removes| ensures db.removes[j].key != key {
      if Removals(log)[j].key == key { var i := FirstOf(log, key, j); }
    }
    FindNone(db.removes, key, minVersion);
  }

  // ----- the results -----

  /** Exactly which keys are accepted, for any two databases that requests can produce. */
  lemma AnyKeyExact<K(!new), V>(a: Db<K, V>, b: Db<K, V>, logA: Log<K, V>, logB: Log<K, V>, minVersion: int, k: K)
    requires Represents(a, logA) && Represents(b, logB)
    ensures Agree(a, b, minVersion, k) <==> AcceptedOf(logA, logB, minVersion, k)
  {
    KnownIsLast(a, logA, k, minVersion);
    KnownIsLast(b, logB, k, minVersion);
    CompleteIsFew(a, logA, minVersion);
  }

  /** The same of the whole comparison. */
  lemma AnyExact<K(!new), V>(a: Db<K, V>, b: Db<K, V>, logA: Log<K, V>, logB: Log<K, V>, skew: nat)
    requires Represents(a, logA) && Represents(b, logB) && a.next >= b.next
    ensures Equivalent(a, b, skew) <==>
      forall k :: k in a.kv || k in b.kv ==> AcceptedOf(logA, logB, a.next - skew, k)
  {
    forall k | k in a.kv || k in b.kv
      ensures Agree(a, b, a.next - skew, k) <==> AcceptedOf(logA, logB, a.next - skew, k)
    {
      AnyKeyExact(a, b, logA, logB, a.next - skew, k);
    }
  }

  /** So an accepted key was stored last by the same mutation with the same value in both histories, or was last stored
      inside the window by the newer one, or has been lost from sight by the newer one. */
  lemma AcceptedForAReason<K(!new), V>(a: Db<K, V>, b: Db<K, V>, logA: Log<K, V>, logB: Log<K, V>, skew: nat, k: K)
    requires Represents(a, logA) && Represents(b, logB) && Agree(a, b, a.next - skew, k)
    ensures LastStored(logA, k) == LastStored(logB, k) || LastVersion(logA, k) >= a.next - skew
      || Exempt(a, k, a.next - skew)
  {
    AnyKeyExact(a, b, logA, logB, a.next - skew, k);
    KnownIsLast(a, logA, k, a.next - skew);
    CompleteIsFew(a, logA, a.next - skew);
  }

  /** Two databases that have nothing in common, one mutation apart, are accepted at skew 2: no history of the newer one
      ever was at the older one. */
  lemma DivergedIsAccepted<K(!new), V(!new)>(x: K, y: K, u: V, v: V, w: V, empty: V)
    returns (a: Db<K, V>, b: Db<K, V>, logA: Log<K, V>, logB: Log<K, V>)
    requires x != y
    ensures a == ProcessAll(EmptyDb(), RequestsOf(logA), empty) && b == ProcessAll(EmptyDb(), RequestsOf(logB), empty)
    ensures a.next == b.next + 1 && Equivalent(a, b, 2)
    ensures forall log: Log<K, V>, n: nat :: Represents(a, log) && n <= |log| ==> !Represents(b, log[..n])
  {
    logA, logB := [Stored(x, v), Stored(y, w)], [Stored(y, u)];
    a, b := Store(Store(EmptyDb(), x, v), y, w), Store(EmptyDb(), y, u);
    OneStored(x, v);
    OneStored(y, u);
    StoreRefines(Store(EmptyDb(), x, v), [Stored(x, v)], y, w);
    assert [Stored(x, v)] + [Stored(y, w)] == logA;
    RepresentedIsReached(a, logA, empty);
    RepresentedIsReached(b, logB, empty);
    StoredLaterAgree(a, b, x, y);
    forall log: Log<K, V>, n: nat | Represents(a, log) && n <= |log| ensures !Represents(b, log[..n]) {
      NeverThere(a, b, log, n, x, y);
    }
  }

  lemma OneStored<K(!new), V(!new)>(x: K, v: V)
    ensures Represents(Store(EmptyDb(), x, v), [Stored(x, v)])
  {
    StoreRefines(EmptyDb(), [], x, v);
    assert [] + [Stored(x, v)] == [Stored(x, v)];
  }

  /** At skew 2 a database that stored `x` first and `y` second agrees with one that stored only `y`. */
  lemma StoredLaterAgree<K(!new), V>(a: Db<K, V>, b: Db<K, V>, x: K, y: K)
    requires a.next == 3 && b.next == 2 && a.kv.Keys == {x, y} && b.kv.Keys == {y}
    requires a.kv[x].version == 1 && a.kv[y].version == 2 && b.kv[y].version == 1 && b.removes == []
    ensures Equivalent(a, b, 2)
  {
  }

  /** A history of a database with `x` first and `y` second has never held `y` first. */
  lemma NeverThere<K(!new), V>(a: Db<K, V>, b: Db<K, V>, log: Log<K, V>, n: nat, x: K, y: K)
    requires Represents(a, log) && n <= |log| && x != y
    requires x in a.kv && a.kv[x].version == 1 && y in b.kv && b.kv[y].version == 1
    ensures !Represents(b, log[..n])
  {
    CurrentIsLast(log, x);
    CurrentIsLast(log[..n], y);
  }
}
