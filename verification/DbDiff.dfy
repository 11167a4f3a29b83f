/** When `diff` accepts a key, and what acceptance means for databases that come from logs. */
module DbDiff {
  import opened Base
  import opened DbSpec

  /** `find_recent_remove`: the newest removal of `key` within the window. */
  function FindRecentRemove<K(==), V>(removes: seq<RecentRemove<K, V>>, key: K, minVersion: int): Option<Versioned<V>> {
    if removes == [] then None
    else if removes[0].key == key && removes[0].removeVersion >= minVersion then Some(removes[0].removed)
    else FindRecentRemove(removes[1..], key, minVersion)
  }

  /** The removal list reaches back past the window. */
  predicate RemovesComplete<K(==), V>(db: Db<K, V>, minVersion: int) {
    |db.removes| < MAX_RECENT_REMOVES || db.removes[|db.removes| - 1].removeVersion <= minVersion
  }

  function Known<K(==), V>(db: Db<K, V>, key: K, minVersion: int): Option<Versioned<V>> {
    if key in db.kv then Some(db.kv[key]) else FindRecentRemove(db.removes, key, minVersion)
  }

  /** What `diff` tests of one key, `a` being the newer database. */
  predicate Agree<K(==), V(==)>(a: Db<K, V>, b: Db<K, V>, minVersion: int, key: K) {
    match (Known(a, key, minVersion), Known(b, key, minVersion))
    case (Some(av), None) => av.version >= minVersion
    case (None, _) => !RemovesComplete(a, minVersion)
    case (Some(av), Some(bv)) =>
      if av.version == bv.version then av.value == bv.value
      else bv.version < av.version && minVersion <= av.version
  }

  ghost predicate Equivalent<K(!new), V>(a: Db<K, V>, b: Db<K, V>, skew: nat)
    requires a.next >= b.next
  {
    forall k :: k in a.kv || k in b.kv ==> Agree(a, b, a.next - skew, k)
  }

  // ----- log facts -----

  /** Along a longer log a key keeps its entry, or has a newer one, or was removed after the shorter log. */
  lemma {:induction false} CurrentLater<K(!new), V>(log: Log<K, V>, n: nat, key: K)
    requires ProperLog(log) && n <= |log|
    ensures match Current(log, key)
      case Some(e) => Some(e) == Current(log[..n], key) || n < e.version <= |log|
      case None => Current(log[..n], key).None? || RemovedLater(log, n, key)
  {
    if n == |log| {
      assert log[..n] == log;
      CurrentBounds(log, key);
    } else {
      var init := log[..|log| - 1];
      ProperPrefix(log, |log| - 1);
      assert init[..n] == log[..n];
      CurrentLater(init, n, key);
      var last := log[|log| - 1];
      if last == Erased(key) {
        assert Removals(log)[0].key == key;
        assert FirstRemoval(log, key, 0);
      } else if last.key != key && Current(init, key).None? && Current(log[..n], key).Some? {
        var i: nat :| FirstRemoval(init, key, i) && LaterRemoval(init, n, key, Removals(init)[i]);
        var j := if last.Stored? then i else i + 1;
        assert Removals(log)[j] == Removals(init)[i];
        assert FirstRemoval(log, key, j);
      }
    }
  }

  predicate FirstRemoval<K(==), V>(log: Log<K, V>, key: K, i: nat)
    requires ProperLog(log)
  {
    i < |Removals(log)| && Removals(log)[i].key == key && forall j :: 0 <= j < i ==> Removals(log)[j].key != key
  }

  predicate LaterRemoval<K(==), V(==)>(log: Log<K, V>, n: nat, key: K, r: RecentRemove<K, V>)
    requires n <= |log|
  {
    n < r.removeVersion && (Some(r.removed) == Current(log[..n], key) || n < r.removed.version)
  }

  /** The newest removal of `key` came after the first `n` mutations, and removed their entry or a newer one. */
  ghost predicate RemovedLater<K, V>(log: Log<K, V>, n: nat, key: K)
    requires ProperLog(log) && n <= |log|
  {
    exists i: nat :: FirstRemoval(log, key, i) && LaterRemoval(log, n, key, Removals(log)[i])
  }

  // ----- find_recent_remove facts -----

  lemma {:induction false} FindNone<K, V>(removes: seq<RecentRemove<K, V>>, key: K, minVersion: int)
    ensures FindRecentRemove(removes, key, minVersion).None? <==>
            forall r :: r in removes && r.key == key ==> r.removeVersion < minVersion
  {
    if removes != [] {
      FindNone(removes[1..], key, minVersion);
      assert removes == [removes[0]] + removes[1..];
    }
  }

  lemma {:induction false} FindSome<K, V>(removes: seq<RecentRemove<K, V>>, key: K, minVersion: int)
    requires FindRecentRemove(removes, key, minVersion).Some?
    ensures exists i :: 0 <= i < |removes| && removes[i].key == key && removes[i].removeVersion >= minVersion
                        && removes[i].removed == FindRecentRemove(removes, key, minVersion).value
  {
    if !(removes[0].key == key && removes[0].removeVersion >= minVersion) {
      FindSome(removes[1..], key, minVersion);
      var i :| 0 <= i < |removes[1..]| && removes[1..][i].key == key && removes[1..][i].removeVersion >= minVersion
        && removes[1..][i].removed == FindRecentRemove(removes, key, minVersion).value;
      assert removes[i + 1] == removes[1..][i];
    }
  }

  lemma {:induction false} FindFirst<K, V>(removes: seq<RecentRemove<K, V>>, key: K, minVersion: int, i: nat)
    requires i < |removes| && removes[i].key == key && removes[i].removeVersion >= minVersion
    requires forall j :: 0 <= j < i ==> removes[j].key != key
    ensures FindRecentRemove(removes, key, minVersion) == Some(removes[i].removed)
  {
    if i > 0 { FindFirst(removes[1..], key, minVersion, i - 1); }
  }

  /** A removal within the wider window but not the narrower one only shows up when the narrower finds none. */
  lemma {:induction false} FindWider<K, V>(removes: seq<RecentRemove<K, V>>, key: K, minVersion: int, lower: int)
    requires lower <= minVersion
    requires forall i, j :: 0 <= i < j < |removes| ==> removes[j].removeVersion < removes[i].removeVersion
    ensures FindRecentRemove(removes, key, minVersion).Some? ==>
            FindRecentRemove(removes, key, lower) == FindRecentRemove(removes, key, minVersion)
  {
    if removes != [] {
      if removes[0].key == key && lower <= removes[0].removeVersion < minVersion {
        FindNone(removes[1..], key, minVersion);
      } else {
        FindWider(removes[1..], key, minVersion, lower);
      }
    }
  }

  /** What `Represents` says about the bounded removal list. */
  lemma RemovesFacts<K(!new), V>(db: Db<K, V>, log: Log<K, V>)
    requires Represents(db, log)
    ensures RemovesOk(db)
  {
    RemovalsDescend(log);
  }

  /** What the bounded list tells of the newest removal of a key: its entry, or nothing. */
  lemma ListedRemoval<K(!new), V>(a: Db<K, V>, log: Log<K, V>, key: K, i: nat, minVersion: int)
    requires Represents(a, log) && FirstRemoval(log, key, i)
    ensures var r := Removals(log)[i]; var found := FindRecentRemove(a.removes, key, minVersion);
      && (found.Some? <==> i < |a.removes| && r.removeVersion >= minVersion)
      && (found.Some? ==> found == Some(r.removed))
      && (found.None? && r.removeVersion >= minVersion ==> !RemovesComplete(a, minVersion))
  {
    RemovalsDescend(log);
    var r := Removals(log)[i];
    if i < |a.removes| && r.removeVersion >= minVersion {
      FindFirst(a.removes, key, minVersion, i);
    } else {
      forall x | x in a.removes && x.key == key ensures x.removeVersion < minVersion {
        var j :| 0 <= j < |a.removes| && a.removes[j] == x;
        assert Removals(log)[j] == x;
      }
      FindNone(a.removes, key, minVersion);
      if i >= |a.removes| {
        assert a.removes[MAX_RECENT_REMOVES - 1] == Removals(log)[MAX_RECENT_REMOVES - 1];
      }
    }
  }

  // ----- the main results -----

  /** No false alarm: a database that lags by at most `skew` mutations agrees at every key. */
  lemma NoFalseAlarm<K(!new), V>(a: Db<K, V>, b: Db<K, V>, log: Log<K, V>, lag: nat, skew: nat)
    requires lag <= |log| && lag <= skew
    requires Represents(a, log) && Represents(b, log[..|log| - lag])
    ensures Equivalent(a, b, skew)
  {
    forall k | k in a.kv || k in b.kv ensures Agree(a, b, a.next - skew, k) {
      LaggingKeyAgrees(a, b, log, lag, a.next - skew, k);
    }
  }

  lemma LaggingKeyAgrees<K(!new), V>(a: Db<K, V>, b: Db<K, V>, log: Log<K, V>, lag: nat, minVersion: int, k: K)
    requires lag <= |log| && minVersion <= |log| - lag + 1
    requires Represents(a, log) && Represents(b, log[..|log| - lag])
    requires k in a.kv || k in b.kv
    ensures Agree(a, b, minVersion, k)
  {
    var n := |log| - lag;
    if k in a.kv {
      LaggingHeld(a, b, log, n, minVersion, k);
    } else {
      LaggingErased(a, b, log, n, minVersion, k);
    }
  }

  lemma LaggingHeld<K(!new), V>(a: Db<K, V>, b: Db<K, V>, log: Log<K, V>, n: nat, minVersion: int, k: K)
    requires n <= |log| && minVersion <= n + 1 && Represents(a, log) && Represents(b, log[..n]) && k in a.kv
    ensures Agree(a, b, minVersion, k)
  {
    CurrentLater(log, n, k);
    CurrentBounds(log[..n], k);
    RemovesFacts(b, log[..n]);
    if k !in b.kv && FindRecentRemove(b.removes, k, minVersion).Some? {
      FindSome(b.removes, k, minVersion);
      var i :| 0 <= i < |b.removes| && b.removes[i].removed == FindRecentRemove(b.removes, k, minVersion).value;
      assert b.removes[i] in b.removes;
    }
  }

  lemma LaggingErased<K(!new), V>(a: Db<K, V>, b: Db<K, V>, log: Log<K, V>, n: nat, minVersion: int, k: K)
    requires n <= |log| && minVersion <= n + 1 && Represents(a, log) && Represents(b, log[..n])
    requires k !in a.kv && k in b.kv
    ensures Agree(a, b, minVersion, k)
  {
    CurrentLater(log, n, k);
    CurrentBounds(log[..n], k);
    var i: nat :| FirstRemoval(log, k, i) && LaterRemoval(log, n, k, Removals(log)[i]);
    ListedRemoval(a, log, k, i, minVersion);
  }

  /** A wider window never turns agreement into a difference, for any two databases that have logs. */
  lemma MonotoneInSkew<K(!new), V>(a: Db<K, V>, b: Db<K, V>, logA: Log<K, V>, logB: Log<K, V>, skew: nat, wider: nat)
    requires Represents(a, logA) && Represents(b, logB) && a.next >= b.next
    requires skew <= wider && Equivalent(a, b, skew)
    ensures Equivalent(a, b, wider)
  {
    RemovesFacts(a, logA);
    RemovesFacts(b, logB);
    var min, lower := a.next - skew, a.next - wider;
    forall k | k in a.kv || k in b.kv ensures Agree(a, b, lower, k) {
      assert Agree(a, b, min, k);
      KeyMonotone(a, b, min, lower, k);
    }
  }

  /** A database as `RemovesFacts` describes it. */
  ghost predicate RemovesOk<K(!new), V>(db: Db<K, V>) {
    && |db.removes| <= MAX_RECENT_REMOVES
    && (forall r :: r in db.removes ==> 1 <= r.removed.version < r.removeVersion < db.next)
    && forall i, j :: 0 <= i < j < |db.removes| ==> db.removes[j].removeVersion < db.removes[i].removeVersion
  }

  lemma KeyMonotone<K(!new), V>(a: Db<K, V>, b: Db<K, V>, min: int, lower: int, k: K)
    requires RemovesOk(a) && RemovesOk(b) && lower <= min && (k in a.kv || k in b.kv)
    requires Agree(a, b, min, k)
    ensures Agree(a, b, lower, k)
  {
    FindWider(a.removes, k, min, lower);
    FindWider(b.removes, k, min, lower);
    if k in a.kv {
      if k !in b.kv { WiderFind(b.removes, k, min, lower); }
    } else if FindRecentRemove(a.removes, k, min).None? {
      WiderFind(a.removes, k, min, lower);
      StillIncomplete(a, k, min, lower);
    }
  }

  /** What only the wider window finds was removed before the narrower one begins, and so is older still. */
  lemma WiderFind<K(!new), V>(removes: seq<RecentRemove<K, V>>, k: K, min: int, lower: int)
    requires lower <= min && forall r :: r in removes ==> r.removed.version < r.removeVersion
    ensures FindRecentRemove(removes, k, min).None? && FindRecentRemove(removes, k, lower).Some? ==>
            FindRecentRemove(removes, k, lower).value.version < min - 1
  {
    FindNone(removes, k, min);
    if FindRecentRemove(removes, k, lower).Some? {
      FindSome(removes, k, lower);
      var i :| 0 <= i < |removes| && removes[i].key == k
        && removes[i].removed == FindRecentRemove(removes, k, lower).value;
      assert removes[i] in removes;
    }
  }

  /** A list that does not reach past the narrower window does not reach past the wider one, and holds nothing below. */
  lemma StillIncomplete<K(!new), V>(a: Db<K, V>, k: K, min: int, lower: int)
    requires RemovesOk(a) && lower <= min && FindRecentRemove(a.removes, k, min).None? && !RemovesComplete(a, min)
    ensures !RemovesComplete(a, lower) && FindRecentRemove(a.removes, k, lower).None?
  {
    forall r | r in a.removes ensures min < r.removeVersion {
      var i :| 0 <= i < |a.removes| && a.removes[i] == r;
      assert i < |a.removes| - 1 ==> a.removes[|a.removes| - 1].removeVersion < r.removeVersion;
    }
    FindNone(a.removes, k, min);
    FindNone(a.removes, k, lower);
  }

  /** No mutation of `key` from version `minVersion` on. */
  ghost predicate Settled<K, V>(log: Log<K, V>, key: K, minVersion: int) {
    forall i :: 0 <= i < |log| && minVersion <= i + 1 ==> log[i].key != key
  }

  /** What a database knows about a settled key is its entry. */
  lemma SettledIsKnown<K(!new), V>(db: Db<K, V>, log: Log<K, V>, key: K, minVersion: int)
    requires Represents(db, log) && Settled(log, key, minVersion)
    ensures Known(db, key, minVersion) == Current(log, key)
    ensures Current(log, key).Some? ==> Current(log, key).value.version < minVersion
  {
    CurrentIsLast(log, key);
    if key !in db.kv {
      forall r | r in db.removes && r.key == key ensures r.removeVersion < minVersion {
        assert r in Removals(log);
        RemovalsAreErasures(log, r);
      }
      FindNone(db.removes, key, minVersion);
    }
  }

  /** A real difference is found: where neither log has touched a key within the skew, the two entries must be equal.
      The one exception is a removal by the newer database when its list no longer reaches back past the window. */
  lemma SettledKeysMustBeEqual<K(!new), V>(
    a: Db<K, V>, b: Db<K, V>, logA: Log<K, V>, logB: Log<K, V>, minVersion: int, k: K)
    requires Represents(a, logA) && Represents(b, logB)
    requires Settled(logA, k, minVersion) && Settled(logB, k, minVersion)
    requires k in a.kv || k in b.kv
    ensures Agree(a, b, minVersion, k) <==>
      Current(logA, k) == Current(logB, k) || (k !in a.kv && !RemovesComplete(a, minVersion))
  {
    SettledIsKnown(a, logA, k, minVersion);
    SettledIsKnown(b, logB, k, minVersion);
  }

  // ----- exactly what is accepted -----

  /** `key` was stored after the first `m` mutations. */
  ghost predicate StoredSince<K, V>(log: Log<K, V>, key: K, m: nat) {
    exists i :: m <= i < |log| && log[i].Stored? && log[i].key == key
  }

  /** The exemption: the newer database lacks the key, and its list neither names it nor reaches past the window. */
  predicate Exempt<K(==), V>(a: Db<K, V>, key: K, minVersion: int) {
    key !in a.kv && !RemovesComplete(a, minVersion) && FindRecentRemove(a.removes, key, minVersion).None?
  }

  /** When a key is accepted of a database that has `log` and one that has only its first `n` mutations. */
  ghost predicate Accepted<K, V>(a: Db<K, V>, log: Log<K, V>, n: nat, skew: nat, key: K)
    requires n <= |log|
  {
    || |log| - n <= skew
    || Current(log[..|log| - skew], key) == Current(log[..n], key)
    || StoredSince(log, key, |log| - skew)
    || Exempt(a, key, a.next - skew)
  }

  /** All that a database knows about a window it has not reached is what it holds. */
  lemma OlderKnows<K(!new), V>(db: Db<K, V>, log: Log<K, V>, key: K, minVersion: int)
    requires Represents(db, log) && |log| < minVersion
    ensures Known(db, key, minVersion) == Current(log, key)
  {
    RemovesFacts(db, log);
    FindNone(db.removes, key, minVersion);
  }

  /** An entry that the first `m` mutations left is still the one they left. */
  lemma KeptEntry<K(!new), V>(log: Log<K, V>, m: nat, key: K)
    requires ProperLog(log) && m <= |log| && Current(log, key).Some?
    ensures Current(log, key).value.version <= m ==>
      Current(log[..m], key) == Current(log, key) && !StoredSince(log, key, m)
    ensures Current(log, key).value.version > m ==> StoredSince(log, key, m)
  {
    CurrentLater(log, m, key);
    CurrentIsLast(log, key);
  }

  /** Entries with one version are one entry. */
  lemma SameVersionSameEntry<K(!new), V>(log: Log<K, V>, n: nat, key: K)
    requires n <= |log| && Current(log, key).Some? && Current(log[..n], key).Some?
    requires Current(log, key).value.version == Current(log[..n], key).value.version
    ensures Current(log, key) == Current(log[..n], key)
  {
    CurrentIsLast(log, key);
    CurrentIsLast(log[..n], key);
  }

  /** No erasure of a key is later than its newest removal. */
  lemma NewestIsLatest<K(!new), V>(log: Log<K, V>, key: K, i: nat, e: nat)
    requires ProperLog(log) && FirstRemoval(log, key, i) && e < |log| && log[e] == Erased(key)
    ensures e < Removals(log)[i].removeVersion
  {
    var r := RecentRemove(key, Current(log[..e], key).value, e + 1);
    RemovalsAreErasures(log, r);
    var j :| 0 <= j < |Removals(log)| && Removals(log)[j] == r;
    RemovalsDescend(log);
  }

  /** After the newest removal of an absent key nothing touched it. */
  lemma UntouchedSince<K(!new), V>(log: Log<K, V>, key: K, i: nat)
    requires ProperLog(log) && Current(log, key).None? && FirstRemoval(log, key, i)
    ensures forall j: nat :: Removals(log)[i].removeVersion <= j < |log| ==> log[j].key != key
  {
    CurrentIsLast(log, key);
    forall e: nat | e < |log| && log[e] == Erased(key) ensures e < Removals(log)[i].removeVersion {
      NewestIsLatest(log, key, i, e);
    }
  }

  /** The newest removal of a key, as the log has it. */
  lemma RemovalIs<K(!new), V>(log: Log<K, V>, key: K, i: nat)
    requires ProperLog(log) && FirstRemoval(log, key, i)
    ensures var r := Removals(log)[i];
      && 1 <= r.removeVersion <= |log| && log[r.removeVersion - 1] == Erased(key)
      && Current(log[..r.removeVersion - 1], key) == Some(r.removed)
  {
    assert Removals(log)[i] in Removals(log);
    RemovalsAreErasures(log, Removals(log)[i]);
  }

  /** The erasure at position `e` is the last that happened to `key`. */
  ghost predicate ErasedForGood<K, V>(log: Log<K, V>, key: K, e: nat) {
    e < |log| && log[e] == Erased(key) && forall j :: e < j < |log| ==> log[j].key != key
  }

  /** A key erased for good before the window begins. */
  lemma ErasedBefore<K(!new), V>(log: Log<K, V>, m: nat, key: K, e: nat)
    requires ErasedForGood(log, key, e) && e < m <= |log|
    ensures Current(log[..m], key).None? && !StoredSince(log, key, m)
  {
    CurrentIsLast(log[..m], key);
    assert log[..m][e] == log[e];
    assert forall j :: 0 <= j < m ==> log[..m][j] == log[j];
  }

  /** A key erased for good inside the window, at position `e`: what that took away says what the key was when the
      window began. */
  lemma ErasedSince<K(!new), V>(log: Log<K, V>, m: nat, key: K, e: nat, was: Versioned<V>)
    requires ProperLog(log) && ErasedForGood(log, key, e) && m <= e && Current(log[..e], key) == Some(was)
    ensures if was.version <= m then Current(log[..m], key) == Some(was) && !StoredSince(log, key, m)
            else StoredSince(log, key, m)
  {
    ProperPrefix(log, e);
    KeptEntry(log[..e], m, key);
    assert log[..e][..m] == log[..m];
    StoresBefore(log, m, key, e);
  }

  /** Only stores before position `e` matter when nothing stores the key from there on. */
  lemma StoresBefore<K(!new), V>(log: Log<K, V>, m: nat, key: K, e: nat)
    requires e <= |log| && forall j :: e <= j < |log| && log[j].Stored? ==> log[j].key != key
    ensures StoredSince(log[..e], key, m) <==> StoredSince(log, key, m)
  {
    forall j | 0 <= j < e ensures log[..e][j] == log[j] {}
    if StoredSince(log, key, m) {
      var j :| m <= j < |log| && log[j].Stored? && log[j].key == key;
      assert log[..e][j] == log[j];
    }
  }

  /** The key is still there. */
  lemma HeldKeyExact<K(!new), V>(a: Db<K, V>, b: Db<K, V>, log: Log<K, V>, n: nat, m: nat, k: K)
    requires n <= m <= |log| && Represents(a, log) && Represents(b, log[..n]) && k in a.kv
    ensures Agree(a, b, m + 1, k) <==> Current(log[..m], k) == Current(log[..n], k) || StoredSince(log, k, m)
  {
    OlderKnows(b, log[..n], k, m + 1);
    CurrentBounds(log[..n], k);
    KeptEntry(log, m, k);
    if k in b.kv && a.kv[k].version == b.kv[k].version { SameVersionSameEntry(log, n, k); }
  }

  /** The key has been erased since the older database had it. */
  lemma ErasedKeyExact<K(!new), V>(a: Db<K, V>, b: Db<K, V>, log: Log<K, V>, n: nat, m: nat, k: K)
    requires n <= m <= |log| && Represents(a, log) && Represents(b, log[..n]) && k !in a.kv && k in b.kv
    ensures Agree(a, b, m + 1, k) <==>
      Current(log[..m], k) == Current(log[..n], k) || StoredSince(log, k, m) || Exempt(a, k, m + 1)
  {
    OlderKnows(b, log[..n], k, m + 1);
    CurrentBounds(log[..n], k);
    CurrentLater(log, n, k);
    var i: nat :| FirstRemoval(log, k, i) && LaterRemoval(log, n, k, Removals(log)[i]);
    ListedRemoval(a, log, k, i, m + 1);
    RemovalIs(log, k, i);
    UntouchedSince(log, k, i);
    ErasedAtExact(a, b, log, n, m, k, Removals(log)[i].removeVersion - 1, Removals(log)[i].removed);
  }

  lemma ErasedAtExact<K(!new), V>(
    a: Db<K, V>, b: Db<K, V>, log: Log<K, V>, n: nat, m: nat, k: K, e: nat, was: Versioned<V>)
    requires n <= m <= |log| && n <= e && ProperLog(log) && k !in a.kv && k in b.kv && b.kv[k].version <= n
    requires Current(log[..n], k) == Some(b.kv[k])
    requires ErasedForGood(log, k, e) && Current(log[..e], k) == Some(was)
    requires var found := FindRecentRemove(a.removes, k, m + 1);
      && (found.Some? ==> found == Some(was) && e >= m)
      && (found.None? && e >= m ==> !RemovesComplete(a, m + 1))
    ensures Agree(a, b, m + 1, k) <==>
      Current(log[..m], k) == Current(log[..n], k) || StoredSince(log, k, m) || Exempt(a, k, m + 1)
  {
    if e < m {
      ErasedBefore(log, m, k, e);
    } else {
      ErasedSince(log, m, k, e, was);
      RemovedSameVersion(log, n, k, e, was, b.kv[k]);
    }
  }

  lemma RemovedSameVersion<K(!new), V>(log: Log<K, V>, n: nat, k: K, e: nat, was: Versioned<V>, older: Versioned<V>)
    requires n <= e <= |log| && Current(log[..e], k) == Some(was) && Current(log[..n], k) == Some(older)
    ensures was.version == older.version ==> was == older
  {
    assert log[..e][..n] == log[..n];
    if was.version == older.version { SameVersionSameEntry(log[..e], n, k); }
  }

  /** Exactly which keys are accepted, for every lag and every skew. A lag within the skew is always accepted. Beyond
      it a key is accepted when the older database has what the key was where the window begins, when the key was stored
      inside the window, or when the exemption for evicted removals applies; and never otherwise. */
  lemma LaggingKeyExact<K(!new), V>(a: Db<K, V>, b: Db<K, V>, log: Log<K, V>, n: nat, skew: nat, k: K)
    requires n <= |log| && Represents(a, log) && Represents(b, log[..n])
    requires k in a.kv || k in b.kv
    ensures Agree(a, b, a.next - skew, k) <==> Accepted(a, log, n, skew, k)
  {
    if |log| - n <= skew {
      assert n == |log| - (|log| - n);
      LaggingKeyAgrees(a, b, log, |log| - n, a.next - skew, k);
    } else if k in a.kv {
      HeldKeyExact(a, b, log, n, |log| - skew, k);
    } else {
      ErasedKeyExact(a, b, log, n, |log| - skew, k);
    }
  }

  /** The same of the whole comparison: when two databases, one lagging the other, are accepted. */
  lemma LaggingExact<K(!new), V>(a: Db<K, V>, b: Db<K, V>, log: Log<K, V>, n: nat, skew: nat)
    requires n <= |log| && Represents(a, log) && Represents(b, log[..n])
    ensures Equivalent(a, b, skew) <==> forall k :: k in a.kv || k in b.kv ==> Accepted(a, log, n, skew, k)
  {
    forall k | k in a.kv || k in b.kv ensures Agree(a, b, a.next - skew, k) <==> Accepted(a, log, n, skew, k) {
      LaggingKeyExact(a, b, log, n, skew, k);
    }
  }

  // ----- two inputs beyond the skew that are accepted -----

  /** A key that was stored twice in a row hides that the older database has neither. Nothing was ever removed. */
  lemma StoringHidesLag<K(!new), V>(x: K, v: V, w: V, empty: V)
    returns (a: Db<K, V>, b: Db<K, V>, log: Log<K, V>, n: nat, skew: nat)
    ensures n <= |log| && |log| - n > skew && a.next >= b.next
    ensures a == ProcessAll(EmptyDb(), RequestsOf(log), empty)
    ensures b == ProcessAll(EmptyDb(), RequestsOf(log[..n]), empty)
    ensures RemovesComplete(a, a.next - skew) && a.kv != b.kv && Equivalent(a, b, skew)
  {
    log, n, skew := [Stored(x, v), Stored(x, w)], 0, 1;
    a, b := Store(Store(EmptyDb(), x, v), x, w), EmptyDb();
    StoreRefines(EmptyDb(), [], x, v);
    StoreRefines(Store(EmptyDb(), x, v), [Stored(x, v)], x, w);
    assert [] + [Stored(x, v)] == [Stored(x, v)] && [Stored(x, v)] + [Stored(x, w)] == log;
    assert log[..n] == [];
    RepresentedIsReached(a, log, empty);
    RepresentedIsReached(b, log[..n], empty);
    assert log[1].key == x;
    LaggingExact(a, b, log, n, skew);
  }

  /** Store and erase `k`, and then `x` for `n` times. */
  function Churn<K, V>(k: K, x: K, v: V, n: nat): Log<K, V> {
    if n == 0 then [Stored(k, v), Erased(k)] else Churn(k, x, v, n - 1) + [Stored(x, v), Erased(x)]
  }

  lemma StoreAndErase<K(!new), V>(log: Log<K, V>, k: K, v: V)
    requires ProperLog(log)
    ensures ProperLog(log + [Stored(k, v), Erased(k)])
    ensures forall key :: Current(log + [Stored(k, v), Erased(k)], key) == if key == k then None else Current(log, key)
    ensures Removals(log + [Stored(k, v), Erased(k)])
         == [RecentRemove(k, Versioned(v, |log| + 1), |log| + 2)] + Removals(log)
  {
    var longer := log + [Stored(k, v)];
    assert log + [Stored(k, v), Erased(k)] == longer + [Erased(k)];
    ExtendProper(log, Stored(k, v));
    ExtendCurrent(log, Stored(k, v));
    ExtendProper(longer, Erased(k));
    ExtendCurrent(longer, Erased(k));
  }

  lemma {:induction false} ChurnFacts<K(!new), V>(k: K, x: K, v: V, n: nat)
    ensures var log := Churn(k, x, v, n);
      && |log| == 2 * n + 2 && ProperLog(log) && (forall key :: Current(log, key).None?)
      && |Removals(log)| == n + 1
      && (forall i :: 0 <= i <= n ==> Removals(log)[i].removeVersion == 2 * (n + 1 - i))
      && (k != x ==> Settled(log, k, 3))
  {
    if n == 0 {
      StoreAndErase([], k, v);
      assert [] + [Stored(k, v), Erased(k)] == Churn(k, x, v, 0);
    } else {
      ChurnFacts(k, x, v, n - 1);
      StoreAndErase(Churn(k, x, v, n - 1), x, v);
    }
  }

  lemma {:induction false} ChurnBegins<K, V>(k: K, x: K, v: V, n: nat)
    ensures |Churn(k, x, v, n)| >= 1 && Churn(k, x, v, n)[..1] == [Stored(k, v)]
  {
    if n > 0 { ChurnBegins(k, x, v, n - 1); }
  }

  /** A removal that has been evicted hides that the older database never made it. */
  lemma EvictionHidesLag<K(!new), V>(k: K, x: K, v: V, empty: V)
    returns (a: Db<K, V>, b: Db<K, V>, log: Log<K, V>, n: nat, skew: nat)
    requires k != x
    ensures n <= |log| && |log| - n > skew && a.next >= b.next
    ensures a == ProcessAll(EmptyDb(), RequestsOf(log), empty)
    ensures b == ProcessAll(EmptyDb(), RequestsOf(log[..n]), empty)
    ensures k in b.kv && k !in a.kv && !StoredSince(log, k, |log| - skew) && Equivalent(a, b, skew)
  {
    log, n, skew := Churn(k, x, v, 100), 1, 200;
    ChurnFacts(k, x, v, 100);
    ChurnBegins(k, x, v, 100);
    a := Db(203, map[], Newest(Removals(log)));
    b := Store(EmptyDb(), k, v);
    StoreRefines(EmptyDb(), [], k, v);
    assert [] + [Stored(k, v)] == log[..n];
    assert a.removes[99] == Removals(log)[99];
    RepresentedIsReached(a, log, empty);
    RepresentedIsReached(b, log[..n], empty);
    SettledKeysMustBeEqual(a, b, log, log[..n], 3, k);
  }

  /** With no skew, agreement is equality of the maps. */
  lemma ZeroSkewIsEquality<K(!new), V>(a: Db<K, V>, b: Db<K, V>, logA: Log<K, V>, logB: Log<K, V>)
    requires Represents(a, logA) && Represents(b, logB) && a.next >= b.next
    ensures Equivalent(a, b, 0) <==> a.kv == b.kv
    ensures RemovesComplete(a, a.next)
  {
    RemovesFacts(a, logA);
    RemovesFacts(b, logB);
    if Equivalent(a, b, 0) {
      forall k | k in a.kv || k in b.kv ensures k in a.kv && k in b.kv && a.kv[k] == b.kv[k] {
        assert Agree(a, b, a.next, k);
        FindNone(a.removes, k, a.next);
        FindNone(b.removes, k, a.next);
        if k in a.kv { CurrentBounds(logA, k); }
      }
    }
  }
}
