/** The keys of the lock-sequence protocol: their typed form, their text, and the order of the text. */
module LockKeys {
  import opened Base
  import Lex
  import opened Decimal

  /** A key of some group: its lock, or one of its numbered values. */
  datatype Key<G> = Lock(group: G) | Slot(group: G, index: nat)

  // ----- text of keys -----

  function MakeClientKey(cid: nat): string { "c" + Dec(cid) }

  function MakeGroupKey(gid: nat): string { "g" + Dec(gid) }

  function MakeLockKey(gid: nat): string { MakeGroupKey(gid) + "/lock" }

  function MakeValueKey(gid: nat, vid: nat): string { MakeGroupKey(gid) + "/v" + Pad3(vid) }

  /** The group part of a key, up to and with its slash. */
  function GroupName(gid: nat): string { MakeGroupKey(gid) + "/" }

  predicate IsGroup(g: string) {
    |g| >= 3 && g[0] == 'g' && g[|g| - 1] == '/' && '/' !in g[..|g| - 1]
    && ParseDigits(g[1..|g| - 1]) != NOT_A_NUMBER
  }

  function Unparse(k: Key<string>): string {
    match k
    case Lock(g) => g + "lock"
    case Slot(g, i) => g + "v" + Pad3(i)
  }

  predicate Proper(k: Key<string>) {
    IsGroup(k.group) && (k.Slot? ==> k.index < 1000)
  }

  // ----- reading keys -----

  function GroupOf(key: string): Option<string> {
    if |key| < 3 || key[0] != 'g' then None
    else
      var slash := FindChar(key, '/');
      if slash == |key| || slash == 0 || ParseDigits(key[1..slash]) == NOT_A_NUMBER then None
      else Some(key[..slash + 1])
  }

  function SlotOf(group: string, rest: string): Option<Key<string>> {
    if rest == "lock" then Some(Lock(group))
    else if |rest| == 4 && rest[0] == 'v' && ParseDigits(rest[1..]) != NOT_A_NUMBER
    then Some(Slot(group, ParseDigits(rest[1..])))
    else None
  }

  function ParseKey(key: string): Option<Key<string>> {
    match GroupOf(key)
    case None => None
    case Some(g) => if |g| <= |key| then SlotOf(g, key[|g|..]) else None
  }

  lemma SameSlice(g: string, key: string, from: nat, to: nat)
    requires g <= key && from <= to <= |g|
    ensures g[from..to] == key[from..to]
  {
  }

  lemma GroupOfPrefix(key: string)
    ensures forall g :: GroupOf(key) == Some(g) <==> IsGroup(g) && g <= key
  {
    forall g ensures GroupOf(key) == Some(g) <==> IsGroup(g) && g <= key {
      if IsGroup(g) && g <= key { GroupIsPrefix(g, key); }
      if GroupOf(key) == Some(g) {
        var slash := FindChar(key, '/');
        assert g == key[..slash + 1] && |g| == slash + 1;
        SameSlice(g, key, 1, slash);
        SameSlice(g, key, 0, slash);
      }
    }
  }

  lemma GroupIsPrefix(g: string, key: string)
    requires IsGroup(g) && g <= key
    ensures GroupOf(key) == Some(g)
  {
    var slash := FindChar(key, '/');
    var n := |g| - 1;
    assert key[n] == '/';
    forall i | 0 <= i < n ensures key[i] != '/' { assert g[..n][i] == key[i]; }
    assert slash == n;
    SameSlice(g, key, 1, n);
    assert key[..n + 1] == g;
  }

  /** Reading and printing keys are inverse to one another. */
  lemma ParseUnparse(key: string, k: Key<string>)
    ensures ParseKey(key) == Some(k) <==> Proper(k) && Unparse(k) == key
  {
    if ParseKey(key) == Some(k) { ReadIsPrinted(key, k); }
    if Proper(k) && Unparse(k) == key { PrintedIsRead(key, k); }
  }

  lemma ReadIsPrinted(key: string, k: Key<string>)
    requires ParseKey(key) == Some(k)
    ensures Proper(k) && Unparse(k) == key
  {
    GroupOfPrefix(key);
    var g := GroupOf(key).value;
    var rest := key[|g|..];
    assert key == g + rest;
    if k.Slot? {
      DigitsOf(rest[1..]);
      assert rest == "v" + Pad3(k.index);
    }
    UnparseIs(k);
  }

  lemma PrintedIsRead(key: string, k: Key<string>)
    requires Proper(k) && Unparse(k) == key
    ensures ParseKey(key) == Some(k)
  {
    UnparseIs(k);
    GroupIsPrefix(k.group, key);
    assert key[|k.group|..] == Rest(k);
    if k.Slot? {
      Pad3Value(k.index);
      DigitsOf(Pad3(k.index));
      assert Rest(k)[1..] == Pad3(k.index);
    }
  }

  lemma UnparseIs(k: Key<string>)
    ensures Unparse(k) == k.group + Rest(k)
  {
    if k.Slot? { assert k.group + "v" + Pad3(k.index) == k.group + ("v" + Pad3(k.index)); }
  }

  /** Three characters are read as a number exactly when they are digits, and then as what they denote. */
  lemma DigitsOf(s: string)
    requires |s| == 3
    ensures ParseDigits(s) != NOT_A_NUMBER <==> AllDigits(s)
    ensures AllDigits(s) ==> ParseDigits(s) == Value(s) < 1000 && Pad3(Value(s)) == s
  {
    if AllDigits(s) {
      ThreeDigits(s);
      ParseDigitsExact(s);
    } else {
      ScanRejects(0, s);
    }
  }

  // ----- order -----

  /** Within a group the lock precedes every value, and values are in numeric order. */
  lemma KeyOrder(a: Key<string>, b: Key<string>)
    requires Proper(a) && Proper(b) && a.group == b.group
    ensures Lex.Less(Unparse(a), Unparse(b)) <==>
            b.Slot? && (a.Lock? || a.index < b.index)
  {
    var g := a.group;
    Lex.CommonPrefix(g, Rest(a), Rest(b));
    UnparseIs(a);
    UnparseIs(b);
    if a.Slot? && b.Slot? {
      Lex.CommonPrefix("v", Pad3(a.index), Pad3(b.index));
      Pad3Order(a.index, b.index);
    } else {
      if a.Lock? && b.Lock? { Lex.Irreflexive("lock"); }
      assert Rest(a)[0] == if a.Lock? then 'l' else 'v';
      assert Rest(b)[0] == if b.Lock? then 'l' else 'v';
    }
  }

  function Rest<G>(k: Key<G>): string {
    if k.Lock? then "lock" else "v" + Pad3(k.index)
  }

  lemma Pad3Order(i: nat, j: nat)
    requires i < 1000 && j < 1000
    ensures Lex.Less(Pad3(i), Pad3(j)) <==> i < j
  {
    Pad3Digits(i);
    Pad3Digits(j);
    LessOfThree(Pad3(i), Pad3(j));
    DigitOrder(i / 100, j / 100);
    DigitOrder(i / 10 % 10, j / 10 % 10);
    DigitOrder(i % 10, j % 10);
    ThreePlaces(i);
    ThreePlaces(j);
  }

  lemma DigitOrder(c: nat, d: nat)
    requires c < 10 && d < 10
    ensures Digit(c) < Digit(d) <==> c < d
    ensures Digit(c) == Digit(d) <==> c == d
  {
  }

  lemma LessOfThree(s: string, t: string)
    requires |s| == |t| == 3
    ensures Lex.Less(s, t) <==>
            s[0] < t[0] || (s[0] == t[0] && (s[1] < t[1] || (s[1] == t[1] && s[2] < t[2])))
  {
    assert s[1..][1..] == s[2..] && t[1..][1..] == t[2..] && s[2..][1..] == [] == t[2..][1..];
    assert Lex.Less(s[2..], t[2..]) <==> s[2] < t[2];
    assert Lex.Less(s[1..], t[1..]) <==> s[1] < t[1] || (s[1] == t[1] && s[2] < t[2]);
  }

  /** The keys of a group are contiguous: whatever lies between two of them belongs to it too. */
  lemma GroupsAreContiguous(g: string, a: string, b: string, c: string)
    requires IsGroup(g) && GroupOf(a) == Some(g) && GroupOf(c) == Some(g)
    requires Lex.Less(a, b) && Lex.Less(b, c)
    ensures GroupOf(b) == Some(g)
  {
    GroupOfPrefix(a);
    GroupOfPrefix(b);
    GroupOfPrefix(c);
    Lex.PrefixInterval(g, a, b, c);
  }

  // ----- the keys that clients use -----

  lemma GroupNameIsGroup(gid: nat)
    requires gid < NOT_A_NUMBER
    ensures IsGroup(GroupName(gid))
  {
    var d := Dec(gid);
    var g := GroupName(gid);
    assert g == "g" + d + "/" && g[1..|g| - 1] == d;
    assert g[..|g| - 1] == "g" + d;
    DecRoundTrip(gid);
    ParseDigitsExact(d);
  }

  /** The keys that clients format are read back as the typed keys they stand for. */
  lemma MadeKeysParse(gid: nat, vid: nat)
    requires gid < NOT_A_NUMBER && vid < 1000
    ensures ParseKey(MakeLockKey(gid)) == Some(Lock(GroupName(gid)))
    ensures ParseKey(MakeValueKey(gid, vid)) == Some(Slot(GroupName(gid), vid))
  {
    GroupNameIsGroup(gid);
    var g := GroupName(gid);
    assert MakeLockKey(gid) == Unparse(Lock(g));
    assert MakeValueKey(gid, vid) == Unparse(Slot(g, vid));
    ParseUnparse(MakeLockKey(gid), Lock(g));
    ParseUnparse(MakeValueKey(gid, vid), Slot(g, vid));
  }
}
