/** `lockseq_model::check`: one pass over the sorted keys that recognises the grammar. */
module LockCheck {
  import opened Base
  import opened DbSpec
  import opened Decimal
  import opened LockKeys
  import opened LockGrammar
  import Lex

  datatype Entry = Entry(key: string, vv: Versioned<string>)
  datatype LockState = Unlocked | LockedStart | LockedRest

  /** The local variables of the pass. */
  datatype Scanner = Scanner(group: string, lockState: LockState, expectedIndex: nat, expectedValue: string)

  const START := Scanner("", Unlocked, 0, "")

  function Advance(s: Scanner, key: Key<string>, value: string): Option<Scanner> {
    var s := if key.group == s.group then s else Scanner(key.group, Unlocked, 0, "");
    match key
    case Lock(_) =>
      if s.expectedIndex != 0 || s.lockState != Unlocked then None
      else if value == "" then Some(s)
      else if |value| < 4 || value[0] != 'c' then None
      else Some(s.(lockState := LockedStart, expectedValue := value))
    case Slot(_, i) =>
      if value == "" then None else AdvanceSlot(s, i, value)
  }

  function AdvanceSlot(s: Scanner, i: nat, value: string): Option<Scanner> {
    if i != s.expectedIndex && (s.lockState != LockedStart || i < s.expectedIndex) then None
    else
      var s := if i != s.expectedIndex then Scanner(s.group, LockedRest, i, "") else s;
      if s.expectedValue == "" || value == s.expectedValue
      then Some(Scanner(s.group, s.lockState, i + 1, value))
      else if s.lockState != LockedStart then None
      else Some(Scanner(s.group, LockedRest, i + 1, value))
  }

  function Accept(es: seq<Entry>): Option<Scanner> {
    if es == [] then Some(START)
    else
      var last := es[|es| - 1];
      match (Accept(es[..|es| - 1]), ParseKey(last.key))
      case (Some(s), Some(k)) => Advance(s, k, last.vv.value)
      case _ => None
  }

  ghost predicate Sorted(es: seq<Entry>) {
    forall i, j :: 0 <= i < j < |es| ==> Lex.Less(es[i].key, es[j].key)
  }

  predicate AllParse(es: seq<Entry>) {
    forall i :: 0 <= i < |es| ==> ParseKey(es[i].key).Some?
  }

  /** The entries as a table of typed keys. */
  function Typed(es: seq<Entry>): Table<string, string>
    requires AllParse(es)
  {
    if es == [] then map[]
    else
      var last := es[|es| - 1];
      Typed(es[..|es| - 1])[ParseKey(last.key).value := last.vv]
  }

  ghost predicate WellFormed(es: seq<Entry>) {
    AllParse(es) && Grammar(Typed(es))
  }

  lemma {:induction false} TypedKeys(es: seq<Entry>, k: Key<string>)
    requires AllParse(es)
    ensures k in Typed(es) <==> exists i :: 0 <= i < |es| && ParseKey(es[i].key) == Some(k)
    ensures k in Typed(es) ==> exists i :: 0 <= i < |es| && ParseKey(es[i].key) == Some(k) && es[i].vv == Typed(es)[k]
  {
    if es != [] {
      var init := es[..|es| - 1];
      TypedKeys(init, k);
      if k in Typed(init) {
        var i :| 0 <= i < |init| && ParseKey(init[i].key) == Some(k) && init[i].vv == Typed(init)[k];
        assert es[i] == init[i];
      }
      if ParseKey(es[|es| - 1].key) != Some(k) {
        forall i | 0 <= i < |es| && ParseKey(es[i].key) == Some(k) ensures k in Typed(init) {
          assert init[i] == es[i];
        }
      }
    }
  }

  // ----- what the scanner knows -----

  ghost predicate Describes(t: Table<string, string>, s: Scanner) {
    var g := s.group;
    && NoSlotsFrom(t, g, s.expectedIndex)
    && match s.lockState
       case Unlocked =>
         && !Locked(t, g)
         && AllSlots(t, g, 0, s.expectedIndex, s.expectedValue)
         && (s.expectedIndex == 0 <==> s.expectedValue == "")
       case LockedStart =>
         && Locked(t, g) && t[Lock(g)].value == s.expectedValue
         && AllSlots(t, g, 0, s.expectedIndex, s.expectedValue)
       case LockedRest =>
         && Locked(t, g) && s.expectedValue != ""
         && exists own: nat, rest: nat :: Switched(t, s, own, rest)
  }

  /** The slots left the lock's value for good at `rest`, after a gap or by a change of value. */
  ghost predicate Switched(t: Table<string, string>, s: Scanner, own: nat, rest: nat)
    requires Locked(t, s.group)
  {
    var g, value := s.group, t[Lock(s.group)].value;
    && own <= rest < s.expectedIndex
    && AllSlots(t, g, 0, own, value) && NoSlots(t, g, own, rest)
    && AllSlots(t, g, rest, s.expectedIndex, s.expectedValue)
    && (own < rest || s.expectedValue != value)
  }

  /** What the order of keys guarantees about the next key. */
  ghost predicate Follows(t: Table<string, string>, group: string, key: Key<string>) {
    forall k :: k in t && k.group == key.group ==>
      key.group == group && key.Slot? && (k.Slot? ==> k.index < key.index)
  }

  lemma LockAdvance(t: Table<string, string>, s: Scanner, key: Key<string>, vv: Versioned<string>)
    requires GroupOk(t, key.group) && Describes(t, s) && Follows(t, s.group, key) && key.Lock?
    ensures Advance(s, key, vv.value).Some? <==> GroupOk(t[key := vv], key.group)
    ensures Advance(s, key, vv.value).Some? ==> Describes(t[key := vv], Advance(s, key, vv.value).value)
  {
    var g, u := key.group, t[key := vv];
    assert NoSlotsFrom(u, g, 0);
    assert Lock(g) !in t;
    assert Slot(g, 0) !in t;
    if Locked(u, g) { assert LockedShape(u, g, 0, 0); }
  }

  lemma SlotAdvance(t: Table<string, string>, s: Scanner, key: Key<string>, vv: Versioned<string>)
    requires GroupOk(t, key.group) && Describes(t, s) && Follows(t, s.group, key) && key.Slot?
    ensures Advance(s, key, vv.value).Some? ==>
      GroupOk(t[key := vv], key.group) && Describes(t[key := vv], Advance(s, key, vv.value).value)
  {
    var g, u, value := key.group, t[key := vv], vv.value;
    var s0 := if g == s.group then s else Scanner(g, Unlocked, 0, "");
    if value != "" && AdvanceSlot(s0, key.index, value).Some? {
      assert forall i: nat :: i > key.index ==> Slot(g, i) !in u;
      assert Locked(u, g) <==> Locked(t, g);
      if AdvanceSlot(s0, key.index, value).value.lockState == LockedRest {
        SlotInRest(t, s0, key, vv);
      } else {
        SlotInStart(t, s0, key, vv);
      }
    }
  }

  /** A slot that continues the slots of an unlocked group, or the lock's own value. */
  lemma SlotInStart(t: Table<string, string>, s: Scanner, key: Key<string>, vv: Versioned<string>)
    requires key.Slot? && key.group == s.group && GroupOk(t, s.group) && Describes(t, s) && vv.value != ""
    requires AdvanceSlot(s, key.index, vv.value).Some?
    requires AdvanceSlot(s, key.index, vv.value).value.lockState != LockedRest
    ensures var s' := AdvanceSlot(s, key.index, vv.value).value;
      GroupOk(t[key := vv], s.group) && Describes(t[key := vv], s')
  {
    var u := t[key := vv];
    assert Locked(u, s.group) <==> Locked(t, s.group);
    if Locked(t, s.group) { assert LockedShape(u, s.group, key.index + 1, key.index + 1); }
  }

  /** A slot that leaves the lock's own value, or continues the slots after them. */
  lemma SlotInRest(t: Table<string, string>, s: Scanner, key: Key<string>, vv: Versioned<string>)
    requires key.Slot? && key.group == s.group && GroupOk(t, s.group) && Describes(t, s) && vv.value != ""
    requires AdvanceSlot(s, key.index, vv.value).Some?
    requires AdvanceSlot(s, key.index, vv.value).value.lockState == LockedRest
    ensures var s' := AdvanceSlot(s, key.index, vv.value).value;
      GroupOk(t[key := vv], s.group) && Describes(t[key := vv], s')
  {
    var u, s' := t[key := vv], AdvanceSlot(s, key.index, vv.value).value;
    var own: nat, rest: nat;
    if s.lockState == LockedRest {
      own, rest :| Switched(t, s, own, rest);
    } else {
      own, rest := s.expectedIndex, key.index;
    }
    assert Locked(u, s.group) <==> Locked(t, s.group);
    assert Switched(u, s', own, rest);
    assert LockedShape(u, s.group, own, rest);
  }

  lemma SlotReject(t: Table<string, string>, s: Scanner, key: Key<string>, vv: Versioned<string>)
    requires GroupOk(t, key.group) && Describes(t, s) && Follows(t, s.group, key) && key.Slot?
    requires GroupOk(t[key := vv], key.group)
    ensures Advance(s, key, vv.value).Some?
  {
    var g, u, i, value := key.group, t[key := vv], key.index, vv.value;
    var s0 := if g == s.group then s else Scanner(g, Unlocked, 0, "");
    var e := s0.expectedIndex;
    assert Slot(g, i) in u;
    assert e <= i by {
      if e > 0 && s0.lockState != LockedRest { assert Slot(g, e - 1) in t; }
      if s0.lockState == LockedRest {
        var own: nat, rest: nat :| Switched(t, s0, own, rest);
        assert Slot(g, e - 1) in t;
      }
    }
    if e < i { assert Slot(g, e) !in u; }
    if Locked(t, g) {
      var own: nat, rest: nat :| LockedShape(u, g, own, rest);
      if s0.lockState == LockedRest {
        var own0: nat, rest0: nat :| Switched(t, s0, own0, rest0);
        assert Slot(g, rest0) in u;
        assert own0 < rest0 ==> Slot(g, own0) !in u;
        assert rest <= rest0;
      }
    } else if e > 0 {
      assert Slot(g, 0) in u;
    }
  }

  /** Entries after the last of a group do not matter to what came before. */
  lemma GrammarPrefix(t: Table<string, string>, group: string, key: Key<string>, vv: Versioned<string>)
    requires Follows(t, group, key) && GroupOk(t[key := vv], key.group)
    ensures GroupOk(t, key.group)
  {
    var g, u := key.group, t[key := vv];
    if key.Slot? && Locked(t, g) {
      var own: nat, rest: nat :| LockedShape(u, g, own, rest);
      if key.index < own {
        assert LockedShape(t, g, key.index, key.index);
      } else {
        assert LockedShape(t, g, own, rest);
      }
    }
  }

  /** One more key in order keeps the grammar exactly when the scanner takes it. */
  lemma AdvanceCorrect(t: Table<string, string>, s: Scanner, key: Key<string>, vv: Versioned<string>)
    requires Grammar(t) && Describes(t, s) && Follows(t, s.group, key)
    ensures Advance(s, key, vv.value).Some? <==> Grammar(t[key := vv])
    ensures Advance(s, key, vv.value).Some? ==> Describes(t[key := vv], Advance(s, key, vv.value).value)
  {
    var u := t[key := vv];
    OtherGroups(t, key, vv);
    if GroupOk(u, key.group) {
      forall g ensures GroupOk(u, g) { assert GroupOk(t, g); }
    }
    if key.Lock? {
      LockAdvance(t, s, key, vv);
    } else {
      SlotAdvance(t, s, key, vv);
      if GroupOk(u, key.group) { SlotReject(t, s, key, vv); }
    }
  }

  lemma OtherGroups(t: Table<string, string>, key: Key<string>, vv: Versioned<string>)
    ensures forall g :: g != key.group ==> (GroupOk(t, g) <==> GroupOk(t[key := vv], g))
  {
    forall g | g != key.group ensures GroupOk(t, g) <==> GroupOk(t[key := vv], g) {
      GroupIsLocal(t, t[key := vv], g);
      GroupIsLocal(t[key := vv], t, g);
    }
  }

  // ----- the order of entries -----

  /** In sorted entries an earlier key of the last entry's group precedes it, with no other group between. */
  lemma EarlierInGroup(es: seq<Entry>, i: nat, k: Key<string>, last: Key<string>)
    requires Sorted(es) && i < |es| - 1
    requires ParseKey(es[i].key) == Some(k) && ParseKey(es[|es| - 1].key) == Some(last) && k.group == last.group
    ensures last.Slot? && (k.Slot? ==> k.index < last.index)
    ensures GroupOf(es[|es| - 2].key) == Some(last.group)
  {
    ReadIsPrinted(es[i].key, k);
    ReadIsPrinted(es[|es| - 1].key, last);
    KeyOrder(k, last);
    ParseGroup(es[i].key, k);
    ParseGroup(es[|es| - 1].key, last);
    if i < |es| - 2 {
      GroupsAreContiguous(k.group, es[i].key, es[|es| - 2].key, es[|es| - 1].key);
    }
  }

  function LastGroup(es: seq<Entry>): string {
    if es == [] then ""
    else match GroupOf(es[|es| - 1].key) case Some(g) => g case None => ""
  }

  lemma SortedFollows(es: seq<Entry>)
    requires Sorted(es) && es != [] && AllParse(es)
    ensures AllParse(es[..|es| - 1])
    ensures Follows(Typed(es[..|es| - 1]), LastGroup(es[..|es| - 1]), ParseKey(es[|es| - 1].key).value)
  {
    AllParseSnoc(es);
    var init, last := es[..|es| - 1], ParseKey(es[|es| - 1].key).value;
    forall k | k in Typed(init) && k.group == last.group
      ensures last.group == LastGroup(init) && last.Slot? && (k.Slot? ==> k.index < last.index)
    {
      FollowsOne(es, k, last);
    }
  }

  lemma FollowsOne(es: seq<Entry>, k: Key<string>, last: Key<string>)
    requires Sorted(es) && es != [] && AllParse(es[..|es| - 1]) && ParseKey(es[|es| - 1].key) == Some(last)
    requires k in Typed(es[..|es| - 1]) && k.group == last.group
    ensures last.group == LastGroup(es[..|es| - 1]) && last.Slot? && (k.Slot? ==> k.index < last.index)
  {
    var init := es[..|es| - 1];
    TypedKeys(init, k);
    var i :| 0 <= i < |init| && ParseKey(init[i].key) == Some(k);
    assert init[i] == es[i];
    EarlierInGroup(es, i, k, last);
    BeforeLast(es, last.group);
  }

  lemma BeforeLast(es: seq<Entry>, group: string)
    requires |es| >= 2 && GroupOf(es[|es| - 2].key) == Some(group)
    ensures LastGroup(es[..|es| - 1]) == group
  {
    assert es[..|es| - 1][|es| - 2] == es[|es| - 2];
  }

  /** Dropping the last of sorted entries keeps them well formed. */
  lemma PrefixWellFormed(es: seq<Entry>)
    requires Sorted(es) && es != [] && WellFormed(es)
    ensures WellFormed(es[..|es| - 1])
  {
    var init, k, vv := es[..|es| - 1], ParseKey(es[|es| - 1].key).value, es[|es| - 1].vv;
    SortedFollows(es);
    OtherGroups(Typed(init), k, vv);
    GrammarPrefix(Typed(init), LastGroup(init), k, vv);
    forall g ensures GroupOk(Typed(init), g) { assert GroupOk(Typed(es), g); }
  }

  /** The pass accepts sorted entries exactly when they are well formed. */
  lemma {:induction false} AcceptCorrect(es: seq<Entry>)
    requires Sorted(es)
    ensures Accept(es).Some? <==> WellFormed(es)
    ensures Accept(es).Some? ==> Describes(Typed(es), Accept(es).value)
    ensures Accept(es).Some? ==> LastGroup(es) == Accept(es).value.group
  {
    if es == [] {
      assert Grammar(Typed(es));
    } else {
      var init, last := es[..|es| - 1], es[|es| - 1];
      AcceptCorrect(init);
      if WellFormed(es) { PrefixWellFormed(es); }
      if WellFormed(init) && ParseKey(last.key).Some? { AcceptStep(es); }
    }
  }

  lemma ParseGroup(key: string, k: Key<string>)
    requires ParseKey(key) == Some(k)
    ensures GroupOf(key) == Some(k.group)
  {
  }

  lemma AdvanceGroup(s: Scanner, k: Key<string>, value: string)
    ensures Advance(s, k, value).Some? ==> Advance(s, k, value).value.group == k.group
  {
  }

  lemma AllParseSnoc(es: seq<Entry>)
    requires es != []
    ensures AllParse(es) <==> AllParse(es[..|es| - 1]) && ParseKey(es[|es| - 1].key).Some?
  {
    var init := es[..|es| - 1];
    assert forall i :: 0 <= i < |init| ==> init[i] == es[i];
  }

  lemma AcceptStep(es: seq<Entry>)
    requires Sorted(es) && es != [] && ParseKey(es[|es| - 1].key).Some? && WellFormed(es[..|es| - 1])
    requires Accept(es[..|es| - 1]).Some?
    requires Describes(Typed(es[..|es| - 1]), Accept(es[..|es| - 1]).value)
    requires LastGroup(es[..|es| - 1]) == Accept(es[..|es| - 1]).value.group
    ensures Accept(es).Some? <==> WellFormed(es)
    ensures Accept(es).Some? ==> Describes(Typed(es), Accept(es).value)
    ensures Accept(es).Some? ==> LastGroup(es) == Accept(es).value.group
  {
    AllParseSnoc(es);
    SortedFollows(es);
    var init, last := es[..|es| - 1], es[|es| - 1];
    var t, u, s, k := Typed(init), Typed(es), Accept(init).value, ParseKey(last.key).value;
    assert u == t[k := last.vv];
    AdvanceCorrect(t, s, k, last.vv);
    assert Accept(es) == Advance(s, k, last.vv.value);
    ParseGroup(last.key, k);
    AdvanceGroup(s, k, last.vv.value);
    assert LastGroup(es) == k.group;
  }

  /** Entry `i` is the first whose prefix of the map breaks the grammar. */
  ghost predicate FirstBreak(es: seq<Entry>, i: nat) {
    i < |es| && WellFormed(es[..i]) && !WellFormed(es[..i + 1])
  }

  lemma {:induction false} RejectsForGood(es: seq<Entry>, n: nat)
    requires n <= |es| && Accept(es[..n]).None?
    ensures Accept(es).None?
  {
    if n == |es| {
      assert es[..n] == es;
    } else {
      var init := es[..|es| - 1];
      assert init[..n] == es[..n];
      RejectsForGood(init, n);
    }
  }

  /** Reading a key in the group of the previous key, and reading one that starts a new group. */
  lemma ReadInGroup(key: string, group: string)
    requires IsGroup(group) && group <= key
    ensures ParseKey(key) == SlotOf(group, key[|group|..])
  {
    GroupIsPrefix(group, key);
  }

  lemma NewGroup(key: string, group: string)
    requires group == "" || !(group <= key)
    ensures GroupOf(key) != Some(group)
  {
    GroupOfPrefix(key);
  }

  /** The length of the `g{G}/` that a key must start with, or none. */
  method ReadGroup(key: string) returns (glen: Option<nat>)
    ensures glen.None? <==> GroupOf(key).None?
    ensures glen.Some? ==> glen.value <= |key| && GroupOf(key) == Some(key[..glen.value])
  {
    if |key| < 3 || key[0] != 'g' { return None; }
    var slash := FindChar(key, '/');
    if slash == |key| { return None; }
    var gid := ParseDigitsIn(key, 1, slash);
    if gid == NOT_A_NUMBER { return None; }
    return Some(slash + 1);
  }

  /** The index in a value key, or none. */
  method ReadIndex(key: string, glen: nat) returns (vindex: Option<nat>)
    requires glen <= |key| && key[glen..] != "lock"
    ensures vindex == match SlotOf(key[..glen], key[glen..]) case Some(k) => Some(k.index) case None => None
  {
    if |key| != glen + 4 || key[glen] != 'v' { return None; }
    var index := ParseDigitsIn(key, glen + 1, glen + 4);
    assert key[glen..][1..] == key[glen + 1..glen + 4];
    return if index == NOT_A_NUMBER then None else Some(index);
  }

  /** The index and the value of a value key, against what the pass expects. */
  method CheckSlot(ghost group: string, lockState: LockState, expectedIndex: nat, expectedValue: string,
                   vindex: nat, value: string)
    returns (ok: bool, lockState': LockState, expectedIndex': nat, expectedValue': string)
    ensures AdvanceSlot(Scanner(group, lockState, expectedIndex, expectedValue), vindex, value)
         == if ok then Some(Scanner(group, lockState', expectedIndex', expectedValue')) else None
  {
    ok, lockState', expectedIndex', expectedValue' := true, lockState, expectedIndex, expectedValue;
    // the index
    if vindex != expectedIndex {
      if lockState == Unlocked || lockState == LockedRest || vindex < expectedIndex {
        ok := false;
        return;
      }
      lockState', expectedIndex', expectedValue' := LockedRest, vindex, "";
    }
    // the value
    if expectedValue' != "" && value != expectedValue' {
      if lockState' != LockedStart {
        ok := false;
        return;
      }
      lockState', expectedValue' := LockedRest, value;
    }
    expectedValue', expectedIndex' := value, expectedIndex' + 1;
  }

  function AcceptNext(s: Option<Scanner>, k: Option<Key<string>>, value: string): Option<Scanner> {
    if s.None? || k.None? then None else Advance(s.value, k.value, value)
  }

  /** In a new group the scanner starts anew. */
  lemma EnterGroup(s: Scanner, group: string, k: Option<Key<string>>, value: string)
    requires s.group != group && (k.Some? ==> k.value.group == group)
    ensures AcceptNext(Some(s), k, value) == AcceptNext(Some(Scanner(group, Unlocked, 0, "")), k, value)
  {
  }

  lemma AdvanceValue(s: Scanner, rest: string, vindex: nat, value: string)
    requires rest != "lock" && value != ""
    requires match SlotOf(s.group, rest) case Some(k) => k.index == vindex case None => false
    ensures AcceptNext(Some(s), SlotOf(s.group, rest), value) == AdvanceSlot(s, vindex, value)
  {
  }

  lemma AcceptUnfold(es: seq<Entry>, n: nat)
    requires n < |es|
    ensures Accept(es[..n + 1]) == AcceptNext(Accept(es[..n]), ParseKey(es[n].key), es[n].vv.value)
  {
    assert es[..n + 1][..n] == es[..n] && es[..n + 1][n] == es[n];
  }

  /** The pass itself. */
  method Check(es: seq<Entry>) returns (bad: Option<string>)
    ensures Sorted(es) ==> (bad.None? <==> WellFormed(es))
    ensures Sorted(es) && bad.Some? ==> exists i: nat :: FirstBreak(es, i) && bad.value == es[i].key
  {
    var lastGroup, glen := "", 0;
    var expectedValue, expectedIndex: nat, lockState := "", 0, Unlocked;
    for n := 0 to |es|
      invariant Accept(es[..n]) == Some(Scanner(lastGroup, lockState, expectedIndex, expectedValue))
      invariant glen == |lastGroup| && (lastGroup == "" || IsGroup(lastGroup))
    {
      var key, value := es[n].key, es[n].vv.value;
      AcceptUnfold(es, n);

      // does the key leave the group?
      if lastGroup == "" || !(lastGroup <= key) {
        NewGroup(key, lastGroup);
        GroupOfPrefix(key);
        var newLength := ReadGroup(key);
        if newLength.None? { Stop(es, n); return Some(key); }
        glen := newLength.value;
        EnterGroup(Scanner(lastGroup, lockState, expectedIndex, expectedValue), key[..glen], ParseKey(key), value);
        lastGroup := key[..glen];
        expectedValue, expectedIndex, lockState := "", 0, Unlocked;
      }
      ReadInGroup(key, lastGroup);
      ghost var slot := SlotOf(lastGroup, key[glen..]);
      assert Accept(es[..n + 1])
          == AcceptNext(Some(Scanner(lastGroup, lockState, expectedIndex, expectedValue)), slot, value);

      // the lock of the group
      if |key| == glen + 4 && key[glen..] == "lock" {
        if expectedIndex != 0 || lockState != Unlocked { Stop(es, n); return Some(key); }
        if |value| == 0 { continue; }
        if |value| < 4 || value[0] != 'c' { Stop(es, n); return Some(key); }
        lockState, expectedValue := LockedStart, value;
        continue;
      }

      // one of its values, then
      var vindex := ReadIndex(key, glen);
      if vindex.None? || value == "" { Stop(es, n); return Some(key); }

      ghost var before := Scanner(lastGroup, lockState, expectedIndex, expectedValue);
      AdvanceValue(before, key[glen..], vindex.value, value);
      var ok;
      ok, lockState, expectedIndex, expectedValue :=
        CheckSlot(lastGroup, lockState, expectedIndex, expectedValue, vindex.value, value);
      if !ok { Stop(es, n); return Some(key); }
    }
    assert es[..|es|] == es;
    if Sorted(es) { AcceptCorrect(es); }
    bad := None;
  }

  /** Stopping at the first entry that the scanner refuses. */
  lemma Stop(es: seq<Entry>, n: nat)
    requires n < |es| && Accept(es[..n]).Some? && Accept(es[..n + 1]).None?
    ensures Sorted(es) ==> !WellFormed(es) && FirstBreak(es, n)
  {
    if Sorted(es) {
      RejectsForGood(es, n + 1);
      AcceptCorrect(es);
      AcceptCorrect(es[..n]);
      AcceptCorrect(es[..n + 1]);
    }
  }
}
