/** What a database written by lock-sequence clients looks like, group by group. */
module LockGrammar {
  import opened DbSpec
  import opened LockKeys

  type Table<G(==), V> = map<Key<G>, Versioned<V>>

  /** From `from` on the slots have no gap and all hold one value. */
  ghost predicate Block<G, V>(t: Table<G, V>, g: G, from: nat) {
    forall i: nat, j: nat :: from <= i <= j && Slot(g, j) in t ==>
      Slot(g, i) in t && t[Slot(g, i)].value == t[Slot(g, j)].value
  }

  ghost predicate AllSlots<G, V>(t: Table<G, V>, g: G, lo: nat, hi: nat, value: V) {
    forall i: nat :: lo <= i < hi ==> Slot(g, i) in t && t[Slot(g, i)].value == value
  }

  ghost predicate NoSlots<G, V>(t: Table<G, V>, g: G, lo: nat, hi: nat) {
    forall i: nat :: lo <= i < hi ==> Slot(g, i) !in t
  }

  ghost predicate NoSlotsFrom<G, V>(t: Table<G, V>, g: G, lo: nat) {
    forall i: nat :: lo <= i ==> Slot(g, i) !in t
  }

  /** A lock with an empty value counts as no lock. */
  predicate Locked<G(==)>(t: Table<G, string>, g: G) {
    Lock(g) in t && t[Lock(g)].value != ""
  }

  /** The lock's own value up to `own`, then a gap up to `rest`, then one value without gaps. */
  ghost predicate LockedShape<G>(t: Table<G, string>, g: G, own: nat, rest: nat)
    requires Locked(t, g)
  {
    own <= rest && AllSlots(t, g, 0, own, t[Lock(g)].value) && NoSlots(t, g, own, rest) && Block(t, g, rest)
  }

  predicate LockValueOk(value: string) { |value| >= 4 && value[0] == 'c' }

  ghost predicate GroupOk<G>(t: Table<G, string>, g: G) {
    && (forall i: nat :: Slot(g, i) in t ==> t[Slot(g, i)].value != "")
    && if Locked(t, g)
       then LockValueOk(t[Lock(g)].value) && exists own: nat, rest: nat :: LockedShape(t, g, own, rest)
       else Block(t, g, 0)
  }

  ghost predicate Grammar<G(!new)>(t: Table<G, string>) {
    forall g :: GroupOk(t, g)
  }

  /** A group's verdict depends on the group's own keys alone. */
  lemma GroupIsLocal<G>(t: Table<G, string>, u: Table<G, string>, g: G)
    requires Lock(g) in t <==> Lock(g) in u
    requires Lock(g) in t ==> t[Lock(g)].value == u[Lock(g)].value
    requires forall i: nat :: Slot(g, i) in t <==> Slot(g, i) in u
    requires forall i: nat :: Slot(g, i) in t ==> t[Slot(g, i)].value == u[Slot(g, i)].value
    ensures GroupOk(t, g) ==> GroupOk(u, g)
  {
    if GroupOk(t, g) && Locked(t, g) {
      var own: nat, rest: nat :| LockedShape(t, g, own, rest);
      assert LockedShape(u, g, own, rest);
    }
  }
}
