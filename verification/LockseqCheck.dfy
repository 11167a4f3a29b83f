/** Every database that the protocol can reach passes `check`. */
module LockseqCheck {
  import opened Base
  import opened DbSpec
  import opened DbRename
  import opened LockKeys
  import opened LockGrammar
  import opened LockCheck
  import opened Lockseq
  import opened LockseqInv
  import opened LockseqText
  import LockseqSteps
  import LockseqSafety
  import Lex

  // ----- typed groups -----

  /** A locked group is the lock's value, a gap, and the rest of what an earlier client left. */
  ghost predicate TypedShape(t: Table<nat, Tag>, g: nat, value: Tag, own: nat, rest: nat) {
    own <= rest && AllSlots(t, g, 0, own, value) && NoSlots(t, g, own, rest) && Block(t, g, rest)
  }

  lemma HolderIsTyped(db: PDb, c: Client) returns (own: nat, rest: nat)
    requires Held(db, c) && Shape(db, c)
    ensures TypedShape(db.kv, c.gid, c.value, own, rest)
  {
    var next := if Block(db.kv, c.gid, c.n) then c.n else c.n + 1;
    if c.phase == Writing {
      own, rest := next, next;
    } else if c.phase == Clearing {
      own, rest := if c.nvalues <= next then c.nvalues else next, next;
    } else if c.phase == Unlocking {
      own, rest := c.nvalues, c.nvalues;
    } else {
      own, rest := 0, 0;
    }
  }

  // ----- from typed keys to text -----

  /** Group `p` of `u` is the text of group `g` of `t`. */
  ghost predicate Image(t: Table<nat, Tag>, g: nat, u: Table<string, string>, p: string) {
    && (Lock(g) in t <==> Lock(p) in u)
    && (Lock(g) in t ==> u[Lock(p)].value == RenderTag(t[Lock(g)].value))
    && (forall i: nat :: Slot(g, i) in t <==> Slot(p, i) in u)
    && (forall i: nat :: Slot(g, i) in t ==> u[Slot(p, i)].value == RenderTag(t[Slot(g, i)].value))
  }

  lemma ImageBlock(t: Table<nat, Tag>, g: nat, u: Table<string, string>, p: string, from: nat)
    requires Image(t, g, u, p) && Block(t, g, from)
    ensures Block(u, p, from)
  {
    assert forall i: nat :: Slot(g, i) in t <==> Slot(p, i) in u;
  }

  lemma GoodTagText(v: Tag)
    requires GoodTag(v)
    ensures LockValueOk(RenderTag(v)) && RenderTag(v) != ""
  {
    assert RenderTag(v)[0] == ClientPrefix(v.cid)[0] == 'c';
  }

  lemma GroupPasses(db: PDb, clients: seq<Client>, u: Table<string, string>, g: nat, p: string)
    requires DbOk(db) && Owners(db, clients) && Free(db) && Image(db.kv, g, u, p)
    ensures GroupOk(u, p)
  {
    forall i: nat | Slot(p, i) in u ensures u[Slot(p, i)].value != "" {
      assert Slot(g, i) in db.kv;
      GoodTagText(db.kv[Slot(g, i)].value);
    }
    if Lock(g) in db.kv {
      var v := db.kv[Lock(g)].value;
      GoodTagText(v);
      assert OwnedBy(db, clients, g, v);
      var own, rest := HolderIsTyped(db, clients[v.cid]);
      ImageBlock(db.kv, g, u, p, rest);
      assert LockedShape(u, p, own, rest) by {
        assert forall i: nat :: Slot(g, i) in db.kv <==> Slot(p, i) in u;
      }
    } else {
      ImageBlock(db.kv, g, u, p, 0);
    }
  }

  // ----- iterating the database -----

  /** The entries of a database in the order of its iterator. */
  function Entries(t: StringDb): seq<Entry> {
    var ks := Lex.SortedKeys(t.kv.Keys);
    seq(|ks|, i requires 0 <= i < |ks| => assert ks[i] in ks; Entry(ks[i], t.kv[ks[i]]))
  }

  lemma EntriesFacts(t: StringDb)
    ensures Sorted(Entries(t))
    ensures forall e: Entry :: e in Entries(t) <==> e.key in t.kv && t.kv[e.key] == e.vv
  {
    var ks := Lex.SortedKeys(t.kv.Keys);
    forall e: Entry | e.key in t.kv && t.kv[e.key] == e.vv ensures e in Entries(t) {
      assert e.key in ks;
      var i :| 0 <= i < |ks| && ks[i] == e.key;
      assert Entries(t)[i] == e;
    }
  }

  /** The typed table of parsable entries holds each entry under its typed key. */
  lemma TypedAt(t: StringDb, k: Key<string>)
    requires AllParse(Entries(t))
    ensures k in Typed(Entries(t)) <==> Proper(k) && Unparse(k) in t.kv
    ensures k in Typed(Entries(t)) ==> Typed(Entries(t))[k] == t.kv[Unparse(k)]
  {
    var es := Entries(t);
    EntriesFacts(t);
    TypedKeys(es, k);
    if k in Typed(es) {
      var i :| 0 <= i < |es| && ParseKey(es[i].key) == Some(k) && es[i].vv == Typed(es)[k];
      ReadIsPrinted(es[i].key, k);
      assert es[i] in es;
    }
    if Proper(k) && Unparse(k) in t.kv {
      PrintedIsRead(Unparse(k), k);
      var e := Entry(Unparse(k), t.kv[Unparse(k)]);
      assert e in es;
      var i :| 0 <= i < |es| && es[i] == e;
      assert ParseKey(es[i].key) == Some(k);
    }
  }

  /** The typed form of a protocol key as `check` reads it. */
  function TextKey(k: PKey): Key<string> {
    match k
    case Lock(g) => Lock(GroupName(g))
    case Slot(g, i) => Slot(GroupName(g), i)
  }

  lemma RenderedParses(k: PKey)
    requires k.group < NGROUPS && (k.Slot? ==> k.index < 1000)
    ensures ParseKey(RenderKey(k)) == Some(TextKey(k))
    ensures Proper(TextKey(k)) && Unparse(TextKey(k)) == RenderKey(k)
  {
    MadeKeysParse(k.group, if k.Slot? then k.index else 0);
    ReadIsPrinted(RenderKey(k), TextKey(k));
  }

  lemma AllRenderedParse(db: PDb, t: StringDb)
    requires DbOk(db) && Renamed(db, t, RenderKey, RenderTag)
    ensures AllParse(Entries(t))
  {
    var es := Entries(t);
    EntriesFacts(t);
    forall i | 0 <= i < |es| ensures ParseKey(es[i].key).Some? {
      assert es[i] in es;
      var k :| k in db.kv && es[i].key == RenderKey(k);
      RenderedParses(k);
    }
  }

  lemma GroupImage(db: PDb, t: StringDb, g: nat)
    requires DbOk(db) && Renamed(db, t, RenderKey, RenderTag) && AllParse(Entries(t)) && g < NGROUPS
    ensures Image(db.kv, g, Typed(Entries(t)), GroupName(g))
  {
    var p := GroupName(g);
    var u := Typed(Entries(t));
    RenderedParses(Lock(g));
    TypedAt(t, Lock(p));
    forall i: nat
      ensures Slot(g, i) in db.kv <==> Slot(p, i) in u
      ensures Slot(g, i) in db.kv ==> u[Slot(p, i)].value == RenderTag(db.kv[Slot(g, i)].value)
    {
      TypedAt(t, Slot(p, i));
      if i < 1000 { RenderedParses(Slot(g, i)); }
    }
  }

  /** A group that no client can name has no keys. */
  lemma NoOtherGroups(db: PDb, t: StringDb, k: Key<string>)
    requires DbOk(db) && Renamed(db, t, RenderKey, RenderTag) && AllParse(Entries(t))
    requires k in Typed(Entries(t))
    ensures exists g: nat :: g < NGROUPS && k.group == GroupName(g)
  {
    TypedAt(t, k);
    PrintedIsRead(Unparse(k), k);
    var q :| q in db.kv && Unparse(k) == RenderKey(q);
    RenderedParses(q);
    assert k.group == GroupName(q.group);
  }

  lemma TextPasses(db: PDb, clients: seq<Client>, t: StringDb)
    requires DbOk(db) && Owners(db, clients) && Free(db) && Renamed(db, t, RenderKey, RenderTag)
    ensures WellFormed(Entries(t))
  {
    AllRenderedParse(db, t);
    var u := Typed(Entries(t));
    forall p ensures GroupOk(u, p) {
      if g: nat :| g < NGROUPS && p == GroupName(g) {
        GroupImage(db, t, g);
        GroupPasses(db, clients, u, g, p);
      } else {
        forall k | k in u ensures k.group != p { NoOtherGroups(db, t, k); }
      }
    }
  }

  /** The leader's database: a fresh one that has served the text of the requests in the order they arrived. */
  function LeaderDb(s: System): StringDb {
    ProcessAll(EmptyDb(), RenderAll(s.served), "")
  }

  /** After every run, of any number of clients with any losses, duplicates, redirections, timeouts and halts, the
      entries of the leader's database are what `check` demands. */
  lemma EveryDatabasePassesCheck(cfg: Config, steps: seq<Step>)
    requires ValidConfig(cfg)
    ensures var es := Entries(LeaderDb(Run(cfg, steps))); Sorted(es) && WellFormed(es)
  {
    var s := Run(cfg, steps);
    LockseqSteps.Always(cfg, steps);
    LockseqSafety.AlwaysHistory(cfg, steps);
    RunRenders(s.served);
    TextPasses(s.db, s.clients, LeaderDb(s));
    EntriesFacts(LeaderDb(s));
  }

  /** The method itself, on what any run leaves at the leader. */
  method CheckAfter(ghost cfg: Config, ghost steps: seq<Step>, es: seq<Entry>) returns (bad: Option<string>)
    requires ValidConfig(cfg) && es == Entries(LeaderDb(Run(cfg, steps)))
    ensures bad.None?
  {
    EveryDatabasePassesCheck(cfg, steps);
    bad := Check(es);
  }
}
