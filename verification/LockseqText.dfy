/** The text of the protocol's keys and values, and why a string-keyed database behaves as the typed one. */
module LockseqText {
  import opened Base
  import opened PancyMsgs
  import opened DbSpec
  import opened DbRename
  import opened Decimal
  import opened LockKeys
  import opened Lockseq

  function RenderKey(k: PKey): string {
    match k
    case Lock(g) => MakeLockKey(g)
    case Slot(g, i) => MakeValueKey(g, i)
  }

  /** `client_key_prefix`. */
  function ClientPrefix(cid: nat): string { MakeClientKey(cid) + " " }

  function RenderTag(v: Tag): string {
    match v
    case NoTag => ""
    case Tag(cid, hex) => ClientPrefix(cid) + hex
  }

  lemma SameNumber(c: char, a: nat, b: nat, mark: char, x: string, y: string)
    requires !IsDigit(mark) && c != mark
    requires [c] + Dec(a) + [mark] + x == [c] + Dec(b) + [mark] + y
    ensures a == b && x == y
  {
    var s, t := [c] + Dec(a) + [mark] + x, [c] + Dec(b) + [mark] + y;
    FindMark([c] + Dec(a), mark, x);
    FindMark([c] + Dec(b), mark, y);
    var m := |Dec(a)| + 1;
    assert s[1..m] == Dec(a) && t[1..m] == Dec(b);
    assert s[m + 1..] == x && t[m + 1..] == y;
    DecRoundTrip(a);
    DecRoundTrip(b);
  }

  lemma PadInjective(i: nat, j: nat)
    requires Pad3(i) == Pad3(j)
    ensures i == j
  {
    PadValue(i);
    PadValue(j);
  }

  lemma PadValue(i: nat)
    ensures Value(Pad3(i)) == i
  {
    DecRoundTrip(i);
    if i < 100 { Pad3Value(i); }
  }

  lemma RenderKeyIs(k: PKey)
    ensures RenderKey(k) == ['g'] + Dec(k.group) + ['/'] + Rest(k)
  {
    assert "/lock" == "/" + "lock" && "/v" == "/" + "v";
    if k.Lock? {
      assert "g" + Dec(k.group) + "/lock" == "g" + Dec(k.group) + "/" + "lock";
    } else {
      assert "g" + Dec(k.group) + "/v" + Pad3(k.index) == "g" + Dec(k.group) + "/" + ("v" + Pad3(k.index));
    }
  }

  /** Different keys have different text. */
  lemma RenderKeyInjective(a: PKey, b: PKey)
    requires RenderKey(a) == RenderKey(b)
    ensures a == b
  {
    RenderKeyIs(a);
    RenderKeyIs(b);
    SameNumber('g', a.group, b.group, '/', Rest(a), Rest(b));
    if a.Slot? && b.Slot? {
      assert Rest(a)[1..] == Pad3(a.index) && Rest(b)[1..] == Pad3(b.index);
      PadInjective(a.index, b.index);
    } else {
      assert Rest(a)[0] == if a.Lock? then 'l' else 'v';
      assert Rest(b)[0] == if b.Lock? then 'l' else 'v';
    }
  }

  /** Different values have different text, and only the absent value is empty. */
  lemma RenderTagInjective(a: Tag, b: Tag)
    requires RenderTag(a) == RenderTag(b)
    ensures a == b
  {
    if a.Tag? && b.Tag? { SameNumber('c', a.cid, b.cid, ' ', a.hex, b.hex); }
  }

  /** `actual.starts_with(client_key_prefix)` recognises exactly the client's own values. */
  lemma PrefixIsOwner(v: Tag, cid: nat)
    ensures ClientPrefix(cid) <= RenderTag(v) <==> HasPrefix(v, cid)
    ensures v.Tag? ==> RenderTag(v) == "c" + Dec(v.cid) + " " + v.hex
  {
    if v.Tag? && ClientPrefix(cid) <= RenderTag(v) {
      var s, p := RenderTag(v), ClientPrefix(cid);
      var rest := s[|p|..];
      assert s == p + rest;
      SameNumber('c', v.cid, cid, ' ', v.hex, rest);
    }
  }

  // ----- the string-keyed database -----

  function RenderAll(qs: seq<PRequest>): seq<Request<string, string>> {
    RenameAll(qs, RenderKey, RenderTag)
  }

  lemma RenderingIsInjective()
    ensures Injective(RenderKey) && Injective(RenderTag)
  {
    forall a, b | RenderKey(a) == RenderKey(b) ensures a == b { RenderKeyInjective(a, b); }
    forall a, b | RenderTag(a) == RenderTag(b) ensures a == b { RenderTagInjective(a, b); }
  }

  /** A fresh string-keyed database that serves the text of `qs` holds the text of what the typed one holds. */
  lemma RunRenders(qs: seq<PRequest>)
    ensures Renamed(ProcessAll(EmptyDb(), qs, NoTag), ProcessAll(EmptyDb(), RenderAll(qs), ""), RenderKey, RenderTag)
  {
    RenderingIsInjective();
    RunRenamed(qs, RenderKey, RenderTag, NoTag);
  }

  /** It also answers with the text of the typed answer. */
  lemma AnswersRender(qs: seq<PRequest>, q: PRequest)
    ensures Process(ProcessAll(EmptyDb(), RenderAll(qs), ""), RenameRequest(q, RenderKey, RenderTag), "").1
         == RenameResponse(Process(ProcessAll(EmptyDb(), qs, NoTag), q, NoTag).1, RenderTag)
  {
    RenderingIsInjective();
    RunRenders(qs);
    AnswerRenamed(ProcessAll(EmptyDb(), qs, NoTag), ProcessAll(EmptyDb(), RenderAll(qs), ""), RenderKey, RenderTag,
                  q, NoTag);
  }

  /** The two tests that a client makes of a value have the same outcome on text. */
  lemma SameTests(actual: Tag, value: Tag, cid: nat)
    ensures RenderTag(actual) == RenderTag(value) <==> actual == value
    ensures ClientPrefix(cid) <= RenderTag(actual) <==> HasPrefix(actual, cid)
  {
    if RenderTag(actual) == RenderTag(value) { RenderTagInjective(actual, value); }
    PrefixIsOwner(actual, cid);
  }
}
