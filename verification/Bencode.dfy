/** Bencoding, as in the section "bencoding" of BEP 3: a printer and a general decoder. */
module Bencode {
  import opened Base
  import opened Decimal
  import Lex

  datatype Ben =
    | BInt(n: int)
    | BStr(s: string)
    | BList(items: seq<Ben>)
    | BDict(entries: seq<Member>)

  datatype Member = Member(key: string, value: Ben)

  function SignedDec(n: int): string {
    if n < 0 then "-" + Dec(-n) else Dec(n)
  }

  function EncodeStr(s: string): string { Dec(|s|) + ":" + s }

  function Encode(b: Ben): string
    decreases b, 0
  {
    match b
    case BInt(n) => "i" + SignedDec(n) + "e"
    case BStr(s) => EncodeStr(s)
    case BList(items) => "l" + EncodeItems(items) + "e"
    case BDict(entries) => "d" + EncodeEntries(entries) + "e"
  }

  function EncodeItems(items: seq<Ben>): string
    decreases items
  {
    if items == [] then "" else Encode(items[0]) + EncodeItems(items[1..])
  }

  function EncodeEntries(entries: seq<Member>): string
    decreases entries
  {
    if entries == [] then ""
    else EncodeStr(entries[0].key) + Encode(entries[0].value) + EncodeEntries(entries[1..])
  }

  /** Dictionaries list their keys in order, each once, all the way down. */
  ghost predicate Valid(b: Ben)
    decreases b
  {
    match b
    case BInt(_) => true
    case BStr(_) => true
    case BList(items) => forall x :: x in items ==> Valid(x)
    case BDict(entries) => KeysAscend(entries) && forall e :: e in entries ==> Valid(e.value)
  }

  ghost predicate KeysAscend(entries: seq<Member>) {
    forall i, j :: 0 <= i < j < |entries| ==> Lex.Less(entries[i].key, entries[j].key)
  }

  // ----- the decoder -----

  datatype Decoded<T> = Fail | Read(value: T, rest: string)

  /** A base ten integer: no leading zero, no minus zero. */
  function ReadInt(s: string): Option<int> {
    if s != [] && s[0] == '-' then
      if Canonical(s[1..]) && Value(s[1..]) > 0 then Some(0 - Value(s[1..])) else None
    else if Canonical(s) then Some(Value(s)) else None
  }

  function DecodeStr(s: string): (r: Decoded<string>)
    ensures r.Read? ==> |r.rest| < |s|
  {
    var colon := FindChar(s, ':');
    if colon == |s| || !Canonical(s[..colon]) then Fail
    else
      var n, body := Value(s[..colon]), s[colon + 1..];
      if n <= |body| then Read(body[..n], body[n..]) else Fail
  }

  function Decode(s: string): (r: Decoded<Ben>)
    ensures r.Read? ==> |r.rest| < |s|
    decreases |s|, 0
  {
    if s == "" then Fail
    else if s[0] == 'i' then
      var e := FindChar(s, 'e');
      if e == |s| then Fail
      else match ReadInt(s[1..e]) case Some(n) => Read(BInt(n), s[e + 1..]) case None => Fail
    else if s[0] == 'l' then
      match DecodeItems(s[1..]) case Read(items, rest) => Read(BList(items), rest) case Fail => Fail
    else if s[0] == 'd' then
      match DecodeEntries(s[1..], None) case Read(entries, rest) => Read(BDict(entries), rest) case Fail => Fail
    else match DecodeStr(s) case Read(x, rest) => Read(BStr(x), rest) case Fail => Fail
  }

  function DecodeItems(s: string): (r: Decoded<seq<Ben>>)
    ensures r.Read? ==> |r.rest| < |s|
    decreases |s|, 1
  {
    if s == "" then Fail
    else if s[0] == 'e' then Read([], s[1..])
    else match Decode(s)
      case Fail => Fail
      case Read(x, rest) =>
        match DecodeItems(rest) case Read(xs, rest') => Read([x] + xs, rest') case Fail => Fail
  }

  /** Entries with keys above `last`, in ascending order. */
  function DecodeEntries(s: string, last: Option<string>): (r: Decoded<seq<Member>>)
    ensures r.Read? ==> |r.rest| < |s|
    decreases |s|, 1
  {
    if s == "" then Fail
    else if s[0] == 'e' then Read([], s[1..])
    else match DecodeStr(s)
      case Fail => Fail
      case Read(key, rest) =>
        if last.Some? && !Lex.Less(last.value, key) then Fail
        else match Decode(rest)
          case Fail => Fail
          case Read(x, rest') =>
            match DecodeEntries(rest', Some(key))
            case Read(es, rest'') => Read([Member(key, x)] + es, rest'')
            case Fail => Fail
  }

  // ----- decoding undoes encoding -----

  lemma StrRoundTrip(x: string, rest: string)
    ensures DecodeStr(EncodeStr(x) + rest) == Read(x, rest)
    ensures IsDigit((EncodeStr(x) + rest)[0])
  {
    var n := Dec(|x|);
    var s := EncodeStr(x) + rest;
    assert s == n + [':'] + (x + rest);
    FindMark(n, ':', x + rest);
    DecRoundTrip(|x|);
    assert (x + rest)[..|x|] == x && (x + rest)[|x|..] == rest;
  }

  lemma IntRoundTrip(n: int, rest: string)
    ensures Decode(Encode(BInt(n)) + rest) == Read(BInt(n), rest)
  {
    var d := SignedDec(n);
    var s := Encode(BInt(n)) + rest;
    assert s == ("i" + d) + ['e'] + rest;
    FindMark("i" + d, 'e', rest);
    assert s[1..|d| + 1] == d;
    DecRoundTrip(if n < 0 then -n else n);
    if n < 0 { assert d[1..] == Dec(-n); }
  }

  lemma {:induction false} RoundTrip(b: Ben, rest: string)
    requires Valid(b)
    ensures Decode(Encode(b) + rest) == Read(b, rest)
    ensures (Encode(b) + rest)[0] != 'e'
    decreases b, 0
  {
    match b
    case BInt(n) =>
      IntRoundTrip(n, rest);
      assert (Encode(b) + rest)[0] == 'i';
    case BStr(x) =>
      StrRoundTrip(x, rest);
    case BList(items) =>
      ItemsRoundTrip(items, rest);
      ListRoundTrip(items, rest);
    case BDict(entries) =>
      EntriesRoundTrip(entries, None, rest);
      DictRoundTrip(entries, rest);
  }

  lemma ListRoundTrip(items: seq<Ben>, rest: string)
    requires DecodeItems(EncodeItems(items) + "e" + rest) == Read(items, rest)
    ensures var s := Encode(BList(items)) + rest; Decode(s) == Read(BList(items), rest) && s[0] == 'l'
  {
    var s := Encode(BList(items)) + rest;
    Bracketed("l", EncodeItems(items), rest);
    assert s[1..] == EncodeItems(items) + "e" + rest;
  }

  lemma DictRoundTrip(entries: seq<Member>, rest: string)
    requires DecodeEntries(EncodeEntries(entries) + "e" + rest, None) == Read(entries, rest)
    ensures var s := Encode(BDict(entries)) + rest; Decode(s) == Read(BDict(entries), rest) && s[0] == 'd'
  {
    var s, body := Encode(BDict(entries)) + rest, EncodeEntries(entries) + "e" + rest;
    Bracketed("d", EncodeEntries(entries), rest);
    DictFrame(s, body, entries, rest);
  }

  lemma Bracketed(mark: string, inside: string, rest: string)
    ensures mark + inside + "e" + rest == mark + (inside + "e" + rest)
  {
  }

  lemma EntryText(key: string, value: string, others: string, rest: string)
    ensures key + value + others + "e" + rest == key + (value + (others + "e" + rest))
  {
  }

  lemma DictFrame(s: string, body: string, entries: seq<Member>, rest: string)
    requires s == "d" + body && DecodeEntries(body, None) == Read(entries, rest)
    ensures Decode(s) == Read(BDict(entries), rest)
  {
    assert s[1..] == body;
  }

  lemma {:induction false} ItemsRoundTrip(items: seq<Ben>, rest: string)
    requires forall x :: x in items ==> Valid(x)
    ensures DecodeItems(EncodeItems(items) + "e" + rest) == Read(items, rest)
    decreases items
  {
    if items == [] {
      assert EncodeItems(items) + "e" + rest == "e" + rest;
    } else {
      var tail := EncodeItems(items[1..]) + "e" + rest;
      Bracketed(Encode(items[0]), EncodeItems(items[1..]), rest);
      RoundTrip(items[0], tail);
      ItemsRoundTrip(items[1..], rest);
      ItemRoundTrip(items, tail, rest);
    }
  }

  lemma ItemRoundTrip(items: seq<Ben>, tail: string, rest: string)
    requires items != [] && Encode(items[0]) != "" && (Encode(items[0]) + tail)[0] != 'e'
    requires Decode(Encode(items[0]) + tail) == Read(items[0], tail)
    requires DecodeItems(tail) == Read(items[1..], rest)
    ensures DecodeItems(Encode(items[0]) + tail) == Read(items, rest)
  {
    assert items == [items[0]] + items[1..];
  }

  lemma {:induction false} EntriesRoundTrip(entries: seq<Member>, last: Option<string>, rest: string)
    requires KeysAscend(entries) && forall e :: e in entries ==> Valid(e.value)
    requires last.Some? && entries != [] ==> Lex.Less(last.value, entries[0].key)
    ensures DecodeEntries(EncodeEntries(entries) + "e" + rest, last) == Read(entries, rest)
    decreases entries
  {
    if entries == [] {
      assert EncodeEntries(entries) + "e" + rest == "e" + rest;
    } else {
      var Member(key, x) := entries[0];
      var tail := EncodeEntries(entries[1..]) + "e" + rest;
      EntryText(EncodeStr(key), Encode(x), EncodeEntries(entries[1..]), rest);
      StrRoundTrip(key, Encode(x) + tail);
      RoundTrip(x, tail);
      EntriesRoundTrip(entries[1..], Some(key), rest);
      EntryDecodes(EncodeStr(key) + (Encode(x) + tail), Encode(x) + tail, key, x, last, tail, entries[1..], rest);
      assert entries == [entries[0]] + entries[1..];
    }
  }

  lemma EntryDecodes(s: string, body: string, key: string, x: Ben, last: Option<string>, tail: string,
                     others: seq<Member>, rest: string)
    requires DecodeStr(s) == Read(key, body) && s != "" && IsDigit(s[0]) && (last.Some? ==> Lex.Less(last.value, key))
    requires Decode(body) == Read(x, tail) && DecodeEntries(tail, Some(key)) == Read(others, rest)
    ensures DecodeEntries(s, last) == Read([Member(key, x)] + others, rest)
  {
  }
}
