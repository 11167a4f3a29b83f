/** `parse_ipv4` and `format_ipv4` of the tracker. */
module Ipv4 {
  import opened Base
  import opened Decimal

  function Octet(ip: nat, i: nat): (b: nat)
    requires ip < U32 && i < 4
    ensures b < 256
  {
    if i == 0 then ip / 0x100_0000 % 0x100
    else if i == 1 then ip / 0x1_0000 % 0x100
    else if i == 2 then ip / 0x100 % 0x100
    else ip % 0x100
  }

  function FormatIpv4(ip: nat): string
    requires ip < U32
  {
    Dec(Octet(ip, 0)) + "." + Dec(Octet(ip, 1)) + "." + Dec(Octet(ip, 2)) + "." + Dec(Octet(ip, 3))
  }

  /** `parse_number<uint32_t>`: digits only, and no overflow. */
  function ParseNumber(s: string): Option<nat> {
    if s != [] && AllDigits(s) && Value(s) < U32 then Some(Value(s)) else None
  }

  // ----- the language of addresses -----

  /** Each part with a dot after it. */
  function Dotted(parts: seq<string>): string {
    if parts == [] then "" else parts[0] + "." + Dotted(parts[1..])
  }

  predicate IsPart(s: string) { s != [] && AllDigits(s) && Value(s) <= 255 }

  predicate AllParts(parts: seq<string>) { forall i :: 0 <= i < |parts| ==> IsPart(parts[i]) }

  function Combine(ip: nat, parts: seq<string>): nat
    requires AllParts(parts)
    decreases parts
  {
    if parts == [] then ip else Combine(ip * 256 + Value(parts[0]), parts[1..])
  }

  /** `parts` are `n` decimal numbers up to 255 that spell `s`, and `ip` continues to `result` with them. */
  ghost predicate Spells(parts: seq<string>, s: string, n: nat, ip: nat, result: nat) {
    |parts| == n && AllParts(parts) && s == Dotted(parts) && result == Combine(ip, parts)
  }

  /** An IPv4address of section 3.2.2 of RFC 3986: four decimal octets without superfluous zeros. */
  ghost predicate IsIPv4address(s: string) {
    exists parts: seq<string> ::
      |parts| == 4 && AllParts(parts) && s + "." == Dotted(parts) && forall i :: 0 <= i < 4 ==> Canonical(parts[i])
  }

  // ----- the parser -----

  /** Reading `n` more parts of what is left of the dotted text. */
  function ParseParts(s: string, n: nat, ip: nat): Option<nat> {
    if n == 0 then if s == "" then Some(ip) else None
    else
      var dot := FindChar(s, '.');
      var part := ParseNumber(s[..dot]);
      if part.None? || part.value > 255 || dot == |s| then None
      else ParseParts(s[dot + 1..], n - 1, ip * 256 + part.value)
  }

  function ParsedIpv4(s: string): Option<nat> { ParseParts(s + ".", 4, 0) }

  method ParseIpv4(s: string) returns (result: Option<nat>)
    ensures result == ParsedIpv4(s)
    ensures result.Some? ==> result.value < U32
  {
    var dotted := s + ".";
    result := ParseDotted(dotted, ParsedIpv4(s));
  }

  /** The loop of `parse_ipv4`; every slice is within the string. */
  method ParseDotted(dotted: string, ghost expected: Option<nat>) returns (result: Option<nat>)
    requires dotted != [] && dotted[|dotted| - 1] == '.'
    requires expected == ParseParts(dotted, 4, 0)
    ensures result == expected && (result.Some? ==> result.value < U32)
  {
    var ip: nat := 0;
    var start: nat := 0;
    var i := 0;
    assert dotted[start..] == dotted;
    while i != 4
      invariant 0 <= i <= 4 && start <= |dotted| && ip < Power256(i)
      invariant ParseParts(dotted[start..], 4 - i, ip) == expected
    {
      var part, next := ReadPart(dotted, start, 4 - i, ip);
      if part.None? || part.value > 255 { return None; }
      ip, start, i := ShiftIn(ip, part.value, i), next, i + 1;
    }
    assert ParseParts(dotted[start..], 0, ip) == if start == |dotted| then Some(ip) else None;
    if start != |dotted| { return None; }
    return Some(ip);
  }

  /** The text up to the next dot, as a number, and the position after that dot. */
  method ReadPart(dotted: string, start: nat, ghost n: nat, ghost ip: nat) returns (part: Option<nat>, next: nat)
    requires dotted != [] && dotted[|dotted| - 1] == '.' && start <= |dotted| && n > 0
    ensures part.None? || part.value > 255 ==> ParseParts(dotted[start..], n, ip) == None
    ensures part.Some? && part.value <= 255 ==> next <= |dotted|
    ensures part.Some? && part.value <= 255 ==>
      ParseParts(dotted[next..], n - 1, ip * 256 + part.value) == ParseParts(dotted[start..], n, ip)
  {
    // find('.', start): the end when there is none
    var dot := start + FindChar(dotted[start..], '.');
    part, next := ParseNumber(dotted[start..dot]), dot + 1;
    ParseStep(dotted, start, dot, n, ip);
    if part.Some? && part.value <= 255 { ParseOn(dotted, start, dot, n, ip, ip * 256 + part.value); }
  }

  function Power256(i: nat): nat
    requires i <= 4
  {
    if i == 0 then 1 else if i == 1 then 0x100 else if i == 2 then 0x1_0000 else if i == 3 then 0x100_0000 else U32
  }

  /** `(ip << 8) | part` in 32 bits loses nothing in the first four turns. */
  function ShiftIn(ip: nat, part: nat, i: nat): (r: nat)
    requires i < 4 && ip < Power256(i) && part <= 255
    ensures r == ip * 256 + part < Power256(i + 1)
  {
    ip * 256 % U32 + part
  }

  /** A part that is no number ends the parse. One that is has a dot after it, since the dotted text ends in one. */
  lemma ParseStep(dotted: string, start: nat, dot: nat, n: nat, ip: nat)
    requires dotted != [] && dotted[|dotted| - 1] == '.' && start <= |dotted| && n > 0
    requires dot == start + FindChar(dotted[start..], '.')
    ensures ParseNumber(dotted[start..dot]).Some? ==> dot < |dotted|
    ensures var part := ParseNumber(dotted[start..dot]);
      part.None? || part.value > 255 ==> ParseParts(dotted[start..], n, ip) == None
  {
    var s := dotted[start..];
    assert dotted[start..dot] == s[..dot - start];
    if start < |dotted| {
      assert s[|s| - 1] == '.';
    }
  }

  /** A part that is a number up to 255 is shifted in, and the parse goes on after its dot. */
  lemma ParseOn(dotted: string, start: nat, dot: nat, n: nat, ip: nat, shifted: nat)
    requires start <= dot < |dotted| && n > 0
    requires dot == start + FindChar(dotted[start..], '.')
    requires ParseNumber(dotted[start..dot]).Some? && ParseNumber(dotted[start..dot]).value <= 255
    requires shifted == ip * 256 + ParseNumber(dotted[start..dot]).value
    ensures ParseParts(dotted[dot + 1..], n - 1, shifted) == ParseParts(dotted[start..], n, ip)
  {
    var s := dotted[start..];
    assert dotted[start..dot] == s[..dot - start];
    assert s[dot - start + 1..] == dotted[dot + 1..];
  }

  lemma FirstPart(part: string, rest: string)
    requires AllDigits(part)
    ensures var s := part + "." + rest;
      FindChar(s, '.') == |part| && s[..|part|] == part && s[|part| + 1..] == rest
  {
    FindMark(part, '.', rest);
  }

  lemma SpellsCons(part: string, rest: seq<string>, s: string, n: nat, ip: nat, result: nat)
    requires IsPart(part) && Spells(rest, s, n, ip * 256 + Value(part), result)
    ensures Spells([part] + rest, part + "." + s, n + 1, ip, result)
  {
    assert ([part] + rest)[1..] == rest;
  }

  /** The parser finds parts that spell the text ... */
  lemma {:induction false} ParseSound(s: string, n: nat, ip: nat) returns (parts: seq<string>)
    requires ParseParts(s, n, ip).Some?
    ensures Spells(parts, s, n, ip, ParseParts(s, n, ip).value)
  {
    if n == 0 {
      parts := [];
    } else {
      var dot := FindChar(s, '.');
      var part := s[..dot];
      var rest := ParseSound(s[dot + 1..], n - 1, ip * 256 + Value(part));
      parts := [part] + rest;
      SpellsCons(part, rest, s[dot + 1..], n - 1, ip, ParseParts(s, n, ip).value);
      assert s == part + "." + s[dot + 1..];
    }
  }

  /** ... and misses none. */
  lemma {:induction false} ParseComplete(parts: seq<string>, s: string, n: nat, ip: nat, result: nat)
    requires Spells(parts, s, n, ip, result)
    ensures ParseParts(s, n, ip) == Some(result)
    decreases n
  {
    if n > 0 {
      FirstPart(parts[0], Dotted(parts[1..]));
      ParseComplete(parts[1..], Dotted(parts[1..]), n - 1, ip * 256 + Value(parts[0]), result);
    }
  }

  /** `parse_ipv4` accepts exactly four dot-separated decimal numbers up to 255, and reads them as base 256. */
  lemma ParseIsExact(s: string, ip: nat)
    ensures ParsedIpv4(s) == Some(ip) <==> exists parts: seq<string> :: Spells(parts, s + ".", 4, 0, ip)
  {
    if ParsedIpv4(s) == Some(ip) {
      var parts := ParseSound(s + ".", 4, 0);
    }
    if parts: seq<string> :| Spells(parts, s + ".", 4, 0, ip) {
      ParseComplete(parts, s + ".", 4, 0, ip);
    }
  }

  function Octets(ip: nat): seq<string>
    requires ip < U32
  {
    [Dec(Octet(ip, 0)), Dec(Octet(ip, 1)), Dec(Octet(ip, 2)), Dec(Octet(ip, 3))]
  }

  lemma DottedFour(a: string, b: string, c: string, d: string)
    ensures Dotted([a, b, c, d]) == (a + "." + b + "." + c + "." + d) + "."
  {
    assert [a, b, c, d][1..] == [b, c, d] && [b, c, d][1..] == [c, d] && [c, d][1..] == [d] && [d][1..] == [];
    assert Dotted([d]) == d + ".";
    assert Dotted([c, d]) == c + "." + (d + ".");
    assert Dotted([b, c, d]) == b + "." + (c + "." + (d + "."));
    assert Dotted([a, b, c, d]) == a + "." + (b + "." + (c + "." + (d + ".")));
  }

  lemma CombineFour(parts: seq<string>)
    requires |parts| == 4 && AllParts(parts)
    ensures Combine(0, parts) ==
            ((Value(parts[0]) * 256 + Value(parts[1])) * 256 + Value(parts[2])) * 256 + Value(parts[3])
  {
    var p1, p2, p3 := parts[1..], parts[2..], parts[3..];
    assert p1[1..] == p2 && p2[1..] == p3 && p3[1..] == [];
    var a := Value(parts[0]);
    var b := a * 256 + Value(parts[1]);
    var c := b * 256 + Value(parts[2]);
    assert Combine(0, parts) == Combine(a, p1) == Combine(b, p2) == Combine(c, p3);
    assert Combine(c, p3) == Combine(c * 256 + Value(parts[3]), p3[1..]);
  }

  lemma OctetsOf(a: nat, b: nat, c: nat, d: nat)
    requires a < 256 && b < 256 && c < 256 && d < 256
    ensures var ip := ((a * 256 + b) * 256 + c) * 256 + d;
      ip < U32 && Octet(ip, 0) == a && Octet(ip, 1) == b && Octet(ip, 2) == c && Octet(ip, 3) == d
  {
    var ip := ((a * 256 + b) * 256 + c) * 256 + d;
    assert ip % 0x100 == d && ip / 0x100 == (a * 256 + b) * 256 + c;
    assert ip / 0x1_0000 == a * 256 + b;
    assert ip / 0x100_0000 == a;
  }

  lemma OctetsSpell(ip: nat)
    requires ip < U32
    ensures Spells(Octets(ip), FormatIpv4(ip) + ".", 4, 0, ip)
    ensures forall i :: 0 <= i < 4 ==> Canonical(Octets(ip)[i])
  {
    var parts := Octets(ip);
    var a, b, c, d := Octet(ip, 0), Octet(ip, 1), Octet(ip, 2), Octet(ip, 3);
    DecRoundTrip(a);
    DecRoundTrip(b);
    DecRoundTrip(c);
    DecRoundTrip(d);
    DottedFour(parts[0], parts[1], parts[2], parts[3]);
    CombineFour(parts);
    IpOfOctets(ip);
  }

  lemma IpOfOctets(ip: nat)
    requires ip < U32
    ensures ip == ((Octet(ip, 0) * 256 + Octet(ip, 1)) * 256 + Octet(ip, 2)) * 256 + Octet(ip, 3)
  {
    assert ip / 0x100_0000 == Octet(ip, 0);
    assert ip / 0x1_0000 / 0x100 == ip / 0x100_0000;
    assert ip / 0x100 / 0x100 == ip / 0x1_0000;
  }

  /** Canonical parts are the printed octets of the address they combine to. */
  lemma OctetsBack(parts: seq<string>)
    requires |parts| == 4 && AllParts(parts) && forall i :: 0 <= i < 4 ==> Canonical(parts[i])
    ensures Combine(0, parts) < U32 && Octets(Combine(0, parts)) == parts
  {
    CombineFour(parts);
    var a, b, c, d := Value(parts[0]), Value(parts[1]), Value(parts[2]), Value(parts[3]);
    OctetsOf(a, b, c, d);
    ValueRoundTrip(parts[0]);
    ValueRoundTrip(parts[1]);
    ValueRoundTrip(parts[2]);
    ValueRoundTrip(parts[3]);
    assert parts == [Dec(a), Dec(b), Dec(c), Dec(d)];
  }

  /** Every address survives printing and parsing. */
  lemma FormatParses(ip: nat)
    requires ip < U32
    ensures ParsedIpv4(FormatIpv4(ip)) == Some(ip)
  {
    OctetsSpell(ip);
    ParseIsExact(FormatIpv4(ip), ip);
  }

  lemma {:induction false} DottedInjective(xs: seq<string>, ys: seq<string>)
    requires AllParts(xs) && AllParts(ys) && |xs| == |ys| && Dotted(xs) == Dotted(ys)
    ensures xs == ys
  {
    if xs != [] {
      FirstPart(xs[0], Dotted(xs[1..]));
      FirstPart(ys[0], Dotted(ys[1..]));
      DottedInjective(xs[1..], ys[1..]);
      assert xs == [xs[0]] + xs[1..] && ys == [ys[0]] + ys[1..];
    }
  }

  lemma SameBeforeDot(s: string, t: string)
    requires s + "." == t + "."
    ensures s == t
  {
    assert (s + ".")[..|s|] == s && (t + ".")[..|t|] == t;
  }

  /** Parsing and printing give the text back exactly when it is an IPv4address of RFC 3986. */
  lemma ParseFormats(s: string)
    ensures ParsedIpv4(s).Some? && ParsedIpv4(s).value < U32 && FormatIpv4(ParsedIpv4(s).value) == s
       <==> IsIPv4address(s)
  {
    if ParsedIpv4(s).Some? && ParsedIpv4(s).value < U32 && FormatIpv4(ParsedIpv4(s).value) == s {
      OctetsSpell(ParsedIpv4(s).value);
    }
    if IsIPv4address(s) {
      var parts: seq<string> :|
        |parts| == 4 && AllParts(parts) && s + "." == Dotted(parts) && forall i :: 0 <= i < 4 ==> Canonical(parts[i]);
      var ip := Combine(0, parts);
      assert Spells(parts, s + ".", 4, 0, ip);
      ParseIsExact(s, ip);
      OctetsBack(parts);
      OctetsSpell(ip);
      SameBeforeDot(s, FormatIpv4(ip));
    }
  }
}
