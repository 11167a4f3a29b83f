/** Decimal digits: printing, evaluating, and the parsers of the two programs. */
module Decimal {
  const U32: nat := 0x1_0000_0000

  predicate IsDigit(c: char) { '0' <= c <= '9' }

  function Digit(d: nat): (c: char)
    requires d < 10
    ensures IsDigit(c) && DigitValue(c) == d
  {
    '0' + d as char
  }

  function DigitValue(c: char): nat
    requires IsDigit(c)
  {
    c as int - '0' as int
  }

  predicate AllDigits(s: string) { forall i :: 0 <= i < |s| ==> IsDigit(s[i]) }

  /** The number denoted by the digits `s` when `v` was read before them. */
  function ValueFrom(v: nat, s: string): nat
    requires AllDigits(s)
    decreases s
  {
    if s == [] then v else ValueFrom(v * 10 + DigitValue(s[0]), s[1..])
  }

  function Value(s: string): nat
    requires AllDigits(s)
  {
    ValueFrom(0, s)
  }

  /** `std::format("{}", n)`. */
  function Dec(n: nat): (s: string)
    ensures s != [] && AllDigits(s)
  {
    if n < 10 then [Digit(n)] else Dec(n / 10) + [Digit(n % 10)]
  }

  /** `std::format("{:03}", n)`. */
  function Pad3(n: nat): (s: string)
    ensures AllDigits(s)
  {
    if n < 10 then "00" + Dec(n) else if n < 100 then "0" + Dec(n) else Dec(n)
  }

  /** No superfluous leading zero. */
  predicate Canonical(s: string) {
    s != [] && AllDigits(s) && (s[0] == '0' ==> |s| == 1)
  }

  lemma {:induction false} ValueSnoc(v: nat, s: string, c: char)
    requires AllDigits(s) && IsDigit(c)
    ensures AllDigits(s + [c])
    ensures ValueFrom(v, s + [c]) == ValueFrom(v, s) * 10 + DigitValue(c)
    decreases s
  {
    if s == [] {
      assert ValueFrom(v, [c]) == ValueFrom(v * 10 + DigitValue(c), [c][1..]);
    } else {
      assert (s + [c])[1..] == s[1..] + [c];
      ValueSnoc(v * 10 + DigitValue(s[0]), s[1..], c);
    }
  }

  /** Evaluating what was printed gives the number back, and printing is canonical. */
  lemma {:induction false} DecRoundTrip(n: nat)
    ensures Value(Dec(n)) == n && Canonical(Dec(n)) && (n > 0 ==> Dec(n)[0] != '0')
  {
    if n < 10 {
      assert ValueFrom(0, [Digit(n)]) == ValueFrom(n, [Digit(n)][1..]);
    } else {
      DecRoundTrip(n / 10);
      ValueSnoc(0, Dec(n / 10), Digit(n % 10));
    }
  }

  lemma {:induction false} ValueGrows(v: nat, s: string)
    requires AllDigits(s)
    ensures ValueFrom(v, s) >= v
    decreases s
  {
    if s != [] { ValueGrows(v * 10 + DigitValue(s[0]), s[1..]); }
  }

  /** Printing undoes evaluation exactly on canonical digit strings. */
  lemma {:induction false} ValueRoundTrip(s: string)
    requires s != [] && AllDigits(s)
    ensures Dec(Value(s)) == s <==> Canonical(s)
  {
    DecRoundTrip(Value(s));
    if Canonical(s) { CanonicalRoundTrip(s); }
  }

  lemma DecSnoc(n: nat, d: nat)
    requires n > 0 && d < 10
    ensures Dec(n * 10 + d) == Dec(n) + [Digit(d)]
  {
    assert (n * 10 + d) / 10 == n && (n * 10 + d) % 10 == d;
  }

  lemma {:induction false} CanonicalRoundTrip(s: string)
    requires Canonical(s)
    ensures Dec(Value(s)) == s
    ensures s != "0" ==> Value(s) > 0
  {
    var init, c := s[..|s| - 1], s[|s| - 1];
    assert s == init + [c];
    ValueSnoc(0, init, c);
    if init != [] {
      CanonicalRoundTrip(init);
      assert init[0] == s[0] != '0';
      DecSnoc(Value(init), DigitValue(c));
    }
  }

  /** `{:03}` pads to exactly three digits below a thousand, and order is numeric order. */
  lemma Pad3Digits(n: nat)
    requires n < 1000
    ensures Pad3(n) == [Digit(n / 100), Digit(n / 10 % 10), Digit(n % 10)]
  {
    ThreePlaces(n);
    if n < 100 {
      assert n / 100 == 0 && Digit(0) == '0';
      assert n >= 10 ==> Dec(n / 10) == [Digit(n / 10)];
    } else {
      assert Dec(n / 100) == [Digit(n / 100)];
      DecSnoc(n / 100, n / 10 % 10);
      DecSnoc(n / 10, n % 10);
    }
  }

  lemma ThreePlaces(n: nat)
    requires n < 1000
    ensures n == 100 * (n / 100) + 10 * (n / 10 % 10) + n % 10
    ensures n / 10 == n / 100 * 10 + n / 10 % 10
  {
    assert n / 10 / 10 == n / 100;
  }

  lemma PlacesOf(a: nat, b: nat, c: nat)
    requires a < 10 && b < 10 && c < 10
    ensures var n := 100 * a + 10 * b + c; n < 1000 && n / 100 == a && n / 10 % 10 == b && n % 10 == c
  {
    var n, m := 100 * a + 10 * b + c, 10 * a + b;
    assert n == 10 * m + c && n / 10 == m && n % 10 == c;
    assert m / 10 == a && m % 10 == b;
  }

  lemma ValueOfThree(s: string)
    requires |s| == 3 && AllDigits(s)
    ensures Value(s) == 100 * DigitValue(s[0]) + 10 * DigitValue(s[1]) + DigitValue(s[2])
  {
    ValueStep(0, s);
    ValueStep(DigitValue(s[0]), s[1..]);
    ValueStep(DigitValue(s[0]) * 10 + DigitValue(s[1]), s[1..][1..]);
  }

  lemma ValueStep(v: nat, s: string)
    requires s != [] && AllDigits(s)
    ensures ValueFrom(v, s) == ValueFrom(v * 10 + DigitValue(s[0]), s[1..])
  {
  }

  lemma Pad3Value(n: nat)
    requires n < 1000
    ensures |Pad3(n)| == 3 && Value(Pad3(n)) == n
  {
    Pad3Digits(n);
    ValueOfThree(Pad3(n));
    ThreePlaces(n);
  }

  /** Any three digits are the padding of the number they denote. */
  lemma ThreeDigits(s: string)
    requires |s| == 3 && AllDigits(s)
    ensures Value(s) < 1000 && Pad3(Value(s)) == s
  {
    ValueOfThree(s);
    PlacesOf(DigitValue(s[0]), DigitValue(s[1]), DigitValue(s[2]));
    Pad3Digits(Value(s));
    assert s == [s[0], s[1], s[2]];
  }

  const NOT_A_NUMBER: nat := U32 - 1

  /** The state of the `parse_digits` accumulator, a 32-bit unsigned, after reading `s`. */
  function Scan(v: nat, s: string): (r: nat)
    requires v < U32
    ensures r < U32
    decreases s
  {
    if s == [] then v
    else if !IsDigit(s[0]) then NOT_A_NUMBER
    else
      var vv := (v * 10 + DigitValue(s[0])) % U32;
      if vv < v then NOT_A_NUMBER else Scan(vv, s[1..])
  }

  function ParseDigits(s: string): nat {
    if s == [] then NOT_A_NUMBER else Scan(0, s)
  }

  /** `parse_digits(s, from, to)`. */
  method ParseDigitsIn(s: string, from: nat, to: nat) returns (v: nat)
    requires to <= |s|
    ensures v == if from >= to then NOT_A_NUMBER else ParseDigits(s[from..to])
  {
    if from >= to { return NOT_A_NUMBER; }
    v := 0;
    var i := from;
    while i < to
      invariant from <= i <= to && v < U32
      invariant Scan(v, s[i..to]) == Scan(0, s[from..to])
    {
      var ch := s[i];
      assert s[i..to][0] == ch && s[i..to][1..] == s[i + 1..to];
      if ch < '0' || ch > '9' { return NOT_A_NUMBER; }
      var vv := (v * 10 + ch as int - '0' as int) % U32;
      if vv < v { return NOT_A_NUMBER; }
      v := vv;
      i := i + 1;
    }
  }

  /** One digit that fits is shifted in. */
  lemma ScanStep(v: nat, s: string)
    requires s != [] && IsDigit(s[0]) && v * 10 + DigitValue(s[0]) < U32
    ensures v < U32 && Scan(v, s) == Scan(v * 10 + DigitValue(s[0]), s[1..])
  {
  }

  /** Digits whose value fits are scanned without loss, whatever follows them. */
  lemma {:induction false} ScanThrough(v: nat, s: string, t: string)
    requires AllDigits(s) && ValueFrom(v, s) < U32
    ensures v < U32 && Scan(v, s + t) == Scan(ValueFrom(v, s), t)
    decreases s
  {
    ValueGrows(v, s);
    if s == [] {
      assert s + t == t;
    } else {
      var w := v * 10 + DigitValue(s[0]);
      ValueStep(v, s);
      ValueGrows(w, s[1..]);
      ScanStep(v, s + t);
      assert (s + t)[1..] == s[1..] + t;
      ScanThrough(w, s[1..], t);
    }
  }

  /** The overflow test is not exact: digits are accepted as the number they denote iff that is below the error value,
      the largest of 32 bits. */
  lemma ParseDigitsExact(s: string)
    requires s != [] && AllDigits(s)
    ensures ParseDigits(s) != NOT_A_NUMBER && ParseDigits(s) == Value(s) <==> Value(s) < NOT_A_NUMBER
    ensures Value(s) == NOT_A_NUMBER ==> ParseDigits(s) == NOT_A_NUMBER
  {
    if Value(s) < U32 {
      ScanThrough(0, s, "");
      assert s + "" == s;
    }
  }

  /** What one digit more than fits does, whatever follows it: the wrapped value is rejected only if it fell, and
      otherwise the scan goes on from there. */
  lemma ParseOneDigitMore(n: nat, d: nat, t: string)
    requires 0 < n < U32 && d < 10
    ensures var wrapped := (n * 10 + d) % U32;
      ParseDigits(Dec(n * 10 + d) + t) == if wrapped < n then NOT_A_NUMBER else Scan(wrapped, t)
  {
    DecSnoc(n, d);
    DecRoundTrip(n);
    var tail := [Digit(d)] + t;
    assert Dec(n) + [Digit(d)] + t == Dec(n) + tail;
    ScanThrough(0, Dec(n), tail);
    ScanNext(n, tail);
    assert tail[1..] == t;
  }

  lemma ScanNext(v: nat, s: string)
    requires v < U32 && s != [] && IsDigit(s[0])
    ensures var wrapped := (v * 10 + DigitValue(s[0])) % U32;
      Scan(v, s) == if wrapped < v then NOT_A_NUMBER else Scan(wrapped, s[1..])
  {
  }

  /** Six thousand million does not fit, and is neither rejected nor read correctly. */
  lemma ParseDigitsMissesOverflow(n: nat)
    requires n == 6_000_000_000
    ensures ParseDigits(Dec(n)) == 1_705_032_704
  {
    ParseOneDigitMore(600_000_000, 0, "");
    assert Dec(n) + "" == Dec(n);
  }

  lemma {:induction false} ScanRejects(v: nat, s: string)
    requires v < U32 && !AllDigits(s)
    ensures Scan(v, s) == NOT_A_NUMBER
    decreases s
  {
    if IsDigit(s[0]) && (v * 10 + DigitValue(s[0])) % U32 >= v {
      ScanRejects((v * 10 + DigitValue(s[0])) % U32, s[1..]);
    }
  }
}
