/** The order in which `std::map<std::string, _>` iterates: lexicographic on characters. */
module Lex {
  predicate Less(a: string, b: string) {
    b != [] && (a == [] || a[0] < b[0] || (a[0] == b[0] && Less(a[1..], b[1..])))
  }

  predicate Sorted(ks: seq<string>) {
    forall i, j :: 0 <= i < j < |ks| ==> Less(ks[i], ks[j])
  }

  lemma {:induction false} Irreflexive(a: string)
    ensures !Less(a, a)
  {
    if a != [] { Irreflexive(a[1..]); }
  }

  lemma {:induction false} Transitive(a: string, b: string, c: string)
    requires Less(a, b) && Less(b, c)
    ensures Less(a, c)
  {
    if a != [] && a[0] == b[0] == c[0] { Transitive(a[1..], b[1..], c[1..]); }
  }

  lemma {:induction false} Total(a: string, b: string)
    ensures Less(a, b) || a == b || Less(b, a)
  {
    if a != [] && b != [] && a[0] == b[0] {
      Total(a[1..], b[1..]);
      assert a == [a[0]] + a[1..] && b == [b[0]] + b[1..];
    }
  }

  lemma Asymmetric(a: string, b: string)
    requires Less(a, b)
    ensures !Less(b, a) && a != b
  {
    Irreflexive(a);
    if Less(b, a) { Transitive(a, b, a); }
  }

  /** Cancelling a common prefix does not change the order. */
  lemma {:induction false} CommonPrefix(p: string, a: string, b: string)
    ensures Less(p + a, p + b) <==> Less(a, b)
  {
    if p == [] {
      assert p + a == a && p + b == b;
    } else {
      assert (p + a)[1..] == p[1..] + a && (p + b)[1..] == p[1..] + b;
      CommonPrefix(p[1..], a, b);
    }
  }

  /** Strings that share a prefix are contiguous in the order. */
  lemma {:induction false} PrefixInterval(p: string, a: string, b: string, c: string)
    requires p <= a && p <= c
    requires Less(a, b) && Less(b, c)
    ensures p <= b
  {
    if p != [] {
      assert a[0] == c[0] == p[0] == b[0];
      PrefixInterval(p[1..], a[1..], b[1..], c[1..]);
    }
  }

  /** A set of strings has one sorted sequence. */
  lemma {:induction false} SortedUnique(xs: seq<string>, ys: seq<string>)
    requires Sorted(xs) && Sorted(ys)
    requires forall k :: k in xs <==> k in ys
    ensures xs == ys
  {
    assert |xs| > 0 ==> xs[0] in ys;
    assert |ys| > 0 ==> ys[0] in xs;
    if |xs| > 0 {
      if xs[0] != ys[0] { Asymmetric(xs[0], ys[0]); }
      forall k ensures k in xs[1..] <==> k in ys[1..] {
        Irreflexive(xs[0]);
        assert k in xs <==> k == xs[0] || k in xs[1..];
        assert k in ys <==> k == ys[0] || k in ys[1..];
      }
      SortedUnique(xs[1..], ys[1..]);
      assert xs == [xs[0]] + xs[1..] && ys == [ys[0]] + ys[1..];
    }
  }

  lemma {:induction false} LeastExists(keys: set<string>) returns (least: string)
    requires keys != {}
    ensures least in keys && forall k :: k in keys && k != least ==> Less(least, k)
  {
    var k :| k in keys;
    if keys == {k} {
      least := k;
    } else {
      var m := LeastExists(keys - {k});
      Total(k, m);
      least := if Less(k, m) then k else m;
      forall x | x in keys && x != least ensures Less(least, x) {
        if x != k && x != m && Less(k, m) { Transitive(k, m, x); }
      }
    }
  }

  /** The keys of a map in iteration order. */
  function SortedKeys(keys: set<string>): (ks: seq<string>)
    ensures Sorted(ks)
    ensures forall k :: k in ks <==> k in keys
  {
    if keys == {} then []
    else
      Least(keys);
      var least :| least in keys && forall k :: k in keys && k != least ==> Less(least, k);
      [least] + SortedKeys(keys - {least})
  }

  /** The least key exists and is unique. */
  lemma Least(keys: set<string>)
    requires keys != {}
    ensures exists least :: least in keys && forall k :: k in keys && k != least ==> Less(least, k)
    ensures forall a, b :: a in keys && b in keys && a != b ==> !(Less(a, b) && Less(b, a))
  {
    var least := LeastExists(keys);
    forall a, b | a in keys && b in keys && a != b ensures !(Less(a, b) && Less(b, a)) {
      if Less(a, b) { Asymmetric(a, b); }
    }
  }
}
