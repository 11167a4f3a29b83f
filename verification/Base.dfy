/** What every part of the model uses. */
module Base {
  datatype Option<T> = None | Some(value: T)

  /** `s.find(c)`, or `|s|` when there is none. */
  function FindChar(s: string, c: char): (n: nat)
    ensures n <= |s| && (n < |s| ==> s[n] == c)
    ensures forall i :: 0 <= i < n ==> s[i] != c
  {
    FindFrom(s, c, 0)
  }

  function FindFrom(s: string, c: char, from: nat): (n: nat)
    requires from <= |s|
    ensures from <= n <= |s| && (n < |s| ==> s[n] == c)
    ensures forall i :: from <= i < n ==> s[i] != c
    decreases |s| - from
  {
    if from == |s| || s[from] == c then from else FindFrom(s, c, from + 1)
  }

  /** The first mark splits the text where it was put. */
  lemma FindMark(before: string, mark: char, after: string)
    requires mark !in before
    ensures var s := before + [mark] + after;
      FindChar(s, mark) == |before| && s[..|before|] == before && s[|before| + 1..] == after
  {
    var s := before + [mark] + after;
    assert s[|before|] == mark;
    forall i | 0 <= i < |before| ensures s[i] != mark { assert s[i] == before[i]; }
  }
}
