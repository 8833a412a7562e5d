/** The string helpers of the `aa` library (src/include/aa/internal.hpp):
    a prefix test and a delimiter join. Each is an imperative method proved
    against a pure definition, and the pure definitions carry the lemmas. */
module Internal {

  /** `strings` joined with `delimiter`, built left to right the way `join`
      appends to its stream: the first element, then delimiter and element. */
  function Joined(strings: seq<string>, delimiter: string): string
    decreases |strings|
  {
    if |strings| == 0 then ""
    else if |strings| == 1 then strings[0]
    else Joined(strings[..|strings| - 1], delimiter) + delimiter + strings[|strings| - 1]
  }

  /** Reference definition: `delimiter + x` for every x, front to back. */
  function Delimited(strings: seq<string>, delimiter: string): string
  {
    if strings == [] then "" else delimiter + strings[0] + Delimited(strings[1..], delimiter)
  }

  /** Reference definition of a join: the head, then a delimiter before each
      later element, so no delimiter leads or trails. */
  function Interleaved(strings: seq<string>, delimiter: string): string
  {
    if strings == [] then "" else strings[0] + Delimited(strings[1..], delimiter)
  }

  /** Sum of the lengths of the elements. */
  function TotalLength(strings: seq<string>): nat
  {
    if strings == [] then 0 else |strings[0]| + TotalLength(strings[1..])
  }

  /** Number of occurrences of `c` in `s`. */
  function Occurrences(s: string, c: char): nat
  {
    if s == [] then 0 else (if s[0] == c then 1 else 0) + Occurrences(s[1..], c)
  }

  /** `internal::startsWith`: an early length test, then a character loop. */
  method StartsWith(s: string, prefix: string) returns (b: bool)
    ensures b <==> |prefix| <= |s| && forall i :: 0 <= i < |prefix| ==> s[i] == prefix[i]
    ensures b <==> prefix <= s
    ensures |s| < |prefix| ==> !b
  {
    if |s| < |prefix| {
      return false;
    }
    var i := 0;
    while i < |prefix|
      invariant 0 <= i <= |prefix|
      invariant forall j :: 0 <= j < i ==> s[j] == prefix[j]
    {
      if s[i] != prefix[i] {
        return false;
      }
      i := i + 1;
    }
    assert prefix == s[..|prefix|];
    return true;
  }

  /** `internal::join`: stream the first element, then each later element
      preceded by the delimiter. */
  method Join(strings: seq<string>, delimiter: string) returns (r: string)
    ensures r == Joined(strings, delimiter)
  {
    r := "";
    if |strings| > 0 {
      r := strings[0];
      var k := 1;
      while k < |strings|
        invariant 1 <= k <= |strings|
        invariant r == Joined(strings[..k], delimiter)
      {
        assert strings[..k + 1][..k] == strings[..k];
        r := r + delimiter + strings[k];
        k := k + 1;
      }
      assert strings[..k] == strings;
    }
  }

  /** Joining no strings gives the empty string; joining one gives it back. */
  lemma JoinedSmall(strings: seq<string>, delimiter: string)
    ensures |strings| == 0 ==> Joined(strings, delimiter) == ""
    ensures |strings| == 1 ==> Joined(strings, delimiter) == strings[0]
  {
  }

  lemma {:induction false} DelimitedSnoc(strings: seq<string>, last: string, delimiter: string)
    ensures Delimited(strings + [last], delimiter) == Delimited(strings, delimiter) + delimiter + last
    decreases |strings|
  {
    if strings == [] {
      assert Delimited([last], delimiter) == delimiter + last + Delimited([], delimiter);
    } else {
      assert (strings + [last])[1..] == strings[1..] + [last];
      DelimitedSnoc(strings[1..], last, delimiter);
    }
  }

  /** The stream-built join agrees with the reference definition: the
      elements in order with one delimiter between adjacent elements and
      none leading or trailing. */
  lemma {:induction false} JoinedIsInterleaved(strings: seq<string>, delimiter: string)
    ensures Joined(strings, delimiter) == Interleaved(strings, delimiter)
    decreases |strings|
  {
    if |strings| == 1 {
      assert strings[1..] == [];
    } else if |strings| > 1 {
      var init := strings[..|strings| - 1];
      var last := strings[|strings| - 1];
      JoinedIsInterleaved(init, delimiter);
      assert strings[1..] == init[1..] + [last];
      DelimitedSnoc(init[1..], last, delimiter);
    }
  }

  lemma {:induction false} DelimitedLength(strings: seq<string>, delimiter: string)
    ensures |Delimited(strings, delimiter)| == TotalLength(strings) + |strings| * |delimiter|
    decreases |strings|
  {
    if strings != [] {
      DelimitedLength(strings[1..], delimiter);
    }
  }

  /** For n >= 1 strings the join is as long as the strings together plus
      n - 1 delimiters. */
  lemma JoinedLength(strings: seq<string>, delimiter: string)
    requires |strings| >= 1
    ensures |Joined(strings, delimiter)| == TotalLength(strings) + (|strings| - 1) * |delimiter|
  {
    JoinedIsInterleaved(strings, delimiter);
    DelimitedLength(strings[1..], delimiter);
  }

  /** A non-empty join begins with its first element. */
  lemma JoinedStartsWithHead(strings: seq<string>, delimiter: string)
    requires |strings| >= 1
    ensures strings[0] <= Joined(strings, delimiter)
  {
    JoinedIsInterleaved(strings, delimiter);
  }

  lemma {:induction false} OccurrencesAppend(a: string, b: string, c: char)
    ensures Occurrences(a + b, c) == Occurrences(a, c) + Occurrences(b, c)
    decreases |a|
  {
    if a == [] {
      assert a + b == b;
    } else {
      assert (a + b)[1..] == a[1..] + b;
      OccurrencesAppend(a[1..], b, c);
    }
  }

  lemma {:induction false} OccurrencesDelimited(strings: seq<string>, delimiter: string, c: char)
    requires Occurrences(delimiter, c) == 0
    requires forall s :: s in strings ==> Occurrences(s, c) == 0
    ensures Occurrences(Delimited(strings, delimiter), c) == 0
    decreases |strings|
  {
    if strings != [] {
      OccurrencesDelimited(strings[1..], delimiter, c);
      OccurrencesAppend(delimiter, strings[0], c);
      OccurrencesAppend(delimiter + strings[0], Delimited(strings[1..], delimiter), c);
    }
  }

  /** A join introduces no character that neither the strings nor the
      delimiter contain. */
  lemma OccurrencesJoined(strings: seq<string>, delimiter: string, c: char)
    requires Occurrences(delimiter, c) == 0
    requires forall s :: s in strings ==> Occurrences(s, c) == 0
    ensures Occurrences(Joined(strings, delimiter), c) == 0
  {
    JoinedIsInterleaved(strings, delimiter);
    if strings != [] {
      OccurrencesDelimited(strings[1..], delimiter, c);
      OccurrencesAppend(strings[0], Delimited(strings[1..], delimiter), c);
    }
  }
}
