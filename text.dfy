/** The parts of .NET's `System.String` that the application relies on:
    `Trim`, `ToLower`, `StartsWith` (ordinal and ignoring case), `Contains`,
    `Split(',')`, `string.Join`, and an ordinal order with a sort for it. */
module Text {

  /** `char.IsWhiteSpace`: the Unicode White_Space characters. */
  predicate IsWhiteSpace(c: char) {
    ('\U{0009}' <= c <= '\U{000D}') || c == ' ' || c == '\U{0085}' || c == '\U{00A0}' ||
    c == '\U{1680}' || ('\U{2000}' <= c <= '\U{200A}') || c == '\U{2028}' || c == '\U{2029}' ||
    c == '\U{202F}' || c == '\U{205F}' || c == '\U{3000}'
  }

  predicate AllWhiteSpace(s: string) {
    forall i :: 0 <= i < |s| ==> IsWhiteSpace(s[i])
  }

  /** Neither end of `s` is white space: the shape of every `Trim()` result. */
  predicate IsTrimmed(s: string) {
    s == [] || (!IsWhiteSpace(s[0]) && !IsWhiteSpace(s[|s| - 1]))
  }

  /** `TrimStart()`: the suffix of `s` left after dropping leading white space. */
  function TrimStart(s: string): (r: string)
    ensures |r| <= |s|
    decreases |s|
  {
    if s != [] && IsWhiteSpace(s[0]) then TrimStart(s[1..]) else s
  }

  /** `TrimEnd()`: the prefix of `s` left after dropping trailing white space. */
  function TrimEnd(s: string): (r: string)
    ensures |r| <= |s|
    decreases |s|
  {
    if s != [] && IsWhiteSpace(s[|s| - 1]) then TrimEnd(s[..|s| - 1]) else s
  }

  /** `TrimStart` removes a leading run of white space and nothing else. */
  lemma {:induction false} TrimStartShape(s: string)
    ensures var r := TrimStart(s);
      && r == s[|s| - |r|..]
      && (r == [] || !IsWhiteSpace(r[0]))
      && AllWhiteSpace(s[..|s| - |r|])
    decreases |s|
  {
    if s != [] && IsWhiteSpace(s[0]) {
      TrimStartShape(s[1..]);
      var r := TrimStart(s);
      assert s[..|s| - |r|] == [s[0]] + s[1..][..|s| - 1 - |r|];
    }
  }

  /** `TrimEnd` removes a trailing run of white space and nothing else. */
  lemma {:induction false} TrimEndShape(s: string)
    ensures var r := TrimEnd(s);
      && r == s[..|r|]
      && (r == [] || !IsWhiteSpace(r[|r| - 1]))
      && AllWhiteSpace(s[|r|..])
    decreases |s|
  {
    if s != [] && IsWhiteSpace(s[|s| - 1]) {
      var init := s[..|s| - 1];
      TrimEndShape(init);
      var r := TrimEnd(s);
      assert s[|r|..] == init[|r|..] + [s[|s| - 1]];
    }
  }

  /** `Trim()`: white space removed from both ends. */
  function Trim(s: string): (r: string)
    ensures |r| <= |s|
  {
    TrimEnd(TrimStart(s))
  }

  /** `Trim` yields characters of `s` only, with no white space at either end, and
      yields "" exactly for a string of white space only. */
  lemma TrimShape(s: string)
    ensures var r := Trim(s);
      && IsTrimmed(r)
      && (forall i :: 0 <= i < |r| ==> r[i] in s)
      && (r == [] <==> AllWhiteSpace(s))
  {
    var t := TrimStart(s);
    TrimStartShape(s);
    TrimEndShape(t);
    var r := Trim(s);
    var k := |s| - |t|;
    forall i | 0 <= i < |r| ensures r[i] in s {
      assert r[i] == t[i] == s[k + i];
    }
    if r == [] {
      assert t[|r|..] == t;
      assert s == s[..k] + t;
    }
    if t != [] {
      assert t[0] == s[k];
    }
    if r != [] {
      assert r[0] == t[0];
    }
  }

  /** Trimming never introduces a character. */
  lemma TrimKeepsAbsent(s: string, c: char)
    requires c !in s
    ensures c !in Trim(s)
  {
    TrimShape(s);
  }

  /** Trimming changes nothing on a string whose ends are not white space. */
  lemma TrimOfTrimmed(s: string)
    requires IsTrimmed(s)
    ensures Trim(s) == s
  {
  }

  lemma {:induction false} TrimStartPadded(pad: string, x: string)
    requires AllWhiteSpace(pad)
    requires x == [] || !IsWhiteSpace(x[0])
    ensures TrimStart(pad + x) == x
  {
    if pad != [] {
      assert (pad + x)[1..] == pad[1..] + x;
      TrimStartPadded(pad[1..], x);
    } else {
      assert pad + x == x;
    }
  }

  /** White space put in front of a trimmed string is exactly what `Trim` removes. */
  lemma TrimPadded(pad: string, x: string)
    requires AllWhiteSpace(pad) && IsTrimmed(x)
    ensures Trim(pad + x) == x
  {
    TrimStartPadded(pad, x);
  }

  /** `Char.ToLower` on the Latin letters the data uses: A-Z and the Latin-1
      capitals (Å, Ä, Ö, ...); every other character is left as it is. */
  function LowerChar(c: char): char {
    if 'A' <= c <= 'Z' || ('À' <= c <= 'Þ' && c != '×')
    then (c as int + 32) as char
    else c
  }

  /** `String.ToLower()`, character by character. */
  function Lower(s: string): (r: string)
    ensures |r| == |s|
  {
    seq(|s|, i requires 0 <= i < |s| => LowerChar(s[i]))
  }

  lemma LowerPrefix(s: string, k: nat)
    requires k <= |s|
    ensures Lower(s[..k]) == Lower(s)[..k]
  {
  }

  lemma LowerAppend(a: string, b: string)
    ensures Lower(a + b) == Lower(a) + Lower(b)
  {
  }

  /** `s.StartsWith(p)`, ordinal. */
  predicate StartsWith(s: string, p: string) {
    |p| <= |s| && s[..|p|] == p
  }

  /** `s.StartsWith(p, StringComparison.OrdinalIgnoreCase)`. */
  predicate StartsWithIgnoreCase(s: string, p: string) {
    |p| <= |s| && Lower(s[..|p|]) == Lower(p)
  }

  /** `a.Equals(b, StringComparison.OrdinalIgnoreCase)`. */
  predicate EqualsIgnoreCase(a: string, b: string) {
    Lower(a) == Lower(b)
  }

  /** A string starts, ignoring case, with itself followed by anything. */
  lemma StartsWithIgnoreCaseOwnPrefix(p: string, rest: string)
    ensures StartsWithIgnoreCase(p + rest, p)
  {
    assert (p + rest)[..|p|] == p;
  }

  /** `s.Contains(sub)`, ordinal: `sub` occurs somewhere in `s`. */
  predicate Contains(s: string, sub: string)
    decreases |s|
  {
    StartsWith(s, sub) || (s != [] && Contains(s[1..], sub))
  }

  /** `s.IndexOf(c)`, with "not found" given as `|s|`. */
  function IndexOf(s: string, c: char): (i: nat)
    ensures i <= |s|
    ensures i < |s| ==> s[i] == c
    ensures forall j :: 0 <= j < i ==> s[j] != c
  {
    if s == [] || s[0] == c then 0 else 1 + IndexOf(s[1..], c)
  }

  /** `s.Split(c)`: the pieces between occurrences of `c`, empty pieces included;
      there is always at least one piece. */
  function Split(s: string, c: char): (r: seq<string>)
    ensures |r| >= 1
    ensures forall k :: 0 <= k < |r| ==> c !in r[k]
    decreases |s|
  {
    var i := IndexOf(s, c);
    if i == |s| then [s] else [s[..i]] + Split(s[i + 1..], c)
  }

  /** `string.Join(sep, xs)`. */
  function Join(sep: string, xs: seq<string>): string
    decreases |xs|
  {
    if xs == [] then ""
    else if |xs| == 1 then xs[0]
    else xs[0] + sep + Join(sep, xs[1..])
  }

  /** Joining the pieces of a split with the separator gives back the string. */
  lemma {:induction false} JoinSplit(s: string, c: char)
    ensures Join([c], Split(s, c)) == s
    decreases |s|
  {
    var i := IndexOf(s, c);
    if i < |s| {
      var rest := s[i + 1..];
      assert Split(s, c) == [s[..i]] + Split(rest, c);
      JoinSplit(rest, c);
      JoinCons(s[..i], Split(rest, c), [c]);
      assert s == s[..i] + [c] + rest;
    }
  }

  /** Joining a non-empty list behind a first piece puts one separator between them. */
  lemma JoinCons(x: string, xs: seq<string>, sep: string)
    requires xs != []
    ensures Join(sep, [x] + xs) == x + sep + Join(sep, xs)
  {
    assert ([x] + xs)[1..] == xs;
  }

  /** A string without the separator is one piece. */
  lemma SplitWithout(s: string, c: char)
    requires c !in s
    ensures Split(s, c) == [s]
  {
    assert IndexOf(s, c) == |s|;
  }

  /** Splitting peels off the text before the first separator. */
  lemma SplitAtFirst(head: string, tail: string, c: char)
    requires c !in head
    ensures Split(head + [c] + tail, c) == [head] + Split(tail, c)
  {
    var s := head + [c] + tail;
    assert s[|head|] == c;
    assert forall j :: 0 <= j < |head| ==> s[j] == head[j];
    assert IndexOf(s, c) == |head|;
    assert s[..|head|] == head;
    assert s[|head| + 1..] == tail;
  }

  lemma JoinUnfold(pre: string, xs: seq<string>, c: char, pad: string)
    requires |xs| >= 2
    ensures pre + Join([c] + pad, xs) == (pre + xs[0]) + [c] + (pad + Join([c] + pad, xs[1..]))
  {
    var j := Join([c] + pad, xs[1..]);
    calc {
      pre + Join([c] + pad, xs);
      pre + (xs[0] + ([c] + pad) + j);
      { assert xs[0] + ([c] + pad) + j == xs[0] + [c] + (pad + j); }
      pre + (xs[0] + [c] + (pad + j));
      (pre + xs[0]) + [c] + (pad + j);
    }
  }

  /** Splitting on `c` a join whose separator is `c` followed by `pad`: every piece
      after the first carries `pad` in front. (The application joins with ", " and
      splits on ','.) */
  lemma {:induction false} SplitJoinPadded(pre: string, xs: seq<string>, c: char, pad: string)
    requires |xs| >= 1
    requires c !in pre && c !in pad
    requires forall k :: 0 <= k < |xs| ==> c !in xs[k]
    ensures |Split(pre + Join([c] + pad, xs), c)| == |xs|
    ensures Split(pre + Join([c] + pad, xs), c)[0] == pre + xs[0]
    ensures forall k :: 1 <= k < |xs| ==> Split(pre + Join([c] + pad, xs), c)[k] == pad + xs[k]
    decreases |xs|
  {
    var s := pre + Join([c] + pad, xs);
    if |xs| == 1 {
      assert s == pre + xs[0];
      SplitWithout(s, c);
    } else {
      var head := pre + xs[0];
      var tail := pad + Join([c] + pad, xs[1..]);
      JoinUnfold(pre, xs, c, pad);
      SplitAtFirst(head, tail, c);
      SplitJoinPadded(pad, xs[1..], c, pad);
      var r, rt := Split(s, c), Split(tail, c);
      assert r == [head] + rt;
      forall k | 1 <= k < |xs| ensures r[k] == pad + xs[k] {
        assert r[k] == rt[k - 1];
        assert xs[1..][k - 1] == xs[k];
      }
    }
  }

  /** The ordinal order on strings (lexicographic on character codes); stands for
      .NET's default string comparer. */
  predicate LessEq(a: string, b: string)
    decreases |a|
  {
    a == [] || (b != [] && (a[0] < b[0] || (a[0] == b[0] && LessEq(a[1..], b[1..]))))
  }

  lemma LessEqTotal(a: string, b: string)
    ensures LessEq(a, b) || LessEq(b, a)
  {
  }

  lemma LessEqTransitive(a: string, b: string, c: string)
    requires LessEq(a, b) && LessEq(b, c)
    ensures LessEq(a, c)
  {
  }

  /** Strings with a common prefix (full paths in one folder) compare as their rests do. */
  lemma {:induction false} LessEqCommonPrefix(p: string, a: string, b: string)
    ensures LessEq(p + a, p + b) <==> LessEq(a, b)
  {
    if p != [] {
      assert (p + a)[1..] == p[1..] + a && (p + b)[1..] == p[1..] + b;
      LessEqCommonPrefix(p[1..], a, b);
    } else {
      assert p + a == a && p + b == b;
    }
  }

  predicate SortedStrings(s: seq<string>) {
    forall i, j :: 0 <= i < j < |s| ==> LessEq(s[i], s[j])
  }

  function InsertString(x: string, s: seq<string>): seq<string> {
    if s == [] then [x]
    else if LessEq(x, s[0]) then [x] + s
    else [s[0]] + InsertString(x, s[1..])
  }

  lemma {:induction false} InsertStringPermutes(x: string, s: seq<string>)
    ensures multiset(InsertString(x, s)) == multiset(s) + multiset{x}
  {
    if s != [] && !LessEq(x, s[0]) {
      InsertStringPermutes(x, s[1..]);
      assert s == [s[0]] + s[1..];
    }
  }

  lemma {:induction false} InsertStringSorted(x: string, s: seq<string>)
    requires SortedStrings(s)
    ensures SortedStrings(InsertString(x, s))
  {
    if s == [] {
    } else if LessEq(x, s[0]) {
      forall j | 0 < j < |s| ensures LessEq(x, s[j]) {
        LessEqTransitive(x, s[0], s[j]);
      }
      var r := [x] + s;
      assert forall j :: 0 < j < |r| ==> r[j] == s[j - 1];
    } else {
      var t := InsertString(x, s[1..]);
      InsertStringSorted(x, s[1..]);
      InsertStringPermutes(x, s[1..]);
      LessEqTotal(x, s[0]);
      forall k | 0 <= k < |t| ensures LessEq(s[0], t[k]) {
        assert t[k] in multiset(t);
        if t[k] != x {
          assert t[k] in multiset(s[1..]);
          var j :| 0 <= j < |s[1..]| && s[1..][j] == t[k];
          assert s[j + 1] == t[k];
        }
      }
      var r := [s[0]] + t;
      assert forall k :: 0 < k < |r| ==> r[k] == t[k - 1];
    }
  }

  /** `List<string>.Sort()` / `OrderBy(c => c)` on strings: an insertion sort. */
  function SortStrings(s: seq<string>): seq<string> {
    if s == [] then [] else InsertString(s[0], SortStrings(s[1..]))
  }

  /** The sort yields an ordered permutation of its input. */
  lemma {:induction false} SortStringsSpec(s: seq<string>)
    ensures SortedStrings(SortStrings(s))
    ensures multiset(SortStrings(s)) == multiset(s)
  {
    if s != [] {
      SortStringsSpec(s[1..]);
      InsertStringSorted(s[0], SortStrings(s[1..]));
      InsertStringPermutes(s[0], SortStrings(s[1..]));
      assert s == [s[0]] + s[1..];
    }
  }
}
