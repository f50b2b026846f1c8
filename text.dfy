/**
 * The few Python `str` operations the core relies on: `startswith`, substring
 * search, `split` with an explicit separator, `join`, `strip`, `lower` and the
 * decimal rendering of an `int` inside an f-string.
 */
module Text {
  import opened Wrappers

  // ---------------------------------------------------------------------------
  // Prefixes and substrings
  // ---------------------------------------------------------------------------

  /** `s.startswith(p)`. */
  predicate StartsWith(s: string, p: string) {
    |p| <= |s| && s[..|p|] == p
  }

  /** `needle in hay`, searched left to right. */
  predicate Contains(hay: string, needle: string)
    decreases |hay|
  {
    StartsWith(hay, needle) || (|hay| > 0 && Contains(hay[1..], needle))
  }

  /** `needle` occurs in `hay` at position `i`. */
  ghost predicate OccursAt(hay: string, needle: string, i: int) {
    0 <= i && i + |needle| <= |hay| && hay[i..i + |needle|] == needle
  }

  /** An occurrence at position 0 is a prefix. */
  lemma OccursAtZero(hay: string, needle: string)
    ensures OccursAt(hay, needle, 0) ==> StartsWith(hay, needle)
  {
  }

  /** Moving one character to the right shifts every occurrence by one. */
  lemma OccursShift(s: string, sep: string, j: int)
    requires |s| > 0 && OccursAt(s, sep, j) && j > 0
    ensures OccursAt(s[1..], sep, j - 1)
  {
    assert s[1..][j - 1..j - 1 + |sep|] == s[j..j + |sep|];
  }

  /** An occurrence in the tail is an occurrence one position further on. */
  lemma OccursUnshift(s: string, sep: string, j: int)
    requires |s| > 0 && OccursAt(s[1..], sep, j)
    ensures OccursAt(s, sep, j + 1)
  {
    assert s[1..][j..j + |sep|] == s[j + 1..j + 1 + |sep|];
  }

  /** Occurrences inside a prefix are occurrences in the whole text, and back. */
  lemma OccursInPrefix(s: string, i: int, sep: string, j: int)
    requires 0 <= i <= |s|
    ensures OccursAt(s[..i], sep, j) <==> OccursAt(s, sep, j) && j + |sep| <= i
  {
    if 0 <= j && j + |sep| <= i {
      assert s[..i][j..j + |sep|] == s[j..j + |sep|];
    }
  }

  /** The search agrees with the positional definition of a substring. */
  lemma {:induction false} ContainsIff(hay: string, needle: string)
    ensures Contains(hay, needle) <==> exists i :: OccursAt(hay, needle, i)
    decreases |hay|
  {
    if |hay| > 0 {
      ContainsIff(hay[1..], needle);
    }
    forall i | OccursAt(hay, needle, i) ensures Contains(hay, needle) {
      OccursAtZero(hay, needle);
      if i > 0 {
        OccursShift(hay, needle, i);
      }
    }
    if Contains(hay, needle) {
      if StartsWith(hay, needle) {
        assert hay[..|needle|] == hay[0..0 + |needle|];
        assert OccursAt(hay, needle, 0);
      } else {
        var i :| OccursAt(hay[1..], needle, i);
        OccursUnshift(hay, needle, i);
      }
    }
  }

  /** A string written at a known position of a larger one is contained in it. */
  lemma ContainsAt(hay: string, needle: string, i: int)
    requires OccursAt(hay, needle, i)
    ensures Contains(hay, needle)
  {
    ContainsIff(hay, needle);
  }

  /** Whatever is glued around a string, the string is still contained in the result. */
  lemma ContainsInside(before: string, needle: string, after: string)
    ensures Contains(before + needle + after, needle)
  {
    var hay := before + needle + after;
    assert hay[|before|..|before| + |needle|] == needle;
    ContainsAt(hay, needle, |before|);
  }

  /** `s.endswith(p)`. */
  predicate EndsWith(s: string, p: string) {
    |p| <= |s| && s[|s| - |p|..] == p
  }

  /** A prefix of `a` is a prefix of anything `a` starts. */
  lemma StartsWithExtended(a: string, b: string, p: string)
    requires StartsWith(a, p)
    ensures StartsWith(a + b, p)
  {
    assert (a + b)[..|p|] == a[..|p|];
  }

  lemma EndsWithConcat(a: string, b: string)
    ensures EndsWith(a + b, b)
  {
    assert (a + b)[|a + b| - |b|..] == b;
  }

  /** `c` is not among the characters of `s`. */
  predicate Lacks(s: string, c: char) {
    forall k :: 0 <= k < |s| ==> s[k] != c
  }
  lemma LacksConcat(a: string, b: string, c: char)
    requires Lacks(a, c) && Lacks(b, c)
    ensures Lacks(a + b, c)
  {
    forall k | 0 <= k < |a + b| ensures (a + b)[k] != c {
      if k >= |a| {
        assert (a + b)[k] == b[k - |a|];
      }
    }
  }


  lemma OccursOne(s: string, c: char, i: int)
    ensures OccursAt(s, [c], i) ==> 0 <= i < |s| && s[i] == c
  {
    if OccursAt(s, [c], i) {
      assert s[i..i + 1][0] == s[i];
    }
  }

  /** A one-character needle is found exactly where that character is. */
  lemma LacksNotContains(s: string, c: char)
    ensures Lacks(s, c) <==> !Contains(s, [c])
  {
    ContainsIff(s, [c]);
    if Lacks(s, c) {
      forall i: int
        ensures !OccursAt(s, [c], i)
      {
        OccursOne(s, c, i);
      }
    } else {
      var k :| 0 <= k < |s| && s[k] == c;
      assert s[k..k + 1] == [c];
      assert OccursAt(s, [c], k);
    }
  }

  /** Text put in front keeps an occurrence. */
  lemma ContainsPrefixed(before: string, hay: string, needle: string)
    requires Contains(hay, needle)
    ensures Contains(before + hay, needle)
  {
    ContainsIff(hay, needle);
    var i :| OccursAt(hay, needle, i);
    var s := before + hay;
    assert s[|before| + i..|before| + i + |needle|] == hay[i..i + |needle|];
    ContainsAt(s, needle, |before| + i);
  }

  /** Text put behind keeps an occurrence. */
  lemma ContainsSuffixed(hay: string, after: string, needle: string)
    requires Contains(hay, needle)
    ensures Contains(hay + after, needle)
  {
    ContainsIff(hay, needle);
    var i :| OccursAt(hay, needle, i);
    var s := hay + after;
    assert s[i..i + |needle|] == hay[i..i + |needle|];
    ContainsAt(s, needle, i);
  }

  /** An occurrence of `needle` carries each adjacent pair of its characters. */
  lemma OccursPair(hay: string, needle: string, i: int, k: int)
    requires 0 <= k < |needle| - 1
    ensures OccursAt(hay, needle, i) ==>
      0 <= i + k && i + k + 1 < |hay| && hay[i + k] == needle[k] && hay[i + k + 1] == needle[k + 1]
  {
    if OccursAt(hay, needle, i) {
      assert hay[i..i + |needle|][k] == needle[k];
      assert hay[i..i + |needle|][k + 1] == needle[k + 1];
    }
  }

  /** `x` is never immediately followed by `y` in `s`. */
  predicate PairAbsent(s: string, x: char, y: char) {
    forall j :: 0 <= j < |s| - 1 ==> !(s[j] == x && s[j + 1] == y)
  }

  /** Two texts without the pair, not forming it where they meet, concatenate to a text without it. */
  lemma PairAbsentConcat(a: string, b: string, x: char, y: char)
    requires PairAbsent(a, x, y) && PairAbsent(b, x, y)
    requires |a| > 0 && |b| > 0 ==> !(a[|a| - 1] == x && b[0] == y)
    ensures PairAbsent(a + b, x, y)
  {
    var s := a + b;
    forall j | 0 <= j < |s| - 1
      ensures !(s[j] == x && s[j + 1] == y)
    {
      if j + 1 < |a| {
        assert s[j] == a[j] && s[j + 1] == a[j + 1];
      } else if j >= |a| {
        assert s[j] == b[j - |a|] && s[j + 1] == b[j - |a| + 1];
      } else {
        assert s[j] == a[|a| - 1] && s[j + 1] == b[0];
      }
    }
  }

  /** A text in which some adjacent pair of `needle`'s characters never occurs does not contain `needle`. */
  lemma AbsentPairRulesOut(hay: string, needle: string, k: int)
    requires 0 <= k < |needle| - 1
    requires PairAbsent(hay, needle[k], needle[k + 1])
    ensures !Contains(hay, needle)
  {
    ContainsIff(hay, needle);
    forall i: int
      ensures !OccursAt(hay, needle, i)
    {
      OccursPair(hay, needle, i, k);
    }
  }

  // ---------------------------------------------------------------------------
  // Case folding, as SQL `lower()` does it on the default SQLite back end
  // ---------------------------------------------------------------------------

  function LowerChar(c: char): (r: char)
    ensures 'A' <= c <= 'Z' ==> r as int == c as int + 32
    ensures !('A' <= c <= 'Z') ==> r == c
  {
    if 'A' <= c <= 'Z' then (c as int + 32) as char else c
  }

  function Lower(s: string): (r: string)
    ensures |r| == |s|
    ensures forall i :: 0 <= i < |s| ==> r[i] == LowerChar(s[i])
  {
    seq(|s|, i requires 0 <= i < |s| => LowerChar(s[i]))
  }

  /**
   * A lower-case letter followed by a character that is not a letter is
   * missing from the folded text when neither case of it is in the text.
   */
  lemma LowerPairAbsent(s: string, x: char, y: char)
    requires 'a' <= x <= 'z' && !('A' <= y <= 'Z') && !('a' <= y <= 'z')
    requires PairAbsent(s, x, y) && PairAbsent(s, (x as int - 32) as char, y)
    ensures PairAbsent(Lower(s), x, y)
  {
    var r := Lower(s);
    forall j | 0 <= j < |r| - 1
      ensures !(r[j] == x && r[j + 1] == y)
    {
      assert r[j] == LowerChar(s[j]) && r[j + 1] == LowerChar(s[j + 1]);
    }
  }

  /** Case folding works character by character, so it distributes over concatenation. */
  lemma LowerConcat(a: string, b: string)
    ensures Lower(a + b) == Lower(a) + Lower(b)
  {
    assert forall i :: 0 <= i < |a + b| ==> Lower(a + b)[i] == (Lower(a) + Lower(b))[i];
  }

  /** `hay ILIKE '%' || needle || '%'`, wildcards inside `needle` aside. */
  predicate ContainsIgnoringCase(hay: string, needle: string) {
    Contains(Lower(hay), Lower(needle))
  }

  // ---------------------------------------------------------------------------
  // split and join with a non-empty separator
  // ---------------------------------------------------------------------------

  /** The first position at which `sep` occurs in `s`, as `s.find(sep)`. */
  function FirstIndex(s: string, sep: string): (r: Option<nat>)
    requires |sep| > 0
    ensures r.Some? ==> OccursAt(s, sep, r.value)
    ensures forall j :: OccursAt(s, sep, j) ==> r.Some? && r.value <= j
    decreases |s|
  {
    if |s| < |sep| then None
    else if s[..|sep|] == sep then Some(0)
    else
      assert forall j :: OccursAt(s, sep, j) ==> j > 0 && OccursAt(s[1..], sep, j - 1) by {
        forall j | OccursAt(s, sep, j) ensures j > 0 && OccursAt(s[1..], sep, j - 1) {
          OccursAtZero(s, sep);
          OccursShift(s, sep, j);
        }
      }
      match FirstIndex(s[1..], sep)
      case None => None
      case Some(i) =>
        assert s[1..][i..i + |sep|] == s[i + 1..i + 1 + |sep|];
        Some(i + 1)
  }

  /** `s.split(sep)` for a non-empty separator. */
  function Split(s: string, sep: string): (parts: seq<string>)
    requires |sep| > 0
    ensures |parts| >= 1
    decreases |s|
  {
    match FirstIndex(s, sep)
    case None => [s]
    case Some(i) => [s[..i]] + Split(s[i + |sep|..], sep)
  }

  /** `sep.join(parts)`. */
  function Join(parts: seq<string>, sep: string): string
    decreases |parts|
  {
    if |parts| == 0 then ""
    else if |parts| == 1 then parts[0]
    else parts[0] + sep + Join(parts[1..], sep)
  }

  lemma JoinCons(p: string, rest: seq<string>, sep: string)
    requires |rest| >= 1
    ensures Join([p] + rest, sep) == p + sep + Join(rest, sep)
  {
    assert ([p] + rest)[1..] == rest;
  }

  /** Every part of a join stands in it between some text before and some text after. */
  lemma {:induction false} JoinHasPart(parts: seq<string>, sep: string, i: int)
    requires 0 <= i < |parts|
    ensures exists before, after :: Join(parts, sep) == before + parts[i] + after
    decreases |parts|
  {
    if |parts| == 1 {
      assert Join(parts, sep) == "" + parts[0] + "";
    } else if i == 0 {
      assert Join(parts, sep) == "" + parts[0] + (sep + Join(parts[1..], sep));
    } else {
      JoinHasPart(parts[1..], sep, i - 1);
      var before, after :| Join(parts[1..], sep) == before + parts[1..][i - 1] + after;
      assert Join(parts, sep) == (parts[0] + sep + before) + parts[i] + after;
    }
  }

  /** Joining the pieces of a split with the same separator gives back the text. */
  lemma {:induction false} JoinSplit(s: string, sep: string)
    requires |sep| > 0
    ensures Join(Split(s, sep), sep) == s
    decreases |s|
  {
    match FirstIndex(s, sep)
    case None =>
    case Some(i) =>
      var rest := Split(s[i + |sep|..], sep);
      JoinSplit(s[i + |sep|..], sep);
      JoinCons(s[..i], rest, sep);
      assert s[i..i + |sep|] == sep;
      assert s == s[..i] + sep + s[i + |sep|..];
  }

  /** No piece of a split contains the separator. */
  lemma {:induction false} SplitPiecesLackSeparator(s: string, sep: string)
    requires |sep| > 0
    ensures forall k :: 0 <= k < |Split(s, sep)| ==> !Contains(Split(s, sep)[k], sep)
    decreases |s|
  {
    var parts := Split(s, sep);
    match FirstIndex(s, sep)
    case None =>
      ContainsIff(s, sep);
    case Some(i) =>
      SplitPiecesLackSeparator(s[i + |sep|..], sep);
      ContainsIff(s[..i], sep);
      forall j ensures !OccursAt(s[..i], sep, j) {
        OccursInPrefix(s, i, sep, j);
      }
      forall k | 0 <= k < |parts| ensures !Contains(parts[k], sep) {
        if k > 0 {
          assert parts[k] == Split(s[i + |sep|..], sep)[k - 1];
        }
      }
  }

  /**
   * Pieces that do not contain a one-character separator, joined around it,
   * split back into themselves.
   */
  /** Splitting `p + sep + t` on a one-character separator absent from `p` cuts off `p` first. */
  lemma SplitFirstPiece(p: string, sep: string, t: string)
    requires |sep| == 1
    requires forall j :: !OccursAt(p, sep, j)
    ensures Split(p + sep + t, sep) == [p] + Split(t, sep)
  {
    var s := p + sep + t;
    assert s[..|p|] == p;
    assert s[|p|..|p| + |sep|] == sep;
    assert OccursAt(s, sep, |p|);
    forall j | 0 <= j < |p| ensures !OccursAt(s, sep, j) {
      OccursInPrefix(s, |p|, sep, j);
    }
    assert FirstIndex(s, sep) == Some(|p|);
    assert s[|p| + |sep|..] == t;
  }

  lemma {:induction false} SplitJoin(parts: seq<string>, sep: string)
    requires |sep| == 1 && |parts| >= 1
    requires forall k :: 0 <= k < |parts| ==> !Contains(parts[k], sep)
    ensures Split(Join(parts, sep), sep) == parts
    decreases |parts|
  {
    var p := parts[0];
    assert forall j :: !OccursAt(p, sep, j) by {
      ContainsIff(p, sep);
    }
    if |parts| == 1 {
      assert FirstIndex(p, sep).None?;
    } else {
      var rest := parts[1..];
      assert parts == [p] + rest;
      JoinCons(p, rest, sep);
      SplitJoin(rest, sep);
      SplitFirstPiece(p, sep, Join(rest, sep));
    }
  }

  /** The number of times `c` occurs in `s`, as `s.count(c)`. */
  function CountChar(s: string, c: char): nat {
    multiset(s)[c]
  }

  /** A split on one character yields one more piece than there are separators. */
  lemma {:induction false} SplitCount(s: string, c: char)
    ensures |Split(s, [c])| == CountChar(s, c) + 1
    decreases |s|
  {
    var sep := [c];
    match FirstIndex(s, sep)
    case None =>
      forall j | 0 <= j < |s| ensures s[j] != c {
        assert s[j..j + 1] == [s[j]];
        assert !OccursAt(s, sep, j);
      }
      assert c !in multiset(s);
    case Some(i) =>
      SplitCount(s[i + 1..], c);
      assert s[i..i + 1] == sep;
      assert s == s[..i] + [c] + s[i + 1..];
      forall j | 0 <= j < i ensures s[..i][j] != c {
        assert s[j..j + 1] == [s[j]];
        assert !OccursAt(s, sep, j);
      }
      assert c !in multiset(s[..i]);
      calc {
        multiset(s)[c];
        (multiset(s[..i]) + multiset([c]) + multiset(s[i + 1..]))[c];
        1 + multiset(s[i + 1..])[c];
      }
  }

  // ---------------------------------------------------------------------------
  // strip
  // ---------------------------------------------------------------------------

  /** Python's `str.isspace()` for one character. */
  predicate IsSpace(c: char) {
    || '\t' <= c <= '\r'
    || '\U{1C}' <= c <= '\U{1F}'
    || c == ' ' || c == '\U{85}' || c == '\U{A0}' || c == '\U{1680}'
    || '\U{2000}' <= c <= '\U{200A}'
    || c == '\U{2028}' || c == '\U{2029}' || c == '\U{202F}' || c == '\U{205F}' || c == '\U{3000}'
  }

  /** The number of leading whitespace characters. */
  function LeadingSpaces(s: string): (n: nat)
    ensures n <= |s|
    ensures forall k :: 0 <= k < n ==> IsSpace(s[k])
    ensures n < |s| ==> !IsSpace(s[n])
    decreases |s|
  {
    if |s| > 0 && IsSpace(s[0]) then 1 + LeadingSpaces(s[1..]) else 0
  }

  /** The length of `s` once its trailing whitespace is dropped. */
  function TrailingStart(s: string): (n: nat)
    ensures n <= |s|
    ensures forall k :: n <= k < |s| ==> IsSpace(s[k])
    ensures n > 0 ==> !IsSpace(s[n - 1])
    decreases |s|
  {
    if |s| > 0 && IsSpace(s[|s| - 1]) then TrailingStart(s[..|s| - 1]) else |s|
  }

  /** `r` is the slice of `s` starting at `i`, with only whitespace around it. */
  ghost predicate TrimmedFrom(s: string, r: string, i: int) {
    && 0 <= i && i + |r| <= |s| && s[i..i + |r|] == r
    && (forall k :: 0 <= k < i ==> IsSpace(s[k]))
    && (forall k :: i + |r| <= k < |s| ==> IsSpace(s[k]))
  }

  /** `s.strip()`: the text with whitespace removed from both ends. */
  function Strip(s: string): (r: string)
    ensures |r| <= |s|
    ensures r != [] ==> !IsSpace(r[0]) && !IsSpace(r[|r| - 1])
    ensures r == [] ==> forall k :: 0 <= k < |s| ==> IsSpace(s[k])
    ensures exists i :: TrimmedFrom(s, r, i)
  {
    var i := LeadingSpaces(s);
    var j := TrailingStart(s);
    if i < j then
      var r := s[i..j];
      assert r[0] == s[i] && r[|r| - 1] == s[j - 1];
      assert s[i..i + |r|] == r;
      assert TrimmedFrom(s, r, i);
      r
    else
      var r: string := [];
      assert s[0..0 + |r|] == r;
      assert TrimmedFrom(s, r, 0);
      r
  }

  /** Stripping twice is stripping once. */
  lemma StripIdempotent(s: string)
    ensures Strip(Strip(s)) == Strip(s)
  {
    var r := Strip(s);
    if r != [] {
      assert LeadingSpaces(r) == 0;
      assert TrailingStart(r) == |r|;
      assert r[0..|r|] == r;
    }
  }

  // ---------------------------------------------------------------------------
  // Decimal rendering of integers, as in `f"{n}"`
  // ---------------------------------------------------------------------------

  predicate IsDigit(c: char) {
    '0' <= c <= '9'
  }

  function DigitChar(d: nat): (c: char)
    requires d < 10
    ensures IsDigit(c)
  {
    ('0' as int + d) as char
  }

  /** The decimal digits of `n`, most significant first, without leading zeros. */
  function NatToString(n: nat): (r: string)
    decreases n
  {
    if n < 10 then [DigitChar(n)] else NatToString(n / 10) + [DigitChar(n % 10)]
  }

  /** `str(i)` for a Python `int`. */
  function IntToString(i: int): string {
    if i < 0 then "-" + NatToString(-i) else NatToString(i)
  }

  /** The value of a string of decimal digits. */
  function DigitsValue(s: string): nat
    requires forall k :: 0 <= k < |s| ==> IsDigit(s[k])
  {
    if s == [] then 0
    else
      assert IsDigit(s[|s| - 1]);
      DigitsValue(s[..|s| - 1]) * 10 + (s[|s| - 1] as int - '0' as int)
  }

  /** Rendering is canonical decimal and reading the digits back gives the number. */
  lemma {:induction false} NatToStringRoundTrip(n: nat)
    ensures |NatToString(n)| >= 1
    ensures forall k :: 0 <= k < |NatToString(n)| ==> IsDigit(NatToString(n)[k])
    ensures NatToString(n)[0] == '0' <==> n == 0
    ensures DigitsValue(NatToString(n)) == n
    decreases n
  {
    if n >= 10 {
      NatToStringRoundTrip(n / 10);
      var r := NatToString(n);
      assert r[..|r| - 1] == NatToString(n / 10);
      assert r[0] == NatToString(n / 10)[0];
    }
  }

  /** The rendering of an integer starts with a minus sign exactly when it is negative. */
  lemma IntToStringSign(i: int)
    ensures |IntToString(i)| >= 1
    ensures IntToString(i)[0] == '-' <==> i < 0
  {
    NatToStringRoundTrip(if i < 0 then -i else i);
  }

  /** `str` on integers is injective: different ids print differently. */
  lemma IntToStringInjective(a: int, b: int)
    requires IntToString(a) == IntToString(b)
    ensures a == b
  {
    IntToStringSign(a);
    IntToStringSign(b);
    if a < 0 {
      assert NatToString(-a) == IntToString(a)[1..];
      assert NatToString(-b) == IntToString(b)[1..];
      NatToStringRoundTrip(-a);
      NatToStringRoundTrip(-b);
    } else {
      NatToStringRoundTrip(a);
      NatToStringRoundTrip(b);
    }
  }
}
