/**
 * The few pieces of the JavaScript runtime that the application's logic leans on,
 * restricted to the values the application uses: `String(n)` and `Number(s)` on
 * integers, `Array.prototype.join`, `String.prototype.split` on a one-character
 * separator and on a longer marker, the default (code-unit) string order used by
 * `Array.prototype.sort()`, `[...new Set(xs)]`, and `slice` with its clamping of
 * negative and out-of-range indices.
 */
module JsText {
  import opened Wrappers

  // ---------------------------------------------------------------------------
  // Integers and their decimal text

  predicate IsDigit(c: char) {
    '0' <= c <= '9'
  }

  predicate AllDigits(s: string) {
    forall i :: 0 <= i < |s| ==> IsDigit(s[i])
  }

  function DigitChar(d: nat): (c: char)
    requires d < 10
    ensures IsDigit(c)
  {
    (('0' as int) + d) as char
  }

  function DigitValue(c: char): (d: nat)
    requires IsDigit(c)
    ensures d < 10
  {
    (c as int) - ('0' as int)
  }

  /** The decimal digits of `n`, most significant first, without leading zeros. */
  function NatToDigits(n: nat): (s: string)
    ensures |s| > 0 && AllDigits(s)
    decreases n
  {
    if n < 10 then [DigitChar(n)] else NatToDigits(n / 10) + [DigitChar(n % 10)]
  }

  /** The number a non-empty run of decimal digits denotes. */
  function DigitsValue(s: string): nat
    requires |s| > 0 && AllDigits(s)
    decreases |s|
  {
    if |s| == 1 then DigitValue(s[0])
    else DigitsValue(s[..|s| - 1]) * 10 + DigitValue(s[|s| - 1])
  }

  lemma {:induction false} DigitsRoundTrip(n: nat)
    ensures DigitsValue(NatToDigits(n)) == n
    decreases n
  {
    if n >= 10 {
      var s := NatToDigits(n);
      assert s[..|s| - 1] == NatToDigits(n / 10);
      DigitsRoundTrip(n / 10);
    }
  }

  /** `String(n)` for an integer `n`: an optional minus sign and the decimal digits. */
  function IntToString(n: int): (s: string)
    ensures |s| > 0
  {
    if n < 0 then "-" + NatToDigits(-n) else NatToDigits(n)
  }

  /**
   * `Number(s)` restricted to integer text: an optional minus sign followed by at
   * least one decimal digit. Every other text is `None` (JavaScript gives NaN, or
   * accepts further forms such as "1e3" or " 7 ", which this model leaves out).
   */
  function ParseInt(s: string): (r: Option<int>)
    ensures r.Some? ==> |s| > 0
  {
    if |s| > 1 && s[0] == '-' && AllDigits(s[1..]) then Some(0 - DigitsValue(s[1..]) as int)
    else if |s| > 0 && AllDigits(s) then Some(DigitsValue(s))
    else None
  }

  /** Reading back what `String(n)` wrote gives `n` again. */
  lemma IntToStringRoundTrip(n: int)
    ensures ParseInt(IntToString(n)) == Some(n)
  {
    var s := IntToString(n);
    if n < 0 {
      var digits := NatToDigits(-n);
      assert s == "-" + digits;
      assert s[0] == '-' && s[1..] == digits;
      DigitsRoundTrip(-n);
      assert ParseInt(s) == Some(0 - DigitsValue(digits) as int);
    } else {
      assert s == NatToDigits(n);
      assert IsDigit(s[0]);
      DigitsRoundTrip(n);
      assert ParseInt(s) == Some(DigitsValue(s));
    }
  }

  lemma IntToStringInjective(m: int, n: int)
    requires IntToString(m) == IntToString(n)
    ensures m == n
  {
    IntToStringRoundTrip(m);
    IntToStringRoundTrip(n);
  }

  // ---------------------------------------------------------------------------
  // join and split

  /** `xs.join(sep)`. */
  function Join(xs: seq<string>, sep: string): string
    decreases |xs|
  {
    if |xs| == 0 then "" else if |xs| == 1 then xs[0] else xs[0] + sep + Join(xs[1..], sep)
  }

  /** `s.split(c)` for a one-character separator: always at least one piece. */
  function Split(s: string, c: char): (pieces: seq<string>)
    ensures |pieces| >= 1
    decreases |s|
  {
    if |s| == 0 then [""]
    else
      var rest := Split(s[1..], c);
      if s[0] == c then [""] + rest else [[s[0]] + rest[0]] + rest[1..]
  }

  /** `xs.filter(Boolean)` on strings: drops the empty ones. */
  function NonEmpty(xs: seq<string>): (r: seq<string>)
    ensures forall i :: 0 <= i < |r| ==> r[i] != ""
    ensures forall x :: x in r <==> x in xs && x != ""
    decreases |xs|
  {
    if |xs| == 0 then [] else if xs[0] == "" then NonEmpty(xs[1..]) else [xs[0]] + NonEmpty(xs[1..])
  }

  lemma {:induction false} SplitWithout(a: string, c: char)
    requires c !in a
    ensures Split(a, c) == [a]
    decreases |a|
  {
    if |a| > 0 {
      SplitWithout(a[1..], c);
      assert [a[0]] + a[1..] == a;
    }
  }

  lemma {:induction false} SplitAround(a: string, c: char, b: string)
    requires c !in a
    ensures Split(a + [c] + b, c) == [a] + Split(b, c)
    decreases |a|
  {
    if |a| == 0 {
      assert a + [c] + b == [c] + b;
      assert ([c] + b)[1..] == b;
    } else {
      assert (a + [c] + b)[1..] == a[1..] + [c] + b;
      SplitAround(a[1..], c, b);
      assert [a[0]] + a[1..] == a;
    }
  }

  /** Splitting a joined list on the separator gives the list back, if no item holds the separator. */
  lemma {:induction false} SplitJoin(xs: seq<string>, c: char)
    requires |xs| >= 1
    requires forall i :: 0 <= i < |xs| ==> c !in xs[i]
    ensures Split(Join(xs, [c]), c) == xs
    decreases |xs|
  {
    if |xs| == 1 {
      SplitWithout(xs[0], c);
    } else {
      SplitJoin(xs[1..], c);
      SplitAround(xs[0], c, Join(xs[1..], [c]));
      assert [xs[0]] + xs[1..] == xs;
    }
  }

  lemma {:induction false} NonEmptyIdentity(xs: seq<string>)
    requires forall i :: 0 <= i < |xs| ==> xs[i] != ""
    ensures NonEmpty(xs) == xs
    decreases |xs|
  {
    if |xs| > 0 {
      NonEmptyIdentity(xs[1..]);
      assert [xs[0]] + xs[1..] == xs;
    }
  }

  /** No piece of a split holds the separator, and joining the pieces gives the text back. */
  lemma {:induction false} JoinSplit(s: string, c: char)
    ensures forall i :: 0 <= i < |Split(s, c)| ==> c !in Split(s, c)[i]
    ensures Join(Split(s, c), [c]) == s
    decreases |s|
  {
    if |s| > 0 {
      JoinSplit(s[1..], c);
      var rest := Split(s[1..], c);
      if s[0] == c {
        assert Split(s, c)[1..] == rest;
        if |rest| == 1 {
          assert Join(Split(s, c), [c]) == "" + [c] + rest[0];
        }
        assert s == [c] + s[1..];
      } else {
        var pieces := Split(s, c);
        assert pieces[0] == [s[0]] + rest[0];
        assert pieces[1..] == rest[1..];
        assert forall i :: 1 <= i < |pieces| ==> pieces[i] == rest[i];
        if |rest| == 1 {
          assert Join(pieces, [c]) == [s[0]] + rest[0];
        } else {
          assert Join(pieces, [c]) == [s[0]] + rest[0] + [c] + Join(rest[1..], [c]);
          assert Join(rest, [c]) == rest[0] + [c] + Join(rest[1..], [c]);
        }
        assert s == [s[0]] + s[1..];
      }
    }
  }

  /** The last piece of `s.split(c)`, which is what `.pop()` returns. */
  function LastPiece(s: string, c: char): string {
    var pieces := Split(s, c);
    pieces[|pieces| - 1]
  }

  lemma {:induction false} JoinLast(xs: seq<string>, sep: string)
    requires |xs| >= 2
    ensures Join(xs, sep) == Join(xs[..|xs| - 1], sep) + sep + xs[|xs| - 1]
    decreases |xs|
  {
    if |xs| > 2 {
      JoinLast(xs[1..], sep);
      assert xs[1..][..|xs| - 2] == xs[..|xs| - 1][1..];
    }
  }

  /**
   * The last piece holds no separator; the text is that piece alone when it holds
   * no separator, and otherwise ends in the separator followed by that piece.
   */
  lemma LastPieceShape(s: string, c: char)
    ensures c !in LastPiece(s, c)
    ensures c !in s ==> LastPiece(s, c) == s
    ensures c in s ==> exists front: string :: s == front + [c] + LastPiece(s, c)
  {
    var pieces := Split(s, c);
    JoinSplit(s, c);
    if |pieces| == 1 {
      assert Join(pieces, [c]) == pieces[0];
    } else {
      JoinLast(pieces, [c]);
      var front := Join(pieces[..|pieces| - 1], [c]);
      assert s == front + [c] + LastPiece(s, c);
      assert s[|front|] == c;
    }
    if c !in s {
      SplitWithout(s, c);
    }
  }

  // ---------------------------------------------------------------------------
  // prefixes and substrings

  /** `s.startsWith(p)`. */
  predicate StartsWith(s: string, p: string) {
    |p| <= |s| && s[..|p|] == p
  }

  predicate OccursAt(s: string, marker: string, i: nat) {
    i + |marker| <= |s| && s[i..i + |marker|] == marker
  }

  /** The first position at or after `from` where `marker` occurs in `s`. */
  function IndexOf(s: string, marker: string, from: nat): (r: Option<nat>)
    ensures r.Some? ==> from <= r.value && OccursAt(s, marker, r.value)
    ensures r.Some? ==> forall j :: from <= j < r.value ==> !OccursAt(s, marker, j)
    ensures r.None? ==> forall j :: from <= j ==> !OccursAt(s, marker, j)
    decreases |s| - from
  {
    if from + |marker| > |s| then None
    else if s[from..from + |marker|] == marker then Some(from)
    else IndexOf(s, marker, from + 1)
  }

  /**
   * `s.split(marker)[1]` when the split has more than one piece: the text after the
   * first occurrence of `marker`, up to the next occurrence or the end; `None` when
   * `marker` does not occur (the split then has a single piece).
   */
  function SecondPiece(s: string, marker: string): Option<string>
    requires |marker| > 0
  {
    match IndexOf(s, marker, 0)
    case None => None
    case Some(i) =>
      var rest := s[i + |marker|..];
      match IndexOf(rest, marker, 0)
      case None => Some(rest)
      case Some(j) => Some(rest[..j])
  }

  /** Finding `marker` at or after `from` in `s` finds the same place once text is appended. */
  lemma {:induction false} IndexOfExtends(s: string, t: string, marker: string, from: nat)
    requires IndexOf(s, marker, from).Some?
    ensures IndexOf(s + t, marker, from) == IndexOf(s, marker, from)
    decreases |s| - from
  {
    assert (s + t)[from..from + |marker|] == s[from..from + |marker|];
    if s[from..from + |marker|] != marker {
      IndexOfExtends(s, t, marker, from + 1);
    }
  }

  /**
   * Splitting `prefix + marker + rest` on `marker` gives `rest` as the second piece when
   * the marker first occurs right after `prefix` and not at all in `rest`.
   */
  lemma SecondPieceOfJoin(prefix: string, marker: string, rest: string)
    requires |marker| > 0
    requires IndexOf(prefix + marker, marker, 0) == Some(|prefix|)
    requires IndexOf(rest, marker, 0).None?
    ensures SecondPiece(prefix + marker + rest, marker) == Some(rest)
  {
    var s := prefix + marker + rest;
    IndexOfExtends(prefix + marker, rest, marker, 0);
    assert s == (prefix + marker) + rest;
    assert s[|prefix| + |marker|..] == rest;
  }

  // ---------------------------------------------------------------------------
  // slice

  /** How `slice` turns an index into a position: negative counts from the end, then clamped to [0, len]. */
  function ClampIndex(i: int, len: nat): (r: nat)
    ensures r <= len
    ensures 0 <= i <= len ==> r == i
  {
    if i < 0 then (if len + i < 0 then 0 else len + i) else if i > len then len else i
  }

  /** `s.slice(start, end)`. */
  function JsSlice<T>(s: seq<T>, start: int, end: int): seq<T> {
    var lo := ClampIndex(start, |s|);
    var hi := ClampIndex(end, |s|);
    if lo < hi then s[lo..hi] else []
  }

  /** A slice holds only elements of the sequence it was cut from. */
  lemma SliceMembers<T>(s: seq<T>, start: int, end: int)
    ensures forall x :: x in JsSlice(s, start, end) ==> x in s
  {
    var lo := ClampIndex(start, |s|);
    var hi := ClampIndex(end, |s|);
    if lo < hi {
      forall x | x in s[lo..hi] ensures x in s {
        var i :| lo <= i < hi && s[i] == x;
      }
    }
  }

  // ---------------------------------------------------------------------------
  // the default string order of sort(), and [...new Set(xs)].sort()

  /** `a < b` on strings: lexicographic on characters, a proper prefix first. */
  predicate StrLt(a: string, b: string)
    decreases |a|
  {
    if |a| == 0 then |b| > 0
    else if |b| == 0 then false
    else a[0] < b[0] || (a[0] == b[0] && StrLt(a[1..], b[1..]))
  }

  lemma {:induction false} StrLtIrreflexive(a: string)
    ensures !StrLt(a, a)
    decreases |a|
  {
    if |a| > 0 {
      StrLtIrreflexive(a[1..]);
    }
  }

  lemma {:induction false} StrLtTransitive(a: string, b: string, c: string)
    requires StrLt(a, b) && StrLt(b, c)
    ensures StrLt(a, c)
    decreases |a|
  {
    if |a| > 0 && |b| > 0 && |c| > 0 && a[0] == b[0] == c[0] {
      StrLtTransitive(a[1..], b[1..], c[1..]);
    }
  }

  lemma {:induction false} StrLtTotal(a: string, b: string)
    ensures a == b || StrLt(a, b) || StrLt(b, a)
    decreases |a|
  {
    if |a| > 0 && |b| > 0 && a[0] == b[0] {
      StrLtTotal(a[1..], b[1..]);
      if a[1..] == b[1..] {
        assert a == [a[0]] + a[1..] && b == [b[0]] + b[1..];
      }
    }
  }

  predicate StrLe(a: string, b: string) {
    a == b || StrLt(a, b)
  }

  predicate StrictlyAscending(xs: seq<string>) {
    forall i, j :: 0 <= i < j < |xs| ==> StrLt(xs[i], xs[j])
  }

  predicate Distinct<T(==)>(xs: seq<T>) {
    forall i, j :: 0 <= i < j < |xs| ==> xs[i] != xs[j]
  }

  /** `[...new Set(xs)]`: each value once, in order of first appearance. */
  function Dedupe(xs: seq<string>): (r: seq<string>)
    ensures forall x :: x in r <==> x in xs
    ensures Distinct(r)
    decreases |xs|
  {
    if |xs| == 0 then []
    else
      var front := Dedupe(xs[..|xs| - 1]);
      if xs[|xs| - 1] in front then front else front + [xs[|xs| - 1]]
  }

  /** Inserts `x` into a list kept in ascending order, before the first element not below it. */
  function InsertString(x: string, sorted: seq<string>): (r: seq<string>)
    decreases |sorted|
  {
    if |sorted| == 0 || StrLe(x, sorted[0]) then [x] + sorted
    else [sorted[0]] + InsertString(x, sorted[1..])
  }

  /** `xs.sort()` on strings. */
  function SortStrings(xs: seq<string>): seq<string>
    decreases |xs|
  {
    if |xs| == 0 then [] else InsertString(xs[0], SortStrings(xs[1..]))
  }

  predicate Ascending(xs: seq<string>) {
    forall i, j :: 0 <= i < j < |xs| ==> StrLe(xs[i], xs[j])
  }

  lemma {:induction false} InsertStringCorrect(x: string, sorted: seq<string>)
    requires Ascending(sorted)
    ensures Ascending(InsertString(x, sorted))
    ensures multiset(InsertString(x, sorted)) == multiset(sorted) + multiset{x}
    decreases |sorted|
  {
    if |sorted| == 0 || StrLe(x, sorted[0]) {
      var r := [x] + sorted;
      forall i, j | 0 <= i < j < |r| ensures StrLe(r[i], r[j]) {
        if i == 0 && j > 1 && x != sorted[0] && sorted[0] != sorted[j - 1] {
          StrLtTransitive(x, sorted[0], sorted[j - 1]);
        }
      }
    } else {
      var tail := InsertString(x, sorted[1..]);
      InsertStringCorrect(x, sorted[1..]);
      assert [sorted[0]] + sorted[1..] == sorted;
      StrLtTotal(x, sorted[0]);
      var r := [sorted[0]] + tail;
      forall j | 0 <= j < |tail| ensures StrLe(sorted[0], tail[j]) {
        assert tail[j] in multiset(tail);
        if tail[j] != x {
          assert tail[j] in multiset(sorted[1..]);
          var k :| 0 <= k < |sorted[1..]| && sorted[1..][k] == tail[j];
          assert sorted[k + 1] == tail[j];
        }
      }
      forall i, j | 0 <= i < j < |r| ensures StrLe(r[i], r[j]) {
        if i > 0 {
          assert r[i] == tail[i - 1] && r[j] == tail[j - 1];
        }
      }
    }
  }

  lemma {:induction false} SortStringsCorrect(xs: seq<string>)
    ensures Ascending(SortStrings(xs))
    ensures multiset(SortStrings(xs)) == multiset(xs)
    decreases |xs|
  {
    if |xs| > 0 {
      SortStringsCorrect(xs[1..]);
      InsertStringCorrect(xs[0], SortStrings(xs[1..]));
      assert [xs[0]] + xs[1..] == xs;
    }
  }

  /** `[...new Set(xs)].sort()`. */
  function SortedUnique(xs: seq<string>): seq<string> {
    SortStrings(Dedupe(xs))
  }

  lemma {:induction false} DistinctCount(xs: seq<string>)
    requires Distinct(xs)
    ensures forall v :: multiset(xs)[v] <= 1
    decreases |xs|
  {
    if |xs| > 0 {
      var rest := xs[1..];
      assert Distinct(rest) by {
        forall i, j | 0 <= i < j < |rest| ensures rest[i] != rest[j] { assert xs[i + 1] != xs[j + 1]; }
      }
      DistinctCount(rest);
      assert xs[0] !in rest by {
        forall k | 0 <= k < |rest| ensures rest[k] != xs[0] { assert xs[0] != xs[k + 1]; }
      }
      assert xs == [xs[0]] + rest;
    }
  }

  lemma TwiceCount(ys: seq<string>, i: nat, j: nat)
    requires i < j < |ys| && ys[i] == ys[j]
    ensures multiset(ys)[ys[i]] >= 2
  {
    assert ys == ys[..j] + ys[j..];
    assert ys[..j][i] == ys[i];
    assert ys[j..][0] == ys[i];
  }

  lemma DistinctMultiset(xs: seq<string>, ys: seq<string>)
    requires Distinct(xs) && multiset(xs) == multiset(ys)
    ensures Distinct(ys)
  {
    DistinctCount(xs);
    forall i, j | 0 <= i < j < |ys| ensures ys[i] != ys[j] {
      if ys[i] == ys[j] {
        TwiceCount(ys, i, j);
      }
    }
  }

  /** `[...new Set(xs)].sort()` lists every value of `xs` once, in strictly ascending order. */
  lemma SortedUniqueCorrect(xs: seq<string>)
    ensures StrictlyAscending(SortedUnique(xs))
    ensures forall x :: x in SortedUnique(xs) <==> x in xs
  {
    var d := Dedupe(xs);
    var r := SortStrings(d);
    SortStringsCorrect(d);
    DistinctMultiset(d, r);
    forall x ensures x in r <==> x in xs {
      assert x in r <==> x in multiset(r);
      assert x in d <==> x in multiset(d);
    }
  }

  // ---------------------------------------------------------------------------
  // trim

  /** The characters `String.prototype.trim` removes: white space and line terminators. */
  predicate IsJsWhitespace(c: char) {
    c == ' ' || c == '\t' || c == '\n' || c == '\r' || c == '\U{B}' || c == '\U{C}'
    || c == '\U{A0}' || c == '\U{FEFF}' || c == '\U{1680}' || ('\U{2000}' <= c <= '\U{200A}')
    || c == '\U{2028}' || c == '\U{2029}' || c == '\U{202F}' || c == '\U{205F}' || c == '\U{3000}'
  }

  predicate AllWhitespace(s: string) {
    forall i :: 0 <= i < |s| ==> IsJsWhitespace(s[i])
  }

  function TrimStart(s: string): string
    decreases |s|
  {
    if |s| > 0 && IsJsWhitespace(s[0]) then TrimStart(s[1..]) else s
  }

  function TrimEnd(s: string): string
    decreases |s|
  {
    if |s| > 0 && IsJsWhitespace(s[|s| - 1]) then TrimEnd(s[..|s| - 1]) else s
  }

  /** `s.trim()`. */
  function Trim(s: string): string {
    TrimEnd(TrimStart(s))
  }

  lemma {:induction false} TrimStartShape(s: string)
    ensures TrimStart(s) == [] <==> AllWhitespace(s)
    ensures TrimStart(s) != [] ==> !IsJsWhitespace(TrimStart(s)[0])
    decreases |s|
  {
    if |s| > 0 && IsJsWhitespace(s[0]) {
      TrimStartShape(s[1..]);
      assert AllWhitespace(s) <==> AllWhitespace(s[1..]) by {
        if AllWhitespace(s[1..]) {
          forall i | 0 <= i < |s| ensures IsJsWhitespace(s[i]) {
            if i > 0 { assert s[i] == s[1..][i - 1]; }
          }
        }
      }
    }
  }

  lemma {:induction false} TrimEndEmpty(s: string)
    ensures TrimEnd(s) == [] <==> AllWhitespace(s)
    decreases |s|
  {
    if |s| > 0 && IsJsWhitespace(s[|s| - 1]) {
      var front := s[..|s| - 1];
      TrimEndEmpty(front);
      assert AllWhitespace(s) <==> AllWhitespace(front) by {
        if AllWhitespace(front) {
          forall i | 0 <= i < |s| ensures IsJsWhitespace(s[i]) {
            if i < |s| - 1 { assert s[i] == front[i]; }
          }
        }
      }
    }
  }

  /** `s.trim().length > 0` exactly when `s` has a character that is not white space. */
  lemma TrimEmptyIffBlank(s: string)
    ensures |Trim(s)| == 0 <==> AllWhitespace(s)
  {
    TrimStartShape(s);
    TrimEndEmpty(TrimStart(s));
  }
}
