/** String helpers standing in for the JavaScript built-ins the application
    relies on: `trim`, the `\s` character class, `Array.prototype.join`,
    `Number.prototype.toString` for non-negative integers and `padStart`;
    and `Split`, used to state the export's line layout. */
module Text {

  /** The ECMAScript WhiteSpace and LineTerminator code points: exactly what
      `String.prototype.trim` strips and what the regular-expression class
      `\s` matches. */
  predicate IsWhitespace(c: char) {
    || c == '\t' || c == '\n' || c == '\U{B}' || c == '\U{C}' || c == '\r' || c == ' '
    || c == '\U{A0}' || c == '\U{1680}' || ('\U{2000}' <= c <= '\U{200A}')
    || c == '\U{2028}' || c == '\U{2029}' || c == '\U{202F}' || c == '\U{205F}'
    || c == '\U{3000}' || c == '\U{FEFF}'
  }

  predicate AllWhitespace(s: string) {
    forall i :: 0 <= i < |s| ==> IsWhitespace(s[i])
  }

  predicate NoWhitespace(s: string) {
    forall i :: 0 <= i < |s| ==> !IsWhitespace(s[i])
  }

  /** Neither end of `s` is a whitespace character. */
  predicate IsTrimmed(s: string) {
    s == [] || (!IsWhitespace(s[0]) && !IsWhitespace(s[|s| - 1]))
  }

  /** The index of the first non-whitespace character at or after `i`,
      or `|s|` when there is none. */
  function SkipWhitespace(s: string, i: nat): (j: nat)
    requires i <= |s|
    ensures i <= j <= |s|
    ensures j < |s| ==> !IsWhitespace(s[j])
    ensures forall k :: i <= k < j ==> IsWhitespace(s[k])
    decreases |s| - i
  {
    if i < |s| && IsWhitespace(s[i]) then SkipWhitespace(s, i + 1) else i
  }

  /** The index just past the last non-whitespace character before `hi`
      and at or after `lo`, or `lo` when there is none. */
  function SkipWhitespaceBack(s: string, lo: nat, hi: nat): (j: nat)
    requires lo <= hi <= |s|
    ensures lo <= j <= hi
    ensures j > lo ==> !IsWhitespace(s[j - 1])
    ensures forall k :: j <= k < hi ==> IsWhitespace(s[k])
    decreases hi
  {
    if hi > lo && IsWhitespace(s[hi - 1]) then SkipWhitespaceBack(s, lo, hi - 1) else hi
  }

  /** `String.prototype.trim`: the result starts and ends with
      non-whitespace, and it is empty exactly for an all-whitespace input.
      `TrimPadding` adds that the input is the result with whitespace on
      both sides. */
  function Trim(s: string): (r: string)
    ensures IsTrimmed(r)
    ensures r == [] <==> AllWhitespace(s)
  {
    var start := SkipWhitespace(s, 0);
    var end := SkipWhitespaceBack(s, start, |s|);
    s[start..end]
  }

  /** `s` consists of `i` whitespace characters, then `r`, then whitespace. */
  predicate PaddedAt(s: string, r: string, i: int) {
    && 0 <= i <= |s| - |r| && s[i..i + |r|] == r
    && AllWhitespace(s[..i]) && AllWhitespace(s[i + |r|..])
  }

  /** Trimming removes whitespace from the two ends and nothing else. */
  lemma TrimPadding(s: string)
    ensures exists i :: PaddedAt(s, Trim(s), i)
  {
    var start := SkipWhitespace(s, 0);
    var end := SkipWhitespaceBack(s, start, |s|);
    assert Trim(s) == s[start..end];
    assert AllWhitespace(s[..start]) by {
      forall k | 0 <= k < start ensures IsWhitespace(s[..start][k]) {
        assert s[..start][k] == s[k];
      }
    }
    assert AllWhitespace(s[end..]) by {
      forall k | 0 <= k < |s| - end ensures IsWhitespace(s[end..][k]) {
        assert s[end..][k] == s[end + k];
      }
    }
    assert PaddedAt(s, Trim(s), start);
  }

  /** A string whose trimmed form is empty (`s.trim()` is falsy). */
  predicate IsBlank(s: string) {
    Trim(s) == []
  }

  /** Trimming leaves an already trimmed string alone. */
  lemma TrimOfTrimmed(s: string)
    requires IsTrimmed(s)
    ensures Trim(s) == s
  {
    var start := SkipWhitespace(s, 0);
    if s != [] {
      assert start == 0;
      assert SkipWhitespaceBack(s, 0, |s|) == |s|;
    }
  }

  /** `trim` is idempotent. */
  lemma TrimIdempotent(s: string)
    ensures Trim(Trim(s)) == Trim(s)
  {
    TrimOfTrimmed(Trim(s));
  }

  /** `Array.prototype.join`: the parts with `sep` between consecutive ones. */
  function Join(parts: seq<string>, sep: string): string {
    if |parts| == 0 then ""
    else if |parts| == 1 then parts[0]
    else parts[0] + sep + Join(parts[1..], sep)
  }

  /** Joining two non-empty lists is joining each and putting one separator
      between the two results. */
  lemma {:induction false} JoinConcat(a: seq<string>, b: seq<string>, sep: string)
    requires |a| > 0 && |b| > 0
    ensures Join(a + b, sep) == Join(a, sep) + sep + Join(b, sep)
  {
    if |a| == 1 {
      assert (a + b)[1..] == b;
    } else {
      assert (a + b)[1..] == a[1..] + b;
      JoinConcat(a[1..], b, sep);
    }
  }

  /** `a` occurs in `b` as a contiguous piece. */
  predicate IsInfix(a: string, b: string) {
    exists i | 0 <= i <= |b| - |a| :: InfixAt(a, b, i)
  }

  predicate InfixAt(a: string, b: string, i: int) {
    0 <= i <= |b| - |a| && b[i..i + |a|] == a
  }

  lemma InfixOfConcat(x: string, a: string, y: string)
    ensures IsInfix(a, x + a + y)
  {
    assert InfixAt(a, x + a + y, |x|);
  }

  lemma InfixOfPrefix(a: string, y: string)
    ensures IsInfix(a, a + y)
  {
    assert InfixAt(a, a + y, 0);
  }

  lemma InfixOfSuffix(x: string, a: string)
    ensures IsInfix(a, x + a)
  {
    assert InfixAt(a, x + a, |x|);
  }

  lemma InfixTrans(a: string, b: string, c: string)
    requires IsInfix(a, b) && IsInfix(b, c)
    ensures IsInfix(a, c)
  {
    var i :| 0 <= i <= |b| - |a| && InfixAt(a, b, i);
    var j :| 0 <= j <= |c| - |b| && InfixAt(b, c, j);
    assert b[i..i + |a|] == a && c[j..j + |b|] == b;
    forall k | 0 <= k < |a| ensures c[j + i + k] == a[k] {
      assert b[i..i + |a|][k] == b[i + k];
      assert c[j..j + |b|][i + k] == c[j + i + k];
    }
    assert c[j + i..j + i + |a|] == a;
    assert InfixAt(a, c, j + i);
  }

  /** Every part of a join occurs in the joined string. */
  lemma {:induction false} JoinHasPart(parts: seq<string>, sep: string, k: nat)
    requires k < |parts|
    ensures IsInfix(parts[k], Join(parts, sep))
  {
    if |parts| == 1 {
      InfixOfConcat("", parts[0], "");
      assert "" + parts[0] + "" == Join(parts, sep);
    } else if k == 0 {
      InfixOfConcat("", parts[0], sep + Join(parts[1..], sep));
      assert "" + parts[0] + (sep + Join(parts[1..], sep)) == Join(parts, sep);
    } else {
      JoinHasPart(parts[1..], sep, k - 1);
      InfixOfConcat(parts[0] + sep, Join(parts[1..], sep), "");
      assert parts[0] + sep + Join(parts[1..], sep) + "" == Join(parts, sep);
      InfixTrans(parts[k], Join(parts[1..], sep), Join(parts, sep));
    }
  }

  /** `String.prototype.split` with a one-character separator: the pieces
      between consecutive occurrences of `c`, always at least one. */
  function Split(s: string, c: char): (r: seq<string>)
    ensures |r| >= 1
  {
    if |s| == 0 then [""]
    else
      var rest := Split(s[1..], c);
      if s[0] == c then [""] + rest else [[s[0]] + rest[0]] + rest[1..]
  }

  /** Splitting never puts the separator inside a piece. */
  lemma {:induction false} SplitOfSeparatorFree(s: string, c: char)
    requires c !in s
    ensures Split(s, c) == [s]
  {
    if |s| > 0 {
      SplitOfSeparatorFree(s[1..], c);
      assert [s[0]] + s[1..] == s;
    }
  }

  /** Splitting a string whose tail splits into `rest`. */
  function SplitCons(x: char, rest: seq<string>, c: char): seq<string>
    requires |rest| >= 1
  {
    if x == c then [""] + rest else [[x] + rest[0]] + rest[1..]
  }

  /** One step of `Split`. */
  lemma SplitStep(s: string, c: char)
    requires s != []
    ensures Split(s, c) == SplitCons(s[0], Split(s[1..], c), c)
  {
  }

  /** Consing onto a split with more pieces after it. */
  lemma SplitConsAppend(x: char, left: seq<string>, right: seq<string>, c: char)
    requires |left| >= 1
    ensures SplitCons(x, left + right, c) == SplitCons(x, left, c) + right
  {
    assert (left + right)[0] == left[0];
    assert (left + right)[1..] == left[1..] + right;
  }

  /** A separator cuts a string into the pieces of its two sides. */
  lemma {:induction false} SplitAt(a: string, b: string, c: char)
    ensures Split(a + [c] + b, c) == Split(a, c) + Split(b, c)
  {
    var s := a + [c] + b;
    SplitStep(s, c);
    if |a| == 0 {
      assert s == [c] + b;
      assert s[1..] == b;
    } else {
      assert s[0] == a[0];
      assert s[1..] == a[1..] + [c] + b;
      SplitAt(a[1..], b, c);
      SplitStep(a, c);
      SplitConsAppend(a[0], Split(a[1..], c), Split(b, c), c);
    }
  }

  /** Splitting a join undoes it when no part contains the separator. */
  lemma {:induction false} SplitJoin(parts: seq<string>, c: char)
    requires |parts| > 0
    requires forall k :: 0 <= k < |parts| ==> c !in parts[k]
    ensures Split(Join(parts, [c]), c) == parts
  {
    if |parts| == 1 {
      SplitOfSeparatorFree(parts[0], c);
    } else {
      SplitJoin(parts[1..], c);
      SplitOfSeparatorFree(parts[0], c);
      SplitAt(parts[0], Join(parts[1..], [c]), c);
      assert parts[0] + [c] + Join(parts[1..], [c]) == Join(parts, [c]);
      assert [parts[0]] + parts[1..] == parts;
    }
  }

  /** The lines of a string: its pieces between line feeds. */
  function Lines(s: string): seq<string> {
    Split(s, '\n')
  }

  predicate IsDigit(c: char) {
    '0' <= c <= '9'
  }

  predicate AllDigits(s: string) {
    forall i :: 0 <= i < |s| ==> IsDigit(s[i])
  }

  function DigitChar(d: nat): (c: char)
    requires d < 10
    ensures IsDigit(c) && (c as int) - ('0' as int) == d
  {
    ('0' as int + d) as char
  }

  /** The decimal numeral of `n`, as `Number.prototype.toString` writes a
      non-negative integer: digits only, and no leading zero unless `n` is 0. */
  function NatToString(n: nat): (r: string)
    ensures |r| >= 1 && AllDigits(r)
    ensures r[0] == '0' ==> n == 0
  {
    if n < 10 then [DigitChar(n)] else NatToString(n / 10) + [DigitChar(n % 10)]
  }

  /** The number a string of decimal digits denotes. */
  function DigitsValue(s: string): nat
    requires AllDigits(s)
  {
    if s == [] then 0 else DigitsValue(s[..|s| - 1]) * 10 + ((s[|s| - 1] as int) - ('0' as int))
  }

  /** Reading back a rendered numeral yields the number. */
  lemma {:induction false} NatToStringRoundTrip(n: nat)
    ensures DigitsValue(NatToString(n)) == n
  {
    if n >= 10 {
      NatToStringRoundTrip(n / 10);
      var s := NatToString(n);
      assert s[..|s| - 1] == NatToString(n / 10);
    }
  }

  /** Leading zeros do not change the value of a numeral. */
  lemma {:induction false} LeadingZeros(z: string, s: string)
    requires forall i :: 0 <= i < |z| ==> z[i] == '0'
    requires AllDigits(s)
    ensures AllDigits(z + s) && DigitsValue(z + s) == DigitsValue(s)
  {
    if s == [] {
      if z != [] {
        assert (z + s)[..|z + s| - 1] == z[..|z| - 1];
        LeadingZeros(z[..|z| - 1], s);
        assert z[..|z| - 1] + s == z[..|z| - 1];
      }
    } else {
      assert (z + s)[..|z + s| - 1] == z + s[..|s| - 1];
      LeadingZeros(z, s[..|s| - 1]);
    }
  }

  /** `n` copies of `c`. */
  function Repeat(c: char, n: nat): (r: string)
    ensures |r| == n && forall i :: 0 <= i < n ==> r[i] == c
  {
    if n == 0 then "" else [c] + Repeat(c, n - 1)
  }

  /** `String.prototype.padStart(width, c)` with a one-character pad. */
  function PadStart(s: string, width: nat, c: char): (r: string)
    ensures |r| == if |s| >= width then |s| else width
    ensures r == Repeat(c, |r| - |s|) + s
  {
    if |s| >= width then s else Repeat(c, width - |s|) + s
  }

  /** `String.prototype.toUpperCase`, restricted to the ASCII letters. */
  function ToUpperAscii(s: string): (r: string)
    ensures |r| == |s|
    ensures forall i :: 0 <= i < |s| ==> r[i] == if 'a' <= s[i] <= 'z' then (s[i] as int - 32) as char else s[i]
  {
    if s == [] then "" else [UpperChar(s[0])] + ToUpperAscii(s[1..])
  }

  function UpperChar(c: char): char {
    if 'a' <= c <= 'z' then (c as int - 32) as char else c
  }

  /** Upper-casing leaves no lower-case ASCII letter and, since it changes
      letters only, introduces no whitespace. */
  lemma UpperCaseProperties(s: string)
    ensures forall i :: 0 <= i < |s| ==> !('a' <= ToUpperAscii(s)[i] <= 'z')
    ensures NoWhitespace(s) ==> NoWhitespace(ToUpperAscii(s))
  {
  }

  /** `s.replace(/\s+/g, "_")`: each maximal run of whitespace becomes one
      underscore. */
  function ReplaceWhitespaceRuns(s: string): (r: string)
    ensures NoWhitespace(r)
    ensures |r| <= |s|
    ensures r == [] <==> s == []
    decreases |s|
  {
    if s == [] then []
    else if IsWhitespace(s[0]) then ['_'] + ReplaceWhitespaceRuns(s[SkipWhitespace(s, 0)..])
    else [s[0]] + ReplaceWhitespaceRuns(s[1..])
  }

  /** A string without whitespace is left as it is. */
  lemma {:induction false} ReplaceWhitespaceRunsOfWordOnly(s: string)
    requires NoWhitespace(s)
    ensures ReplaceWhitespaceRuns(s) == s
  {
    if s != [] {
      ReplaceWhitespaceRunsOfWordOnly(s[1..]);
      assert [s[0]] + s[1..] == s;
    }
  }

  /** Skipping whitespace in `a` ignores what follows `a` when `a` has a
      non-whitespace character at or after `i`. */
  lemma {:induction false} SkipWhitespaceOfPrefix(a: string, t: string, i: nat)
    requires i <= |a| && SkipWhitespace(a, i) < |a|
    ensures SkipWhitespace(a + t, i) == SkipWhitespace(a, i)
    decreases |a| - i
  {
    assert (a + t)[i] == a[i];
    if IsWhitespace(a[i]) {
      SkipWhitespaceOfPrefix(a, t, i + 1);
    }
  }

  /** Skipping from inside a whitespace run `w` stops where `w` ends when
      what follows it does not start with whitespace. */
  lemma {:induction false} SkipWhitespaceOverRun(w: string, b: string, i: nat)
    requires i <= |w| && AllWhitespace(w)
    requires b == [] || !IsWhitespace(b[0])
    ensures SkipWhitespace(w + b, i) == |w|
    decreases |w| - i
  {
    if i < |w| {
      assert (w + b)[i] == w[i];
      SkipWhitespaceOverRun(w, b, i + 1);
    } else if b != [] {
      assert (w + b)[i] == b[0];
    }
  }

  /** A run at the very start becomes one underscore. */
  lemma ReplaceWhitespaceRunsAtStart(w: string, b: string)
    requires w != [] && AllWhitespace(w)
    requires b == [] || !IsWhitespace(b[0])
    ensures ReplaceWhitespaceRuns(w + b) == "_" + ReplaceWhitespaceRuns(b)
  {
    SkipWhitespaceOverRun(w, b, 0);
    assert (w + b)[0] == w[0];
    assert (w + b)[|w|..] == b;
  }

  /** Where the replacement restarts after the first character of `s`:
      one character on, or past a leading whitespace run. */
  function RestartIndex(s: string): (k: nat)
    requires s != []
    ensures 0 < k <= |s|
  {
    if IsWhitespace(s[0]) then SkipWhitespace(s, 0) else 1
  }

  /** What the replacement writes for the first character or run of `s`. */
  function FirstPiece(s: string): string
    requires s != []
  {
    if IsWhitespace(s[0]) then "_" else [s[0]]
  }

  /** One step of the replacement. */
  lemma ReplaceWhitespaceRunsStep(s: string)
    requires s != []
    ensures ReplaceWhitespaceRuns(s) == FirstPiece(s) + ReplaceWhitespaceRuns(s[RestartIndex(s)..])
  {
  }

  /** One step of the replacement on `a + t`, where `a` ends in
      non-whitespace, stays inside `a`. */
  lemma ReplaceWhitespaceRunsStepOfPrefix(a: string, t: string)
    requires a != [] && !IsWhitespace(a[|a| - 1])
    ensures RestartIndex(a) <= |a|
    ensures ReplaceWhitespaceRuns(a + t) == FirstPiece(a) + ReplaceWhitespaceRuns(a[RestartIndex(a)..] + t)
  {
    assert (a + t)[0] == a[0];
    if IsWhitespace(a[0]) {
      SkipWhitespaceOfPrefix(a, t, 0);
    }
    assert (a + t)[RestartIndex(a)..] == a[RestartIndex(a)..] + t;
    ReplaceWhitespaceRunsStep(a + t);
  }

  lemma ConcatAssoc(x: string, y: string, z: string)
    ensures x + y + z == x + (y + z)
  {
  }

  lemma ConcatAssoc3(x: string, y: string, z: string, t: string)
    ensures x + (y + z + t) == x + y + z + t
  {
  }

  /** The inductive step of `ReplaceWhitespaceRunsAt`: once the claim
      holds for what follows the first character or run of `a`, it holds
      for `a`. */
  lemma ReplaceWhitespaceRunsAtStep(a: string, w: string, b: string)
    requires a != [] && !IsWhitespace(a[|a| - 1])
    requires ReplaceWhitespaceRuns(a[RestartIndex(a)..] + w + b)
             == ReplaceWhitespaceRuns(a[RestartIndex(a)..]) + "_" + ReplaceWhitespaceRuns(b)
    ensures ReplaceWhitespaceRuns(a + w + b) == ReplaceWhitespaceRuns(a) + "_" + ReplaceWhitespaceRuns(b)
  {
    var rest := a[RestartIndex(a)..];
    var first := FirstPiece(a);
    calc {
      ReplaceWhitespaceRuns(a + w + b);
      { ConcatAssoc(a, w, b); }
      ReplaceWhitespaceRuns(a + (w + b));
      { ReplaceWhitespaceRunsStepOfPrefix(a, w + b); }
      first + ReplaceWhitespaceRuns(rest + (w + b));
      { ConcatAssoc(rest, w, b); }
      first + ReplaceWhitespaceRuns(rest + w + b);
      first + (ReplaceWhitespaceRuns(rest) + "_" + ReplaceWhitespaceRuns(b));
      { ConcatAssoc3(first, ReplaceWhitespaceRuns(rest), "_", ReplaceWhitespaceRuns(b)); }
      first + ReplaceWhitespaceRuns(rest) + "_" + ReplaceWhitespaceRuns(b);
      { ReplaceWhitespaceRunsStep(a); }
      ReplaceWhitespaceRuns(a) + "_" + ReplaceWhitespaceRuns(b);
    }
  }

  /** A maximal whitespace run `w` between `a` and `b` becomes one
      underscore, and the two sides are replaced independently. */
  lemma {:induction false} ReplaceWhitespaceRunsAt(a: string, w: string, b: string)
    requires a == [] || !IsWhitespace(a[|a| - 1])
    requires w != [] && AllWhitespace(w)
    requires b == [] || !IsWhitespace(b[0])
    ensures ReplaceWhitespaceRuns(a + w + b) == ReplaceWhitespaceRuns(a) + "_" + ReplaceWhitespaceRuns(b)
    decreases |a|
  {
    if a == [] {
      assert a + w + b == w + b;
      ReplaceWhitespaceRunsAtStart(w, b);
    } else {
      var rest := a[RestartIndex(a)..];
      assert rest == [] || rest[|rest| - 1] == a[|a| - 1];
      ReplaceWhitespaceRunsAt(rest, w, b);
      ReplaceWhitespaceRunsAtStep(a, w, b);
    }
  }

  /** Upper-casing distributes over concatenation. */
  lemma {:induction false} ToUpperAsciiConcat(a: string, b: string)
    ensures ToUpperAscii(a + b) == ToUpperAscii(a) + ToUpperAscii(b)
  {
    if a == [] {
      assert a + b == b;
    } else {
      assert (a + b)[0] == a[0];
      assert (a + b)[1..] == a[1..] + b;
      ToUpperAsciiConcat(a[1..], b);
    }
  }
}
