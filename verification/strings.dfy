/** The JavaScript string operations the orchestrator relies on
    (`endsWith`, `indexOf`, `replace` with a string pattern, `split`/`join`,
    `path.basename`) and the decimal rendering of numbers used in ids and
    error messages. */
module Strings {
  import opened Base

  predicate StartsWith(s: string, prefix: string) {
    |prefix| <= |s| && s[..|prefix|] == prefix
  }

  /** `String.prototype.endsWith`. */
  predicate EndsWith(s: string, suffix: string) {
    |suffix| <= |s| && s[|s| - |suffix|..] == suffix
  }

  predicate OccursAt(s: string, pat: string, i: nat) {
    i + |pat| <= |s| && s[i..i + |pat|] == pat
  }

  predicate Contains(s: string, pat: string) {
    exists i: nat :: i <= |s| && OccursAt(s, pat, i)
  }

  /** First occurrence of `pat` in `s` at or after `from`. */
  function IndexFrom(s: string, pat: string, from: nat): (r: Option<nat>)
    ensures r.Some? ==> from <= r.value && OccursAt(s, pat, r.value)
    ensures r.Some? ==> forall j: nat :: from <= j < r.value ==> !OccursAt(s, pat, j)
    ensures r.None? ==> forall j: nat :: from <= j ==> !OccursAt(s, pat, j)
    decreases |s| - from
  {
    if from + |pat| > |s| then None
    else if OccursAt(s, pat, from) then Some(from)
    else IndexFrom(s, pat, from + 1)
  }

  /** `String.prototype.indexOf`, with `-1` as `None`. */
  function IndexOf(s: string, pat: string): (r: Option<nat>)
    ensures r.Some? ==> OccursAt(s, pat, r.value)
                        && forall j: nat :: j < r.value ==> !OccursAt(s, pat, j)
    ensures r.None? <==> !Contains(s, pat)
  {
    IndexFrom(s, pat, 0)
  }

  /** `String.prototype.replace` with a string pattern: only the FIRST
      occurrence is replaced (the replacement is taken literally). */
  function ReplaceFirst(s: string, pat: string, rep: string): (r: string)
    ensures !Contains(s, pat) ==> r == s
    ensures Contains(s, pat) ==>
              exists i: nat :: && OccursAt(s, pat, i) && (forall j: nat :: j < i ==> !OccursAt(s, pat, j))
                               && r == s[..i] + rep + s[i + |pat|..]
  {
    match IndexOf(s, pat)
    case None => s
    case Some(i) => s[..i] + rep + s[i + |pat|..]
  }

  /** Removing the first occurrence of a pattern that appears only as a suffix
      gives back the prefix. The pattern's first character must not recur inside
      it, so that no occurrence can straddle the boundary (true of ".fyn"). */
  lemma {:induction false} ReplaceFirstOfSoleSuffix(name: string, pat: string)
    requires |pat| > 0
    requires forall k :: 1 <= k < |pat| ==> pat[k] != pat[0]
    requires !Contains(name, pat)
    ensures ReplaceFirst(name + pat, pat, "") == name
  {
    var s := name + pat;
    assert OccursAt(s, pat, |name|) by {
      assert s[|name|..|name| + |pat|] == pat;
    }
    forall j: nat | j < |name|
      ensures !OccursAt(s, pat, j)
    {
      if j + |pat| <= |name| {
        assert s[j..j + |pat|] == name[j..j + |pat|];
        assert !OccursAt(name, pat, j);
      } else {
        assert s[|name|] == pat[0];
      }
    }
    assert s[..|name|] == name;
    assert s[|name| + |pat|..] == [];
  }

  // ---------------------------------------------------------------------------
  // Path helpers (POSIX `path` module)

  function TrimTrailingSlashes(p: string): (r: string)
    ensures |r| <= |p| && r == p[..|r|]
    ensures |r| == 0 || r[|r| - 1] != '/'
    ensures forall i :: |r| <= i < |p| ==> p[i] == '/'
  {
    if |p| > 0 && p[|p| - 1] == '/' then TrimTrailingSlashes(p[..|p| - 1]) else p
  }

  /** The last path segment of a path without trailing separators. */
  function LastSegment(p: string): (b: string)
    ensures EndsWith(p, b)
    ensures '/' !in b
    ensures |b| < |p| ==> p[|p| - |b| - 1] == '/'
  {
    if |p| == 0 then ""
    else if p[|p| - 1] == '/' then ""
    else LastSegment(p[..|p| - 1]) + [p[|p| - 1]]
  }

  /** `path.basename(p, ext)`: the last segment after trailing separators are
      dropped, with `ext` removed when it is a proper suffix of that segment. */
  function Basename(p: string, ext: string): (r: string)
    ensures '/' !in r
  {
    var b := LastSegment(TrimTrailingSlashes(p));
    if EndsWith(b, ext) && b != ext then
      var stem := b[..|b| - |ext|];
      assert forall n :: 0 <= n < |stem| ==> stem[n] == b[n];
      stem
    else b
  }

  /** The last segment of `pre + name` is `name` when `name` has no separator
      and `pre` is empty or ends in one. */
  lemma {:induction false} LastSegmentAfterSeparator(pre: string, name: string)
    requires |pre| == 0 || pre[|pre| - 1] == '/'
    requires '/' !in name
    ensures LastSegment(pre + name) == name
    decreases |name|
  {
    if |name| == 0 {
      assert pre + name == pre;
    } else {
      var init := name[..|name| - 1];
      assert pre + name == (pre + init) + [name[|name| - 1]];
      assert '/' !in init by {
        forall i | 0 <= i < |init| ensures init[i] != '/' {
          assert init[i] == name[i];
        }
      }
      LastSegmentAfterSeparator(pre, init);
      assert init + [name[|name| - 1]] == name;
    }
  }
  /** `basename(pre + stem + ext, ext)` is `stem` when the segment has no
      separator, `pre` ends at one, and the stem is not empty. */
  lemma BasenameAfterSeparator(pre: string, stem: string, ext: string)
    requires |pre| == 0 || pre[|pre| - 1] == '/'
    requires '/' !in stem && '/' !in ext
    requires |stem| > 0 && |ext| > 0
    ensures Basename(pre + (stem + ext), ext) == stem
  {
    var name := stem + ext;
    var p := pre + name;
    assert |name| - |ext| == |stem|;
    assert EndsWith(name, ext) by { assert name[|stem|..] == ext; }
    assert name != ext by { assert |name| > |ext|; }
    assert name[..|stem|] == stem;
    assert LastSegment(TrimTrailingSlashes(p)) == name by {
      assert '/' !in name by {
        forall i | 0 <= i < |name| ensures name[i] != '/' {
          if i < |stem| { assert name[i] == stem[i]; } else { assert name[i] == ext[i - |stem|]; }
        }
      }
      assert p[|p| - 1] == ext[|ext| - 1] != '/';
      assert TrimTrailingSlashes(p) == p;
      LastSegmentAfterSeparator(pre, name);
    }
  }

  /** `path.join(dir, name)` for a directory and a plain entry name
      (no `.`/`..` normalisation). */
  function JoinPath(dir: string, name: string): string {
    if |dir| == 0 then name
    else if dir[|dir| - 1] == '/' then dir + name
    else dir + "/" + name
  }

  // ---------------------------------------------------------------------------
  // Decimal numbers

  predicate IsDigit(c: char) {
    '0' <= c <= '9'
  }

  predicate AllDigits(s: string) {
    forall i :: 0 <= i < |s| ==> IsDigit(s[i])
  }

  function DigitValue(c: char): nat
    requires IsDigit(c)
  {
    c as int - '0' as int
  }

  function DigitChar(d: nat): (c: char)
    requires d < 10
    ensures IsDigit(c) && DigitValue(c) == d
  {
    ('0' as int + d) as char
  }

  /** The value of a string of decimal digits (leading zeros allowed). */
  function DecimalValue(s: string): nat
    requires AllDigits(s)
  {
    if |s| == 0 then 0 else DecimalValue(s[..|s| - 1]) * 10 + DigitValue(s[|s| - 1])
  }

  /** A decimal numeral as `String(n)` prints it: non-empty, no leading zero. */
  predicate IsCanonicalDecimal(s: string) {
    |s| >= 1 && AllDigits(s) && (|s| == 1 || s[0] != '0')
  }

  /** `String(n)` for a non-negative integer. */
  function NatToString(n: nat): (s: string)
    ensures IsCanonicalDecimal(s) && DecimalValue(s) == n
  {
    if n < 10 then [DigitChar(n)]
    else
      var p := NatToString(n / 10);
      var s := p + [DigitChar(n % 10)];
      assert s[..|s| - 1] == p;
      s
  }

  /** Every canonical numeral is what `NatToString` prints for its value. */
  lemma {:induction false} CanonicalDecimalRoundTrip(s: string)
    requires IsCanonicalDecimal(s)
    ensures NatToString(DecimalValue(s)) == s
  {
    var n := DecimalValue(s);
    if |s| == 1 {
    } else {
      var p := s[..|s| - 1];
      assert IsCanonicalDecimal(p);
      CanonicalDecimalRoundTrip(p);
      CanonicalAtLeastTen(s);
      assert n / 10 == DecimalValue(p);
      assert n % 10 == DigitValue(s[|s| - 1]);
      assert NatToString(n) == NatToString(n / 10) + [DigitChar(n % 10)];
    }
  }

  /** A canonical numeral of two or more digits denotes at least 10. */
  lemma {:induction false} CanonicalAtLeastTen(s: string)
    requires IsCanonicalDecimal(s) && |s| >= 2
    ensures DecimalValue(s) >= 10
  {
    var p := s[..|s| - 1];
    assert IsCanonicalDecimal(p);
    if |p| == 1 {
      assert DecimalValue(p) == DecimalValue(p[..0]) * 10 + DigitValue(p[0]);
      assert DigitValue(p[0]) >= 1;
    } else {
      CanonicalAtLeastTen(p);
    }
  }

  /** A canonical numeral of three or more digits denotes at least 100. */
  lemma CanonicalAtLeastHundred(s: string)
    requires IsCanonicalDecimal(s) && |s| >= 3
    ensures DecimalValue(s) >= 100
  {
    var p := s[..|s| - 1];
    assert IsCanonicalDecimal(p);
    CanonicalAtLeastTen(p);
  }

  /** `NatToString` never prints two numbers the same way. */
  lemma NatToStringInjective(a: nat, b: nat)
    requires NatToString(a) == NatToString(b)
    ensures a == b
  {
  }

  /** Parses a non-empty all-digit string; anything else is `None`. A
      canonical numeral parses to the number that prints as it. */
  function ParseNat(s: string): (r: Option<nat>)
    ensures r.Some? <==> |s| >= 1 && AllDigits(s)
    ensures r.Some? && IsCanonicalDecimal(s) ==> NatToString(r.value) == s
  {
    if |s| >= 1 && AllDigits(s) then
      if IsCanonicalDecimal(s) then CanonicalDecimalRoundTrip(s); Some(DecimalValue(s))
      else Some(DecimalValue(s))
    else None
  }

  lemma ParseNatOfNatToString(n: nat)
    ensures ParseNat(NatToString(n)) == Some(n)
  {
  }

  /** `String(i)` for any integer. */
  function IntToString(i: int): (s: string)
    ensures i >= 0 ==> s == NatToString(i)
    ensures i < 0 ==> s == "-" + NatToString(-i)
  {
    if i < 0 then "-" + NatToString(-i) else NatToString(i)
  }

  /** Template-literal rendering of a `number | null` (an exit code). */
  function NullableIntToString(i: Option<int>): (s: string)
    ensures i.None? ==> s == "null"
    ensures i.Some? ==> s == IntToString(i.value)
  {
    match i
    case None => "null"
    case Some(n) => IntToString(n)
  }

  // ---------------------------------------------------------------------------
  // split / join on a single-character separator

  function IndexOfChar(s: string, c: char): (i: nat)
    requires c in s
    ensures i < |s| && s[i] == c && c !in s[..i]
  {
    if s[0] == c then 0
    else
      var j := IndexOfChar(s[1..], c);
      assert s[1..][..j] == s[1..j + 1];
      1 + j
  }

  /** `[p0, p1, …].join(sep)`. */
  function Join(parts: seq<string>, sep: char): string {
    if |parts| == 0 then ""
    else if |parts| == 1 then parts[0]
    else parts[0] + [sep] + Join(parts[1..], sep)
  }

  /** `s.split(sep)`: the maximal separator-free pieces, empty ones included. */
  function Split(s: string, sep: char): (parts: seq<string>)
    ensures |parts| >= 1
    ensures forall i :: 0 <= i < |parts| ==> sep !in parts[i]
    ensures Join(parts, sep) == s
    decreases |s|
  {
    if sep !in s then [s]
    else
      var i := IndexOfChar(s, sep);
      var rest := Split(s[i + 1..], sep);
      var parts := [s[..i]] + rest;
      assert parts[1..] == rest;
      assert s == s[..i] + [sep] + s[i + 1..];
      parts
  }

  /** Splitting a join of separator-free pieces gives the pieces back. */
  lemma {:induction false} SplitOfJoin(parts: seq<string>, sep: char)
    requires |parts| >= 1
    requires forall i :: 0 <= i < |parts| ==> sep !in parts[i]
    ensures Split(Join(parts, sep), sep) == parts
  {
    if |parts| == 1 {
    } else {
      var s := Join(parts, sep);
      assert s == parts[0] + [sep] + Join(parts[1..], sep);
      assert sep in s by { assert s[|parts[0]|] == sep; }
      var i := IndexOfChar(s, sep);
      assert i == |parts[0]| by {
        assert sep !in s[..|parts[0]|] by { assert s[..|parts[0]|] == parts[0]; }
      }
      assert s[..i] == parts[0];
      assert s[i + 1..] == Join(parts[1..], sep);
      SplitOfJoin(parts[1..], sep);
      assert Split(s, sep) == [parts[0]] + Split(s[i + 1..], sep);
      assert [parts[0]] + parts[1..] == parts;
    }
  }
}
