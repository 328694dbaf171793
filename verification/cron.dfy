// The loader's cron check: a fixed regular expression over the five-field
// crontab syntax that admits, per field, only `*`, a number or a step `*/N`
// (no ranges, no lists, no names). The recogniser below follows the
// expression alternative by alternative; `InRange` restates each field's
// numbers by value, and the lemmas connect the two.
module Cron {
  import opened Strings

  datatype Field = Minute | Hour | DayOfMonth | Month | DayOfWeek

  /** The fields in the order they appear in an expression. */
  function FieldAt(i: nat): Field
    requires i < 5
  {
    [Minute, Hour, DayOfMonth, Month, DayOfWeek][i]
  }

  /** The numeric alternatives of the expression for one field:
      minute `[0-5]?\d`, hour `1?\d|2[0-3]`, day `[12]?\d|3[01]`,
      month `[1-9]|1[0-2]`, weekday `[0-6]`. */
  predicate NumberMatches(f: Field, t: string) {
    match f
    case Minute =>
      (|t| == 1 && IsDigit(t[0])) || (|t| == 2 && '0' <= t[0] <= '5' && IsDigit(t[1]))
    case Hour =>
      (|t| == 1 && IsDigit(t[0]))
      || (|t| == 2 && t[0] == '1' && IsDigit(t[1]))
      || (|t| == 2 && t[0] == '2' && '0' <= t[1] <= '3')
    case DayOfMonth =>
      (|t| == 1 && IsDigit(t[0]))
      || (|t| == 2 && '1' <= t[0] <= '2' && IsDigit(t[1]))
      || (|t| == 2 && t[0] == '3' && '0' <= t[1] <= '1')
    case Month =>
      (|t| == 1 && '1' <= t[0] <= '9') || (|t| == 2 && t[0] == '1' && '0' <= t[1] <= '2')
    case DayOfWeek =>
      |t| == 1 && '0' <= t[0] <= '6'
  }

  // One field: `*`, a number, or `*/` followed by a number.
  predicate FieldMatches(f: Field, t: string) {
    t == "*" || NumberMatches(f, t) || (StartsWith(t, "*/") && NumberMatches(f, t[2..]))
  }

  /** `isValidCron`: exactly five fields separated by single spaces, each
      matching its field's alternatives. */
  predicate IsValidCron(s: string) {
    var fields := Split(s, ' ');
    |fields| == 5 && forall i :: 0 <= i < 5 ==> FieldMatches(FieldAt(i), fields[i])
  }

  // ---------------------------------------------------------------------------
  // What the numeric alternatives mean

  function Lo(f: Field): nat {
    if f == Month then 1 else 0
  }

  function Hi(f: Field): nat {
    match f
    case Minute => 59
    case Hour => 23
    case DayOfMonth => 31
    case Month => 12
    case DayOfWeek => 6
  }

  /** A number written in a field: decimal digits whose value lies in the
      field's bounds; the minute may carry one leading zero (`05`), every other
      field must be written without one. */
  predicate InRange(f: Field, t: string) {
    && |t| >= 1 && AllDigits(t)
    && (if f == Minute then |t| <= 2 else IsCanonicalDecimal(t))
    && Lo(f) <= DecimalValue(t) <= Hi(f)
  }

  lemma TwoDigits(t: string)
    requires |t| == 2 && AllDigits(t)
    ensures DecimalValue(t) == DigitValue(t[0]) * 10 + DigitValue(t[1])
  {
    var p := t[..1];
    assert p[..0] == [] && p[0] == t[0];
    assert DecimalValue(p) == DigitValue(t[0]);
    assert DecimalValue(t) == DecimalValue(p) * 10 + DigitValue(t[1]);
  }

  /** The regular expression's numeric alternatives accept exactly the
      in-range numbers. */
  lemma NumberMatchesMeaning(f: Field, t: string)
    ensures NumberMatches(f, t) <==> InRange(f, t)
  {
    if |t| == 1 && AllDigits(t) {
      assert DecimalValue(t) == DigitValue(t[0]) by { assert t[..0] == []; }
    } else if |t| == 2 && AllDigits(t) {
      TwoDigits(t);
    } else if |t| >= 3 && IsCanonicalDecimal(t) {
      CanonicalAtLeastHundred(t);
    }
  }

  // ---------------------------------------------------------------------------
  // The expression as a whole

  /** An expression assembled from five space-free fields is accepted exactly
      when every field matches. */
  lemma {:induction false} ValidCronOfFields(fields: seq<string>)
    requires |fields| == 5
    requires forall i :: 0 <= i < 5 ==> ' ' !in fields[i]
    ensures IsValidCron(Join(fields, ' ')) <==>
              forall i :: 0 <= i < 5 ==> FieldMatches(FieldAt(i), fields[i])
  {
    SplitOfJoin(fields, ' ');
  }

  // Every accepted expression is five fields joined by single spaces, each
  // `*`, an in-range number, or `*/` and an in-range number.
  lemma ValidCronMeaning(s: string)
    requires IsValidCron(s)
    ensures s == Join(Split(s, ' '), ' ')
    ensures forall i :: 0 <= i < 5 ==>
              var t := Split(s, ' ')[i];
              t == "*" || InRange(FieldAt(i), t) || (StartsWith(t, "*/") && InRange(FieldAt(i), t[2..]))
  {
    var fields := Split(s, ' ');
    forall i | 0 <= i < 5
      ensures var t := fields[i];
              t == "*" || InRange(FieldAt(i), t) || (StartsWith(t, "*/") && InRange(FieldAt(i), t[2..]))
    {
      NumberMatchesMeaning(FieldAt(i), fields[i]);
      if |fields[i]| >= 2 {
        NumberMatchesMeaning(FieldAt(i), fields[i][2..]);
      }
    }
  }

  lemma JoinFive(a: string, b: string, c: string, d: string, e: string)
    ensures Join([a, b, c, d, e], ' ') == a + " " + b + " " + c + " " + d + " " + e
  {
    var fields := [a, b, c, d, e];
    assert Join(fields[4..], ' ') == e;
    assert Join(fields[3..], ' ') == d + " " + e by { assert fields[3..][1..] == fields[4..]; }
    assert Join(fields[2..], ' ') == c + " " + d + " " + e by { assert fields[2..][1..] == fields[3..]; }
    assert Join(fields[1..], ' ') == b + " " + c + " " + d + " " + e by { assert fields[1..][1..] == fields[2..]; }
  }

  /** Five space-free fields joined by single spaces: accepted exactly when
      each field matches its own alternatives. */
  lemma FiveFields(a: string, b: string, c: string, d: string, e: string)
    requires ' ' !in a && ' ' !in b && ' ' !in c && ' ' !in d && ' ' !in e
    ensures IsValidCron(a + " " + b + " " + c + " " + d + " " + e) <==>
              FieldMatches(Minute, a) && FieldMatches(Hour, b) && FieldMatches(DayOfMonth, c)
              && FieldMatches(Month, d) && FieldMatches(DayOfWeek, e)
  {
    var fields := [a, b, c, d, e];
    ValidCronOfFields(fields);
    JoinFive(a, b, c, d, e);
    assert FieldAt(0) == Minute && FieldAt(1) == Hour && FieldAt(2) == DayOfMonth;
    assert FieldAt(3) == Month && FieldAt(4) == DayOfWeek;
    assert (forall i :: 0 <= i < 5 ==> FieldMatches(FieldAt(i), fields[i])) <==>
           FieldMatches(Minute, a) && FieldMatches(Hour, b) && FieldMatches(DayOfMonth, c)
           && FieldMatches(Month, d) && FieldMatches(DayOfWeek, e);
  }

  // What one field admits, by value: `*`, an in-range number, or `*/` and
  // an in-range number.
  lemma FieldMatchesMeaning(f: Field, t: string)
    ensures FieldMatches(f, t) <==>
              t == "*" || InRange(f, t) || (StartsWith(t, "*/") && InRange(f, t[2..]))
  {
    NumberMatchesMeaning(f, t);
    if |t| >= 2 {
      NumberMatchesMeaning(f, t[2..]);
    }
  }

  /** A number as `String(n)` prints it is accepted in a field exactly when it
      lies within the field's bounds (minute 0-59, hour 0-23, day 0-31,
      month 1-12, weekday 0-6). */
  lemma PrintedNumberAccepted(f: Field, n: nat)
    ensures FieldMatches(f, NatToString(n)) <==> Lo(f) <= n <= Hi(f)
  {
    var t := NatToString(n);
    FieldMatchesMeaning(f, t);
    assert t != "*" && !StartsWith(t, "*/") by { assert IsDigit(t[0]); }
    if |t| >= 3 {
      CanonicalAtLeastHundred(t);
    }
  }

  /** Only the minute admits a leading zero (`05`); in every other field a
      two-character number starting with `0` is rejected. */
  lemma LeadingZeroOnlyInMinute(f: Field, d: char)
    requires IsDigit(d)
    ensures FieldMatches(f, ['0', d]) <==> f == Minute
  {
  }

  /** The expression has no range (`1-5`), list (`1,2`) or name syntax: a
      field holding any character other than a digit, `*` or `/` is rejected. */
  lemma OnlyDigitsStarsAndSlashes(f: Field, t: string, k: nat)
    requires k < |t| && !IsDigit(t[k]) && t[k] != '*' && t[k] != '/'
    ensures !FieldMatches(f, t)
  {
    if StartsWith(t, "*/") {
      assert k >= 2 && t[2..][k - 2] == t[k];
    }
  }

  /** Four fields are rejected, and so is an empty field (two spaces in a row). */
  lemma CronNeedsFiveNonEmptyFields(s: string)
    requires |Split(s, ' ')| != 5 || "" in Split(s, ' ')
    ensures !IsValidCron(s)
  {
  }

  /** A concrete expression: every fifth minute. */
  lemma EveryFiveMinutes()
    ensures IsValidCron("*/5 * * * *")
  {
    assert "*/5" + " " + "*" + " " + "*" + " " + "*" + " " + "*" == "*/5 * * * *";
    assert FieldMatches(Minute, "*/5") by {
      assert StartsWith("*/5", "*/") && "*/5"[2..] == "5";
    }
    FiveFields("*/5", "*", "*", "*", "*");
  }
  /** Minute 99 is out of range. */
  lemma MinuteNinetyNineRejected()
    ensures !IsValidCron("99 * * * *")
  {
    assert "99" + " " + "*" + " " + "*" + " " + "*" + " " + "*" == "99 * * * *";
    assert !FieldMatches(Minute, "99") by { PrintedNumberAccepted(Minute, 99); assert NatToString(99) == "99"; }
    FiveFields("99", "*", "*", "*", "*");
  }

  /** Month 0 is out of range. */
  lemma MonthZeroRejected()
    ensures !IsValidCron("* * * 0 *")
  {
    assert "*" + " " + "*" + " " + "*" + " " + "0" + " " + "*" == "* * * 0 *";
    FiveFields("*", "*", "*", "0", "*");
  }

  /** Weekday 7 is out of range. */
  lemma WeekdaySevenRejected()
    ensures !IsValidCron("* * * * 7")
  {
    assert "*" + " " + "*" + " " + "*" + " " + "*" + " " + "7" == "* * * * 7";
    FiveFields("*", "*", "*", "*", "7");
  }

  /** A range is not part of the syntax. */
  lemma RangeRejected()
    ensures !IsValidCron("1-5 * * * *")
  {
    assert "1-5" + " " + "*" + " " + "*" + " " + "*" + " " + "*" == "1-5 * * * *";
    assert !FieldMatches(Minute, "1-5") by { OnlyDigitsStarsAndSlashes(Minute, "1-5", 1); }
    FiveFields("1-5", "*", "*", "*", "*");
  }

  /** `05` is a minute but not an hour. */
  lemma LeadingZeroExamples()
    ensures IsValidCron("05 * * * *")
    ensures !IsValidCron("* 05 * * *")
  {
    assert "05" + " " + "*" + " " + "*" + " " + "*" + " " + "*" == "05 * * * *";
    assert "*" + " " + "05" + " " + "*" + " " + "*" + " " + "*" == "* 05 * * *";
    LeadingZeroOnlyInMinute(Minute, '5');
    LeadingZeroOnlyInMinute(Hour, '5');
    assert ['0', '5'] == "05";
    FiveFields("05", "*", "*", "*", "*");
    FiveFields("*", "05", "*", "*", "*");
  }
}
