/**
 * Calendar dates as the uploader reads and writes them: Python's
 * `datetime.strptime(s, '%Y-%m-%d')` (used by the record validator) and
 * `strftime('%Y-%m-%d')` (used when database rows are normalised).
 *
 * `strptime` matches the regular expression CPython builds for that format,
 *   (?P<Y>\d\d\d\d)-(?P<m>1[0-2]|0[1-9]|[1-9])-(?P<d>3[01]|[12]\d|0[1-9]|[1-9]| [1-9])
 * anchored at the start only, tries the alternatives in that order, then
 * refuses leftover characters and dates outside the Gregorian calendar.
 */
module Dates {
  import opened PyText

  datatype Date = Date(year: int, month: int, day: int)

  predicate IsLeap(y: int) {
    y % 4 == 0 && (y % 100 != 0 || y % 400 == 0)
  }

  function DaysInMonth(y: int, m: int): (n: int)
    requires 1 <= m <= 12
    ensures 28 <= n <= 31
  {
    if m == 2 then (if IsLeap(y) then 29 else 28)
    else if m == 4 || m == 6 || m == 9 || m == 11 then 30
    else 31
  }

  /** A date Python's `datetime.date` can hold (years 1 to 9999). */
  predicate ValidDate(d: Date) {
    1 <= d.year <= 9999 && 1 <= d.month <= 12 && 1 <= d.day <= DaysInMonth(d.year, d.month)
  }

  // ----- the regular expression -----

  datatype Atom = Lit(c: char) | Span(lo: char, hi: char)

  predicate AtomMatches(a: Atom, c: char) {
    match a
    case Lit(x) => c == x
    case Span(lo, hi) => lo <= c <= hi
  }

  /** The alternatives of the `%m` group, in the order the regex tries them. */
  const MonthAlts: seq<seq<Atom>> := [
    [Lit('1'), Span('0', '2')],
    [Lit('0'), Span('1', '9')],
    [Span('1', '9')]
  ]

  /** The alternatives of the `%d` group, in the order the regex tries them. */
  const DayAlts: seq<seq<Atom>> := [
    [Lit('3'), Span('0', '1')],
    [Span('1', '2'), Span('0', '9')],
    [Lit('0'), Span('1', '9')],
    [Span('1', '9')],
    [Lit(' '), Span('1', '9')]
  ]

  predicate AltMatchesAt(s: string, pos: nat, alt: seq<Atom>) {
    pos + |alt| <= |s| && forall i :: 0 <= i < |alt| ==> AtomMatches(alt[i], s[pos + i])
  }

  lemma NoMatchAt(s: string, pos: nat, alt: seq<Atom>, i: nat)
    requires i < |alt| && pos + i < |s| && !AtomMatches(alt[i], s[pos + i])
    ensures !AltMatchesAt(s, pos, alt)
  {
  }

  /** Length of the first alternative that matches at `pos`, if any. */
  function FirstMatch(s: string, pos: nat, alts: seq<seq<Atom>>): (r: Option<nat>)
    ensures r.Some? ==> pos + r.value <= |s|
  {
    if alts == [] then None
    else if AltMatchesAt(s, pos, alts[0]) then Some(|alts[0]|)
    else FirstMatch(s, pos, alts[1..])
  }

  /** `int(text)` of a matched group: digits, possibly after one space. */
  function GroupValue(t: string): nat {
    if AllDigits(t) then DigitsValue(t)
    else if |t| > 0 && t[0] == ' ' && AllDigits(t[1..]) then DigitsValue(t[1..])
    else 0
  }

  /**
   * The month and day groups, starting at index 5: each month alternative in
   * turn, followed by '-' and the first day alternative that matches
   * (backtracking into the month group when no day alternative matches).
   * Yields (month, day, end of match).
   */
  function MatchMonthDay(s: string, alts: seq<seq<Atom>>): (r: Option<(nat, nat, nat)>)
    ensures r.Some? ==> r.value.2 <= |s|
  {
    if alts == [] then None
    else
      var a := alts[0];
      if AltMatchesAt(s, 5, a) && 5 + |a| < |s| && s[5 + |a|] == '-' then
        match FirstMatch(s, 6 + |a|, DayAlts)
        case Some(dl) =>
          Some((GroupValue(s[5..5 + |a|]), GroupValue(s[6 + |a|..6 + |a| + dl]), 6 + |a| + dl))
        case None => MatchMonthDay(s, alts[1..])
      else MatchMonthDay(s, alts[1..])
  }

  /** The regex match: (year, month, day, end of match). */
  function MatchDate(s: string): (r: Option<(nat, nat, nat, nat)>)
    ensures r.Some? ==> r.value.3 <= |s|
  {
    if |s| >= 5 && AllDigits(s[..4]) && s[4] == '-' then
      match MatchMonthDay(s, MonthAlts)
      case Some((m, d, e)) => Some((DigitsValue(s[..4]), m, d, e))
      case None => None
    else None
  }

  /**
   * `datetime.strptime(s, '%Y-%m-%d')`: the parsed date, or None where Python
   * raises ValueError (no match, unconverted data remains, or no such day).
   */
  function StrpTime(s: string): (r: Option<Date>)
    ensures r.Some? ==> ValidDate(r.value)
  {
    match MatchDate(s)
    case None => None
    case Some((y, m, d, e)) =>
      if e == |s| && ValidDate(Date(y, m, d)) then Some(Date(y, m, d)) else None
  }

  // ----- strftime -----

  function Pad2(n: int): (r: string)
    requires 0 <= n < 100
    ensures |r| == 2 && AllDigits(r)
  {
    [DigitChar(n / 10), DigitChar(n % 10)]
  }

  function Pad4(n: int): (r: string)
    requires 0 <= n < 10000
    ensures |r| == 4 && AllDigits(r)
  {
    Pad2(n / 100) + Pad2(n % 100)
  }

  /** `date.strftime('%Y-%m-%d')`, the year zero-padded to four digits. */
  function FormatDate(d: Date): (r: string)
    requires ValidDate(d)
    ensures |r| == 10 && r[4] == '-' && r[7] == '-'
  {
    Pad4(d.year) + "-" + Pad2(d.month) + "-" + Pad2(d.day)
  }

  lemma Pad2Value(n: int)
    requires 0 <= n < 100
    ensures DigitsValue(Pad2(n)) == n
  {
    var t := Pad2(n);
    assert t[..1] == [DigitChar(n / 10)];
    assert t[..1][..0] == [];
    assert DigitsValue(t[..1]) == n / 10;
    assert DigitsValue(t) == DigitsValue(t[..1]) * 10 + n % 10;
  }

  lemma Pad4Value(n: int)
    requires 0 <= n < 10000
    ensures DigitsValue(Pad4(n)) == n
  {
    var t := Pad4(n);
    var hi, lo := Pad2(n / 100), Pad2(n % 100);
    assert t[..3] == hi + [lo[0]];
    assert t[..3][..2] == hi;
    Pad2Value(n / 100);
    assert hi[..1][..0] == [];
  }

  lemma Pad2Distinct(a: int, b: int)
    requires 0 <= a < 100 && 0 <= b < 100 && Pad2(a) == Pad2(b)
    ensures a == b
  {
    Pad2Value(a);
    Pad2Value(b);
  }

  /** Reading back what `FormatDate` wrote gives the same date. */
  lemma {:induction false} FormatThenParse(d: Date)
    requires ValidDate(d)
    ensures StrpTime(FormatDate(d)) == Some(d)
  {
    var s := FormatDate(d);
    var ys, ms, ds := Pad4(d.year), Pad2(d.month), Pad2(d.day);
    assert s[..4] == ys;
    assert s[5..7] == ms;
    assert s[8..10] == ds;
    Pad4Value(d.year);
    Pad2Value(d.month);
    Pad2Value(d.day);
    var a0, a1 := MonthAlts[0], MonthAlts[1];
    if d.month >= 10 {
      assert AltMatchesAt(s, 5, a0);
      DayMatch(s, d.day);
      assert MatchMonthDay(s, MonthAlts) == Some((d.month as nat, d.day as nat, 10));
    } else {
      assert s[5] == '0';
      NoMatchAt(s, 5, a0, 0);
      assert AltMatchesAt(s, 5, a1);
      DayMatch(s, d.day);
      assert MatchMonthDay(s, MonthAlts[1..]) == Some((d.month as nat, d.day as nat, 10));
      assert MatchMonthDay(s, MonthAlts) == Some((d.month as nat, d.day as nat, 10));
    }
  }

  /** In a formatted date the day group matches exactly the two day digits. */
  lemma DayMatch(s: string, day: int)
    requires |s| == 10 && 1 <= day <= 31 && s[8..10] == Pad2(day)
    ensures FirstMatch(s, 8, DayAlts) == Some(2)
  {
    assert s[8] == Pad2(day)[0] && s[9] == Pad2(day)[1];
    if day >= 30 {
      assert AltMatchesAt(s, 8, DayAlts[0]);
    } else if day >= 10 {
      assert s[8] != '3';
      NoMatchAt(s, 8, DayAlts[0], 0);
      assert AltMatchesAt(s, 8, DayAlts[1]);
      assert FirstMatch(s, 8, DayAlts[1..]) == Some(2);
    } else {
      assert s[8] == '0';
      NoMatchAt(s, 8, DayAlts[0], 0);
      NoMatchAt(s, 8, DayAlts[1], 0);
      assert AltMatchesAt(s, 8, DayAlts[2]);
      assert DayAlts[1..][1..] == DayAlts[2..];
      assert FirstMatch(s, 8, DayAlts[2..]) == Some(2);
    }
  }

  /** Two valid dates format to the same text only if they are the same date. */
  lemma FormatDateInjective(a: Date, b: Date)
    requires ValidDate(a) && ValidDate(b) && FormatDate(a) == FormatDate(b)
    ensures a == b
  {
    FormatThenParse(a);
    FormatThenParse(b);
  }

  /** strptime does not insist on zero padding: "2024-1-5" is accepted. */
  lemma UnpaddedDateAccepted()
    ensures StrpTime("2024-1-5") == Some(Date(2024, 1, 5))
  {
    var s := "2024-1-5";
    assert s[..4] == "2024";
    assert "2024"[..3] == "202" && "202"[..2] == "20" && "20"[..1] == "2" && "2"[..0] == [];
    assert DigitsValue("2024") == 2024;
    assert AllDigits(s[..4]) && s[4] == '-';
    UnpaddedMonthDay();
    assert MatchDate(s) == Some((2024, 1, 5, 8));
  }

  lemma UnpaddedMonthDay()
    ensures MatchMonthDay("2024-1-5", MonthAlts) == Some((1, 5, 8))
  {
    var s := "2024-1-5";
    NoMatchAt(s, 5, MonthAlts[0], 1);
    NoMatchAt(s, 5, MonthAlts[1], 0);
    assert AltMatchesAt(s, 5, MonthAlts[2]);
    assert s[5..6] == "1";
    NoMatchAt(s, 7, DayAlts[0], 0);
    NoMatchAt(s, 7, DayAlts[1], 0);
    NoMatchAt(s, 7, DayAlts[2], 0);
    assert AltMatchesAt(s, 7, DayAlts[3]);
    assert FirstMatch(s, 7, DayAlts) == Some(1);
    assert s[7..8] == "5";
    assert "1"[..0] == [] && "5"[..0] == [];
    assert GroupValue("1") == 1 && GroupValue("5") == 5;
    assert MatchMonthDay(s, MonthAlts[2..]) == Some((1, 5, 8));
  }

  /** A day the month does not have is refused: there is no 30 February. */
  lemma NoThirtiethOfFebruary()
    ensures StrpTime("2024-02-30") == None
  {
    var s := "2024-02-30";
    assert s[..4] == "2024";
    NoMatchAt(s, 5, MonthAlts[0], 0);
    assert AltMatchesAt(s, 5, MonthAlts[1]);
    assert s[5] == '0' && s[6] == '2';
    assert s[5..7] == "02";
    assert AltMatchesAt(s, 8, DayAlts[0]);
    assert s[8] == '3' && s[9] == '0';
    assert s[8..10] == "30";
    assert "02"[..1] == "0" && "30"[..1] == "3" && "0"[..0] == [] && "3"[..0] == [];
    assert GroupValue("02") == 2 && GroupValue("30") == 30;
    assert MatchMonthDay(s, MonthAlts[1..]) == Some((2, 30, 10));
    assert MatchMonthDay(s, MonthAlts) == Some((2, 30, 10));
  }
}
