/** The priority key of a folder: the first `YYYY-MM-DD` in its name, read as a
    calendar date, or the fallback date 1900-01-01 (process_paper.py,
    `extract_date_from_folder_name`). */
module FolderDates {
  import opened Seqs

  /** A proleptic Gregorian date, compared field by field like Python's `datetime`. */
  datatype Date = Date(year: int, month: int, day: int)

  /** What the extractor returns when it finds no usable date. */
  const Fallback: Date := Date(1900, 1, 1)

  predicate IsLeapYear(y: int)
  {
    y % 4 == 0 && (y % 100 != 0 || y % 400 == 0)
  }

  function DaysInMonth(y: int, m: int): int
    requires 1 <= m <= 12
  {
    if m == 2 then (if IsLeapYear(y) then 29 else 28)
    else if m == 4 || m == 6 || m == 9 || m == 11 then 30
    else 31
  }

  /** The dates `datetime.strptime(..., '%Y-%m-%d')` accepts. */
  predicate IsValidDate(d: Date)
  {
    1 <= d.year <= 9999 && 1 <= d.month <= 12 && 1 <= d.day <= DaysInMonth(d.year, d.month)
  }

  /** `a <= b` on dates. */
  predicate AtOrBefore(a: Date, b: Date)
  {
    a.year < b.year
    || (a.year == b.year && (a.month < b.month || (a.month == b.month && a.day <= b.day)))
  }

  lemma AtOrBeforeTotalOrder(a: Date, b: Date, c: Date)
    ensures AtOrBefore(a, a)
    ensures AtOrBefore(a, b) || AtOrBefore(b, a)
    ensures AtOrBefore(a, b) && AtOrBefore(b, a) ==> a == b
    ensures AtOrBefore(a, b) && AtOrBefore(b, c) ==> AtOrBefore(a, c)
  {
  }

  predicate IsDigit(c: char)
  {
    '0' <= c <= '9'
  }

  function DigitAt(s: string, i: nat): nat
    requires i < |s| && IsDigit(s[i])
  {
    (s[i] as int) - ('0' as int)
  }

  /** The regular expression `\d{4}-\d{2}-\d{2}` matches at offset `i` (ASCII digits). */
  predicate MatchesAt(s: string, i: nat)
  {
    i + 10 <= |s|
    && IsDigit(s[i]) && IsDigit(s[i + 1]) && IsDigit(s[i + 2]) && IsDigit(s[i + 3])
    && s[i + 4] == '-'
    && IsDigit(s[i + 5]) && IsDigit(s[i + 6])
    && s[i + 7] == '-'
    && IsDigit(s[i + 8]) && IsDigit(s[i + 9])
  }

  /** The leftmost match at or after offset `k`. */
  function FirstMatchFrom(s: string, k: nat): (r: Option<nat>)
    ensures r.Some? ==> k <= r.value && MatchesAt(s, r.value)
    ensures r.Some? ==> forall j: nat :: k <= j < r.value ==> !MatchesAt(s, j)
    ensures r.None? ==> forall j: nat :: k <= j ==> !MatchesAt(s, j)
    decreases |s| - k
  {
    if k + 10 > |s| then None
    else if MatchesAt(s, k) then Some(k)
    else FirstMatchFrom(s, k + 1)
  }

  /** `re.findall(...)[0]`, when there is one: the leftmost match. */
  function FirstMatch(s: string): (r: Option<nat>)
    ensures r.Some? <==> exists j: nat :: MatchesAt(s, j)
    ensures r.Some? ==> MatchesAt(s, r.value) && forall j: nat :: j < r.value ==> !MatchesAt(s, j)
  {
    FirstMatchFrom(s, 0)
  }

  /** The ten characters at `i` read as year, month and day fields. */
  function ReadDateAt(s: string, i: nat): Date
    requires MatchesAt(s, i)
  {
    Date(1000 * DigitAt(s, i) + 100 * DigitAt(s, i + 1) + 10 * DigitAt(s, i + 2) + DigitAt(s, i + 3),
         10 * DigitAt(s, i + 5) + DigitAt(s, i + 6),
         10 * DigitAt(s, i + 8) + DigitAt(s, i + 9))
  }

  /** `extract_date_from_folder_name`: only the first match is parsed; when it is not
      a calendar date the parse error is caught and the fallback is returned. */
  function ExtractDate(name: string): (d: Date)
    ensures IsValidDate(d)
    ensures d == Fallback || exists i: nat :: MatchesAt(name, i) && d == ReadDateAt(name, i)
  {
    match FirstMatch(name)
    case None => Fallback
    case Some(i) =>
      var d := ReadDateAt(name, i);
      if IsValidDate(d) then d else Fallback
  }

  /** A name without any `YYYY-MM-DD` gets the fallback date. */
  lemma NoMatchGivesFallback(name: string)
    requires forall j: nat :: !MatchesAt(name, j)
    ensures ExtractDate(name) == Fallback
  {
  }

  /** The key is the leftmost match when that match is a calendar date. */
  lemma LeftmostValidMatchIsKey(name: string, i: nat)
    requires MatchesAt(name, i) && forall j: nat :: j < i ==> !MatchesAt(name, j)
    requires IsValidDate(ReadDateAt(name, i))
    ensures ExtractDate(name) == ReadDateAt(name, i)
  {
    var r := FirstMatch(name);
    assert r.Some?;
    assert r.value == i;
  }

  /** An invalid leftmost match gives the fallback, even when a later match is a
      valid date: the later matches are never looked at. */
  lemma InvalidLeftmostMatchGivesFallback(name: string, i: nat)
    requires MatchesAt(name, i) && forall j: nat :: j < i ==> !MatchesAt(name, j)
    requires !IsValidDate(ReadDateAt(name, i))
    ensures ExtractDate(name) == Fallback
  {
    var r := FirstMatch(name);
    assert r.Some?;
    assert r.value == i;
  }

  lemma ExampleTwoDates()
    ensures ExtractDate("2015-01-01_2015-03-31_MNSC") == Date(2015, 1, 1)
  {
    var s := "2015-01-01_2015-03-31_MNSC";
    assert MatchesAt(s, 0);
    assert DigitAt(s, 0) == 2 && DigitAt(s, 1) == 0 && DigitAt(s, 2) == 1 && DigitAt(s, 3) == 5;
    assert DigitAt(s, 5) == 0 && DigitAt(s, 6) == 1 && DigitAt(s, 8) == 0 && DigitAt(s, 9) == 1;
    assert ReadDateAt(s, 0) == Date(2015, 1, 1);
    LeftmostValidMatchIsKey(s, 0);
  }

  lemma ExampleOutOfRangeMonth()
    ensures ExtractDate("2099-13-40_bad") == Fallback
  {
    var s := "2099-13-40_bad";
    assert MatchesAt(s, 0);
    InvalidLeftmostMatchGivesFallback(s, 0);
  }

  /** A name whose first date is 29 February of a common year and whose second
      is 29 February of a leap year. */
  const TwoLeapDays: string := "2023-02-29_2024-02-29"

  lemma TwoLeapDaysFirst()
    ensures MatchesAt(TwoLeapDays, 0) && ReadDateAt(TwoLeapDays, 0) == Date(2023, 2, 29)
  {
    var s := TwoLeapDays;
    assert MatchesAt(s, 0);
    assert DigitAt(s, 0) == 2 && DigitAt(s, 1) == 0 && DigitAt(s, 2) == 2 && DigitAt(s, 3) == 3;
    assert DigitAt(s, 5) == 0 && DigitAt(s, 6) == 2 && DigitAt(s, 8) == 2 && DigitAt(s, 9) == 9;
  }

  lemma TwoLeapDaysSecond()
    ensures MatchesAt(TwoLeapDays, 11) && ReadDateAt(TwoLeapDays, 11) == Date(2024, 2, 29)
  {
    var s := TwoLeapDays;
    assert MatchesAt(s, 11);
    assert DigitAt(s, 11) == 2 && DigitAt(s, 12) == 0 && DigitAt(s, 13) == 2 && DigitAt(s, 14) == 4;
    assert DigitAt(s, 16) == 0 && DigitAt(s, 17) == 2 && DigitAt(s, 19) == 2 && DigitAt(s, 20) == 9;
  }

  /** Only the first match is parsed: the invalid 2023-02-29 gives the fallback
      although 2024-02-29 later in the name is a calendar date. */
  lemma ExampleLaterValidDateIgnored()
    ensures MatchesAt(TwoLeapDays, 11) && IsValidDate(ReadDateAt(TwoLeapDays, 11))
    ensures ExtractDate(TwoLeapDays) == Fallback
  {
    TwoLeapDaysFirst();
    TwoLeapDaysSecond();
    InvalidLeftmostMatchGivesFallback(TwoLeapDays, 0);
  }

  lemma ExampleNoDate()
    ensures ExtractDate("no-date-here") == Fallback
  {
    var s := "no-date-here";
    forall j: nat ensures !MatchesAt(s, j) {
      if j + 10 <= |s| { assert !IsDigit(s[j]); }
    }
  }

  /** The fallback only sorts last among dates from 1900-01-01 on: a valid date
      before 1900 is strictly earlier, so its folder is ranked after every
      undated folder. */
  lemma FallbackNotMinimal()
    ensures IsValidDate(ExtractDate("1850-06-30_A"))
    ensures AtOrBefore(ExtractDate("1850-06-30_A"), ExtractDate("no-date"))
    ensures ExtractDate("1850-06-30_A") != ExtractDate("no-date")
  {
    var s := "1850-06-30_A";
    assert MatchesAt(s, 0);
    LeftmostValidMatchIsKey(s, 0);
    var u := "no-date";
    forall j: nat ensures !MatchesAt(u, j) { }
  }
}
