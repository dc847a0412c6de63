/** `get_tbs`: the custom date range carried by the `tbs` URL parameter. */
module Tbs {
  import opened Wrappers
  import opened Text

  /** A `datetime.date`. */
  datatype Date = Date(year: int, month: int, day: int)

  predicate IsLeapYear(year: int) {
    (year % 4 == 0 && year % 100 != 0) || year % 400 == 0
  }

  function DaysInMonth(year: int, month: int): int
    requires 1 <= month <= 12
  {
    if month == 2 then (if IsLeapYear(year) then 29 else 28)
    else if month == 4 || month == 6 || month == 9 || month == 11 then 30
    else 31
  }

  /** The dates `datetime.date` can hold: years 1 to 9999 and real calendar days. */
  predicate ValidDate(d: Date) {
    1 <= d.year <= 9999 && 1 <= d.month <= 12 && 1 <= d.day <= DaysInMonth(d.year, d.month)
  }

  /** `d.strftime("%m/%d/%Y")`: two-digit month, two-digit day, four-digit year. */
  function FormatDate(d: Date): (s: string)
    requires ValidDate(d)
    ensures |s| == 10 && s[2] == '/' && s[5] == '/'
    ensures '&' !in s
  {
    NatToStringLength(d.month, 2);
    NatToStringLength(d.day, 2);
    NatToStringLength(d.year, 4);
    var m, dd, y := ZeroPad(d.month, 2), ZeroPad(d.day, 2), ZeroPad(d.year, 4);
    DigitsAvoid(m, '&');
    DigitsAvoid(dd, '&');
    DigitsAvoid(y, '&');
    m + "/" + dd + "/" + y
  }

  const TbsPrefix := "cdr:1,cd_min:"
  const TbsMiddle := ",cd_max:"

  /** `get_tbs(from_date, to_date)`. */
  function GetTbs(fromDate: Date, toDate: Date): (tbs: string)
    requires ValidDate(fromDate) && ValidDate(toDate)
    ensures |tbs| == 41
    ensures '&' !in tbs
  {
    var from, to := FormatDate(fromDate), FormatDate(toDate);
    assert '&' !in TbsPrefix && '&' !in TbsMiddle;
    TbsPrefix + from + TbsMiddle + to
  }

  /** Reads `MM/DD/YYYY` back into a date. */
  function ParseDate(s: string): Option<Date> {
    if |s| == 10 && s[2] == '/' && s[5] == '/' && AllDigits(s[..2]) && AllDigits(s[3..5]) && AllDigits(s[6..]) then
      Some(Date(ParseNat(s[6..]), ParseNat(s[..2]), ParseNat(s[3..5])))
    else None
  }

  /** Reads a `get_tbs` string back into its two dates. */
  function ParseTbs(tbs: string): Option<(Date, Date)> {
    if |tbs| == 41 && tbs[..13] == TbsPrefix && tbs[23..31] == TbsMiddle then
      match (ParseDate(tbs[13..23]), ParseDate(tbs[31..]))
      case (Some(a), Some(b)) => Some((a, b))
      case _ => None
    else None
  }

  lemma FormatDateRoundTrip(d: Date)
    requires ValidDate(d)
    ensures ParseDate(FormatDate(d)) == Some(d)
  {
    var s := FormatDate(d);
    NatToStringLength(d.month, 2);
    NatToStringLength(d.day, 2);
    NatToStringLength(d.year, 4);
    assert s[..2] == ZeroPad(d.month, 2);
    assert s[3..5] == ZeroPad(d.day, 2);
    assert s[6..] == ZeroPad(d.year, 4);
    ZeroPadRoundTrip(d.month, 2);
    ZeroPadRoundTrip(d.day, 2);
    ZeroPadRoundTrip(d.year, 4);
  }

  /** The two dates can be read back from the `tbs` string, in order. */
  lemma TbsRoundTrip(fromDate: Date, toDate: Date)
    requires ValidDate(fromDate) && ValidDate(toDate)
    ensures ParseTbs(GetTbs(fromDate, toDate)) == Some((fromDate, toDate))
  {
    var tbs := GetTbs(fromDate, toDate);
    assert tbs[..13] == TbsPrefix;
    assert tbs[13..23] == FormatDate(fromDate);
    assert tbs[23..31] == TbsMiddle;
    assert tbs[31..] == FormatDate(toDate);
    FormatDateRoundTrip(fromDate);
    FormatDateRoundTrip(toDate);
  }
}
