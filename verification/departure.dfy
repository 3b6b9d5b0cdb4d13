/** The departure-compliance check `pulang_oke` ("departure OK") computed for
    one attendance row: the check-out scan must be recorded and must not be
    earlier than the scheduled end of the working day. */
module Departure {
  import opened Optional
  import opened TimeOfDay
  import opened TimeParse

  /** One cell of an attendance row: pandas NA, or a value given by the text
      `str()` renders for it. */
  datatype Cell = Na | Value(text: string)

  /** An attendance row, keyed by column name. */
  type Row = map<string, Cell>

  /** Scheduled end of the working day. */
  const ScheduledEndKey: string := "Jam_Pulang"
  /** Check-out scan time. */
  const ScanOutKey: string := "Scan_pulang"

  /** `row.get(key)` as seen through `pd.notna`: the cell's text when the
      column exists and the cell is not NA, otherwise `None`. */
  function Present(row: Row, key: string): (r: Option<string>)
    ensures r.Some? <==> key in row && row[key].Value?
    ensures r.Some? ==> r.value == row[key].text
  {
    if key in row then
      match row[key]
      case Na => None
      case Value(text) => Some(text)
    else
      None
  }

  /** The `try` block: parse the scheduled end, then the scan, and compare
      them; `None` stands for the exception either parse may raise. */
  function TryCompare(scheduledEnd: string, scanOut: string): (r: Option<bool>)
    ensures r.Some? <==> ParseTime(scheduledEnd).Some? && ParseTime(scanOut).Some?
    ensures r.Some? ==> (r.value <==> NotAfter(ParseTime(scheduledEnd).value, ParseTime(scanOut).value))
  {
    match ParseTime(scheduledEnd)
    case None => None
    case Some(jam) =>
      match ParseTime(scanOut)
      case None => None
      case Some(scan) => Some(NotAfter(jam, scan))
  }

  /** `pulang_oke` for one row. The initial `True` is overwritten on every
      path: a missing value on either side fails, a parse error fails, and
      otherwise the scan must not be earlier than the scheduled end. The
      verdict agrees with the seconds-based reference reading on every row. */
  function PulangOke(row: Row): (ok: bool)
    ensures Present(row, ScheduledEndKey).None? ==> !ok
    ensures Present(row, ScanOutKey).None? ==> !ok
    ensures ok <==> DepartsOnTime(row)
  {
    var scheduledEnd := Present(row, ScheduledEndKey);
    var scanOut := Present(row, ScanOutKey);
    if scheduledEnd.Some? && scanOut.Some? then
      var verdict := TryCompare(scheduledEnd.value, scanOut.value);
      if verdict.Some? then
        NotAfterIffSeconds(ParseTime(scheduledEnd.value).value, ParseTime(scanOut.value).value);
        verdict.value
      else
        false
    else
      false
  }

  /** A reference reading of the rule, independent of the tuple comparison:
      both times are recorded, both parse, and the scan, counted in seconds
      since midnight, is at least the scheduled end. */
  predicate DepartsOnTime(row: Row) {
    && ScheduledEndKey in row && row[ScheduledEndKey].Value?
    && ScanOutKey in row && row[ScanOutKey].Value?
    && var jam := ParseTime(row[ScheduledEndKey].text);
       var scan := ParseTime(row[ScanOutKey].text);
       && jam.Some? && scan.Some?
       && SecondsOfDay(jam.value) <= SecondsOfDay(scan.value)
  }

  /** With both times recorded and parseable, the verdict is the comparison
      `scan >= scheduled end`, and nothing else. */
  lemma BothParsedDecidesByComparison(row: Row, jam: Time, scan: Time)
    requires Present(row, ScheduledEndKey).Some? && Present(row, ScanOutKey).Some?
    requires ParseTime(row[ScheduledEndKey].text) == Some(jam)
    requires ParseTime(row[ScanOutKey].text) == Some(scan)
    ensures PulangOke(row) <==> NotAfter(jam, scan)
  {
  }

  /** A value on either side that does not parse fails the check. */
  lemma UnparseableFails(row: Row)
    requires Present(row, ScheduledEndKey).Some? && Present(row, ScanOutKey).Some?
    requires ParseTime(row[ScheduledEndKey].text).None? || ParseTime(row[ScanOutKey].text).None?
    ensures !PulangOke(row)
  {
  }

  /** Scanning out at exactly the scheduled end passes: the comparison is
      not strict. */
  lemma OnTimeScanPasses(row: Row)
    requires Present(row, ScheduledEndKey).Some? && Present(row, ScanOutKey).Some?
    requires ParseTime(row[ScheduledEndKey].text).Some?
    requires ParseTime(row[ScanOutKey].text) == ParseTime(row[ScheduledEndKey].text)
    ensures PulangOke(row)
  {
    var t := ParseTime(row[ScheduledEndKey].text).value;
    NotAfterTotalOrder(t, t, t);
  }

  /** A passing row keeps passing when its scan is replaced by a later one. */
  lemma LaterScanStillPasses(row: Row, later: string)
    requires PulangOke(row)
    requires ParseTime(later).Some?
    requires NotAfter(ParseTime(row[ScanOutKey].text).value, ParseTime(later).value)
    ensures PulangOke(row[ScanOutKey := Value(later)])
  {
    var row' := row[ScanOutKey := Value(later)];
    assert Present(row', ScheduledEndKey) == Present(row, ScheduledEndKey);
    var jam := ParseTime(row[ScheduledEndKey].text).value;
    var scan := ParseTime(row[ScanOutKey].text).value;
    NotAfterTotalOrder(jam, scan, ParseTime(later).value);
  }

  /** Only the two columns are read: rows that agree on them agree on the
      verdict, whatever their other columns hold. */
  lemma OnlyTwoColumnsRead(row: Row, other: Row)
    requires Present(row, ScheduledEndKey) == Present(other, ScheduledEndKey)
    requires Present(row, ScanOutKey) == Present(other, ScanOutKey)
    ensures PulangOke(row) == PulangOke(other)
  {
  }

  /** Writing any other column leaves the verdict unchanged. */
  lemma OtherColumnIgnored(row: Row, key: string, cell: Cell)
    requires key != ScheduledEndKey && key != ScanOutKey
    ensures PulangOke(row[key := cell]) == PulangOke(row)
  {
    OnlyTwoColumnsRead(row, row[key := cell]);
  }
}
