/** Worked rows for the departure check, with the times a scheduled end of
    17:00 meets in practice. */
module Scenarios {
  import opened Optional
  import opened TimeOfDay
  import opened TimeParse
  import opened Departure

  /** A row holding the two columns the check reads, plus an unrelated one. */
  function AttendanceRow(scheduledEnd: Cell, scanOut: Cell): (row: Row)
    ensures Present(row, ScheduledEndKey) == (if scheduledEnd.Value? then Some(scheduledEnd.text) else None)
    ensures Present(row, ScanOutKey) == (if scanOut.Value? then Some(scanOut.text) else None)
  {
    map[ScheduledEndKey := scheduledEnd, ScanOutKey := scanOut, "Nama" := Value("Ana")]
  }

  lemma ParseScheduledEnd()
    ensures ParseTime("17:00") == Some(Time(17, 0, 0))
  {
    assert TwoDigits(17) == "17" && TwoDigits(0) == "00";
    ParseHourMinute("17", "00");
  }

  lemma ParseLateScan()
    ensures ParseTime("17:05") == Some(Time(17, 5, 0))
  {
    assert TwoDigits(17) == "17" && TwoDigits(5) == "05";
    ParseHourMinute("17", "05");
  }

  lemma ParseEarlyScan()
    ensures ParseTime("16:55") == Some(Time(16, 55, 0))
  {
    assert TwoDigits(16) == "16" && TwoDigits(55) == "55";
    ParseHourMinute("16", "55");
  }

  lemma ScanAfterEndPasses()
    ensures PulangOke(AttendanceRow(Value("17:00"), Value("17:05")))
  {
    ParseScheduledEnd();
    ParseLateScan();
  }

  lemma ScanBeforeEndFails()
    ensures !PulangOke(AttendanceRow(Value("17:00"), Value("16:55")))
  {
    ParseScheduledEnd();
    ParseEarlyScan();
  }

  lemma ScanAtEndPasses()
    ensures PulangOke(AttendanceRow(Value("17:00"), Value("17:00")))
  {
    ParseScheduledEnd();
  }

  lemma MissingScanFails()
    ensures !PulangOke(AttendanceRow(Value("17:00"), Na))
  {
  }

  /** A row with no scheduled end fails too, even with a scan recorded. */
  lemma MissingScheduledEndFails()
    ensures !PulangOke(AttendanceRow(Na, Value("17:05")))
  {
  }

  /** Text that is not a time fails the check instead of raising. */
  lemma GarbledScanFails()
    ensures !PulangOke(AttendanceRow(Value("17:00"), Value("abc")))
    ensures !PulangOke(AttendanceRow(Value("17:00"), Value("")))
  {
  }
}
