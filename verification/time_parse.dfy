/** A stand-in for `pd.to_datetime(text).time()` on time-of-day text.

    The real pandas parser accepts far more shapes than this; the model
    accepts the colon forms `H:MM`, `HH:MM`, `H:MM:SS` and `HH:MM:SS` and
    rejects anything else, including out-of-range fields, with `None`, which
    stands for the exception pandas raises. Seconds are kept, as `.time()`
    keeps them; a missing seconds field reads as zero. */
module TimeParse {
  import opened Optional
  import opened TimeOfDay

  predicate IsDigit(c: char) {
    '0' <= c <= '9'
  }

  predicate AllDigits(s: string) {
    forall i :: 0 <= i < |s| ==> IsDigit(s[i])
  }

  function DigitValue(c: char): (d: nat)
    requires IsDigit(c)
    ensures d < 10
  {
    c as int - '0' as int
  }

  function DigitChar(d: nat): (c: char)
    requires d < 10
    ensures IsDigit(c) && DigitValue(c) == d
  {
    ('0' as int + d) as char
  }

  function Pow10(k: nat): (p: nat)
    ensures p >= 1
  {
    if k == 0 then 1 else 10 * Pow10(k - 1)
  }

  /** Decimal value of a digit string, most significant digit first. */
  function DigitsValue(s: string): (n: nat)
    requires AllDigits(s)
    ensures n < Pow10(|s|)
  {
    if s == [] then 0 else DigitsValue(s[..|s| - 1]) * 10 + DigitValue(s[|s| - 1])
  }

  /** Position of the first ':' in `s`. */
  function FirstColon(s: string): (i: nat)
    requires ':' in s
    ensures i < |s| && s[i] == ':'
    ensures ':' !in s[..i]
  {
    if s[0] == ':' then 0
    else
      var j := FirstColon(s[1..]);
      assert s[..j + 1] == [s[0]] + s[1..][..j];
      j + 1
  }

  /** Fields joined with ':' separators. */
  function Join(fs: seq<string>): string
    requires |fs| >= 1
  {
    if |fs| == 1 then fs[0] else fs[0] + ":" + Join(fs[1..])
  }

  /** `s` split at every ':'; joining the pieces gives `s` back. */
  function Fields(s: string): (fs: seq<string>)
    ensures |fs| >= 1
    ensures forall i :: 0 <= i < |fs| ==> ':' !in fs[i]
    ensures Join(fs) == s
    decreases |s|
  {
    if ':' !in s then [s]
    else
      var i := FirstColon(s);
      var rest := Fields(s[i + 1..]);
      var fs := [s[..i]] + rest;
      assert fs[1..] == rest;
      assert s == s[..i] + ":" + s[i + 1..];
      fs
  }

  /** Splitting undoes joining, when no field holds a ':'. */
  lemma {:induction false} FieldsOfJoin(fs: seq<string>)
    requires |fs| >= 1
    requires forall i :: 0 <= i < |fs| ==> ':' !in fs[i]
    ensures Fields(Join(fs)) == fs
    decreases |fs|
  {
    if |fs| > 1 {
      var s := Join(fs);
      var k := |fs[0]|;
      assert s == fs[0] + ":" + Join(fs[1..]);
      assert s[k] == ':';
      assert s[..k] == fs[0];
      assert ':' in s;
      var i := FirstColon(s);
      assert i == k;
      assert s[i + 1..] == Join(fs[1..]);
      FieldsOfJoin(fs[1..]);
      assert Fields(s) == [fs[0]] + fs[1..];
    }
  }

  /** Joining three fields, spelled out. */
  lemma JoinThree(fs: seq<string>)
    requires |fs| == 3
    ensures Join(fs) == fs[0] + ":" + (fs[1] + ":" + fs[2])
  {
    assert fs[1..][1..] == [fs[2]];
    assert Join(fs[1..]) == fs[1] + ":" + fs[2];
  }

  predicate IsHourField(f: string) {
    1 <= |f| <= 2 && AllDigits(f)
  }

  predicate IsTwoDigitField(f: string) {
    |f| == 2 && AllDigits(f)
  }

  /** `Some(t)` when `t` is a valid time; `None` models the out-of-range error. */
  function Checked(t: Time): (r: Option<Time>)
    ensures r.Some? <==> Valid(t)
    ensures r.Some? ==> r.value == t
  {
    if Valid(t) then Some(t) else None
  }

  /** `pd.to_datetime(text).time()`, with `None` for the raised exception.
      A successful parse comes only from two or three colon-separated digit
      fields, and yields the hour, minute and second those fields spell. */
  function ParseTime(s: string): (r: Option<Time>)
    ensures r.Some? ==> Valid(r.value)
    ensures r.Some? ==> 4 <= |s| <= 8 && ':' in s
    ensures r.Some? ==>
      var fs := Fields(s);
      && (|fs| == 2 || |fs| == 3)
      && IsHourField(fs[0]) && IsTwoDigitField(fs[1])
      && (|fs| == 3 ==> IsTwoDigitField(fs[2]))
      && r.value.hour == DigitsValue(fs[0])
      && r.value.minute == DigitsValue(fs[1])
      && r.value.second == (if |fs| == 3 then DigitsValue(fs[2]) else 0)
  {
    var fs := Fields(s);
    if |fs| == 2 && IsHourField(fs[0]) && IsTwoDigitField(fs[1]) then
      assert s == fs[0] + ":" + fs[1];
      Checked(Time(DigitsValue(fs[0]), DigitsValue(fs[1]), 0))
    else if |fs| == 3 && IsHourField(fs[0]) && IsTwoDigitField(fs[1]) && IsTwoDigitField(fs[2]) then
      JoinThree(fs);
      Checked(Time(DigitsValue(fs[0]), DigitsValue(fs[1]), DigitsValue(fs[2])))
    else
      None
  }

  /** How `H:MM` and `HH:MM` text parses: seconds read as zero. */
  lemma ParseHourMinute(h: string, m: string)
    requires IsHourField(h) && IsTwoDigitField(m)
    ensures ParseTime(h + ":" + m) == Checked(Time(DigitsValue(h), DigitsValue(m), 0))
  {
    assert Join([h, m]) == h + ":" + m;
    FieldsOfJoin([h, m]);
  }

  /** How `H:MM:SS` and `HH:MM:SS` text parses. */
  lemma ParseHourMinuteSecond(h: string, m: string, sec: string)
    requires IsHourField(h) && IsTwoDigitField(m) && IsTwoDigitField(sec)
    ensures ParseTime(h + ":" + m + ":" + sec) == Checked(Time(DigitsValue(h), DigitsValue(m), DigitsValue(sec)))
  {
    JoinThree([h, m, sec]);
    assert Join([h, m, sec]) == h + ":" + m + ":" + sec;
    FieldsOfJoin([h, m, sec]);
  }

  /** `.time()` keeps seconds: a time with a nonzero seconds field is
      strictly later than the same hour and minute written without one. */
  lemma SecondsAreKept(h: string, m: string, sec: string)
    requires IsHourField(h) && IsTwoDigitField(m) && IsTwoDigitField(sec)
    requires ParseTime(h + ":" + m + ":" + sec).Some?
    requires DigitsValue(sec) != 0
    ensures ParseTime(h + ":" + m).Some?
    ensures NotAfter(ParseTime(h + ":" + m).value, ParseTime(h + ":" + m + ":" + sec).value)
    ensures !NotAfter(ParseTime(h + ":" + m + ":" + sec).value, ParseTime(h + ":" + m).value)
  {
    ParseHourMinute(h, m);
    ParseHourMinuteSecond(h, m, sec);
  }

  /** Two-digit, zero-padded decimal rendering of `n`. */
  function TwoDigits(n: nat): (f: string)
    requires n < 100
    ensures IsTwoDigitField(f)
    ensures DigitsValue(f) == n
  {
    var f := [DigitChar(n / 10), DigitChar(n % 10)];
    assert f[..1][..0] == [];
    f
  }

  lemma TwoDigitsOfValue(f: string)
    requires IsTwoDigitField(f)
    ensures DigitsValue(f) < 100
    ensures TwoDigits(DigitsValue(f)) == f
  {
    assert f[..1][..0] == [];
    assert f[..1] == [f[0]];
    assert DigitsValue(f[..1]) == DigitValue(f[0]);
    var n := DigitsValue(f);
    assert n == DigitValue(f[0]) * 10 + DigitValue(f[1]);
    assert n / 10 == DigitValue(f[0]) && n % 10 == DigitValue(f[1]);
  }

  /** `str()` of a `datetime.time` without microseconds: `HH:MM:SS`. */
  function FormatTime(t: Time): (s: string)
    requires Valid(t)
    ensures |s| == 8
  {
    TwoDigits(t.hour) + ":" + TwoDigits(t.minute) + ":" + TwoDigits(t.second)
  }

  /** A time rendered by `str()` parses back to itself, so a cell that
      already holds a `datetime.time` survives `str` and re-parsing. */
  lemma ParseFormat(t: Time)
    requires Valid(t)
    ensures ParseTime(FormatTime(t)) == Some(t)
  {
    var fs := [TwoDigits(t.hour), TwoDigits(t.minute), TwoDigits(t.second)];
    JoinThree(fs);
    assert Join(fs) == FormatTime(t);
    FieldsOfJoin(fs);
  }

  /** Conversely, eight-character text that parses is exactly the canonical
      rendering of the time it parses to. */
  lemma FormatParse(s: string)
    requires ParseTime(s).Some? && |s| == 8
    ensures FormatTime(ParseTime(s).value) == s
  {
    var fs := Fields(s);
    JoinThree(fs);
    TwoDigitsOfValue(fs[0]);
    TwoDigitsOfValue(fs[1]);
    TwoDigitsOfValue(fs[2]);
  }
}
