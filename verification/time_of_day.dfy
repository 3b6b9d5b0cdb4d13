/** A wall-clock time of day, as Python's `datetime.time` holds it after
    `pd.to_datetime(...).time()`: hour, minute and second (the stand-in
    parser never produces fractional seconds, so microseconds are not kept). */
module TimeOfDay {

  datatype Time = Time(hour: nat, minute: nat, second: nat)

  const SecondsPerDay: nat := 86400

  /** The range `datetime.time` enforces on its fields. */
  predicate Valid(t: Time) {
    t.hour < 24 && t.minute < 60 && t.second < 60
  }

  /** `a <= b` on `datetime.time`: Python compares the fields as a tuple,
      hour first, then minute, then second. */
  predicate NotAfter(a: Time, b: Time) {
    || a.hour < b.hour
    || (a.hour == b.hour && a.minute < b.minute)
    || (a.hour == b.hour && a.minute == b.minute && a.second <= b.second)
  }

  /** Seconds since midnight: an independent reading of the same order. */
  function SecondsOfDay(t: Time): (n: nat)
    requires Valid(t)
    ensures n < SecondsPerDay
    ensures n / 3600 == t.hour
    ensures n % 60 == t.second
  {
    t.hour * 3600 + t.minute * 60 + t.second
  }

  /** Inverse of `SecondsOfDay`. */
  function FromSeconds(n: nat): (t: Time)
    requires n < SecondsPerDay
    ensures Valid(t)
    ensures SecondsOfDay(t) == n
  {
    Time(n / 3600, (n % 3600) / 60, n % 60)
  }

  lemma FromSecondsOfDay(t: Time)
    requires Valid(t)
    ensures FromSeconds(SecondsOfDay(t)) == t
  {
    var n := SecondsOfDay(t);
    assert n % 3600 == t.minute * 60 + t.second;
  }

  /** The tuple order and the seconds-since-midnight order agree on valid
      times, so either may be read as "scan is not earlier than schedule". */
  lemma NotAfterIffSeconds(a: Time, b: Time)
    requires Valid(a) && Valid(b)
    ensures NotAfter(a, b) <==> SecondsOfDay(a) <= SecondsOfDay(b)
  {
    if a.hour < b.hour {
      assert SecondsOfDay(a) < (a.hour + 1) * 3600 <= SecondsOfDay(b);
    } else if a.hour > b.hour {
      assert SecondsOfDay(b) < (b.hour + 1) * 3600 <= SecondsOfDay(a);
    } else if a.minute < b.minute {
      assert SecondsOfDay(a) < a.hour * 3600 + (a.minute + 1) * 60 <= SecondsOfDay(b);
    } else if a.minute > b.minute {
      assert SecondsOfDay(b) < b.hour * 3600 + (b.minute + 1) * 60 <= SecondsOfDay(a);
    }
  }

  /** `NotAfter` is a total order on times. */
  lemma NotAfterTotalOrder(a: Time, b: Time, c: Time)
    ensures NotAfter(a, a)
    ensures NotAfter(a, b) || NotAfter(b, a)
    ensures NotAfter(a, b) && NotAfter(b, a) ==> a == b
    ensures NotAfter(a, b) && NotAfter(b, c) ==> NotAfter(a, c)
  {
  }
}
