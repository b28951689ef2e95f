/** Calendar dates as src/App.js compares them: an expiry string is turned into a JS Date
    (`new Date(item.expiry)`, midnight UTC of that day, or an invalid date) and compared
    with the current instant (`new Date()`). */
module Dates {
  import opened JsNumbers

  datatype Option<T> = None | Some(value: T)

  const MsPerDay: nat := 86400000

  /** A time of day in milliseconds since midnight. */
  type MsOfDay = x: int | 0 <= x < MsPerDay

  /** The current instant: the ordinal of the current UTC day and the milliseconds
      elapsed since that day's midnight. */
  datatype Moment = Moment(date: int, msOfDay: MsOfDay)

  predicate ValidDate(y: nat, m: nat, d: nat) {
    y <= 9999 && 1 <= m <= 12 && 1 <= d <= 31
  }

  /** A number per calendar day that grows with the date: months are given 31 days and
      years 12 such months, so gaps are left but the order of days is kept. */
  function Ordinal(y: nat, m: nat, d: nat): int
    requires ValidDate(y, m, d)
  {
    y * 372 + (m - 1) * 31 + (d - 1)
  }

  /** `new Date(s)` for the `YYYY-MM-DD` form that the seed data and a date input use;
      every other string, "N/A" and "" among them, is an invalid date (None). */
  function ParseDate(s: string): (r: Option<int>)
    ensures r.Some? ==> |s| == 10 && s[4] == '-' && s[7] == '-'
  {
    if |s| == 10 && s[4] == '-' && s[7] == '-'
       && AllDigits(s[..4]) && AllDigits(s[5..7]) && AllDigits(s[8..]) then
      var y, m, d := DigitsValue(s[..4]), DigitsValue(s[5..7]), DigitsValue(s[8..]);
      if ValidDate(y, m, d) then Some(Ordinal(y, m, d)) else None
    else None
  }

  /** The `YYYY-MM-DD` spelling of a date, zero-padded. */
  function FormatDate(y: nat, m: nat, d: nat): (s: string)
    requires ValidDate(y, m, d)
  {
    [DigitChar(y / 10 / 10 / 10), DigitChar(y / 10 / 10 % 10), DigitChar(y / 10 % 10), DigitChar(y % 10), '-',
     DigitChar(m / 10), DigitChar(m % 10), '-', DigitChar(d / 10), DigitChar(d % 10)]
  }

  /** `expiryDate < today`: midnight UTC of day `day` comes strictly before `now`. */
  predicate MidnightBefore(day: int, now: Moment) {
    day < now.date || (day == now.date && now.msOfDay > 0)
  }

  /** The order of ordinals is the calendar (year, month, day) order. */
  lemma OrdinalOrder(y1: nat, m1: nat, d1: nat, y2: nat, m2: nat, d2: nat)
    requires ValidDate(y1, m1, d1) && ValidDate(y2, m2, d2)
    ensures Ordinal(y1, m1, d1) < Ordinal(y2, m2, d2)
            <==> y1 < y2 || (y1 == y2 && (m1 < m2 || (m1 == m2 && d1 < d2)))
    ensures Ordinal(y1, m1, d1) == Ordinal(y2, m2, d2) <==> y1 == y2 && m1 == m2 && d1 == d2
  {
    var r1, r2 := (m1 - 1) * 31 + (d1 - 1), (m2 - 1) * 31 + (d2 - 1);
    assert 0 <= r1 < 372 && 0 <= r2 < 372;
    if y1 < y2 {
      assert y1 * 372 + 372 <= y2 * 372;
    } else if y2 < y1 {
      assert y2 * 372 + 372 <= y1 * 372;
    } else if m1 < m2 {
      assert (m1 - 1) * 31 + 31 <= (m2 - 1) * 31;
    } else if m2 < m1 {
      assert (m2 - 1) * 31 + 31 <= (m1 - 1) * 31;
    }
  }

  lemma TwoDigits(s: string)
    requires |s| == 2 && AllDigits(s)
    ensures DigitsValue(s) == DigitValue(s[0]) * 10 + DigitValue(s[1])
  {
    var h := s[..1];
    assert h[..0] == [] && h[0] == s[0];
    assert DigitsValue(h) == DigitValue(s[0]);
    assert s[..|s| - 1] == h;
  }

  lemma FourDigits(s: string)
    requires |s| == 4 && AllDigits(s)
    ensures DigitsValue(s) == DigitValue(s[0]) * 1000 + DigitValue(s[1]) * 100
                              + DigitValue(s[2]) * 10 + DigitValue(s[3])
  {
    assert s[..3][..2] == s[..2];
    TwoDigits(s[..2]);
  }

  lemma DecimalDigits4(y: nat)
    requires y <= 9999
    ensures y / 10 / 10 / 10 < 10
    ensures y / 10 / 10 / 10 * 1000 + y / 10 / 10 % 10 * 100 + y / 10 % 10 * 10 + y % 10 == y
  {
    var t := y / 10;
    var h := t / 10;
    assert y == t * 10 + y % 10;
    assert t == h * 10 + t % 10;
    assert h == h / 10 * 10 + h % 10;
  }

  /** Reading back a formatted date gives its ordinal. */
  lemma ParseFormat(y: nat, m: nat, d: nat)
    requires ValidDate(y, m, d)
    ensures ParseDate(FormatDate(y, m, d)) == Some(Ordinal(y, m, d))
  {
    var s := FormatDate(y, m, d);
    var ys, ms, ds := s[..4], s[5..7], s[8..];
    assert ys == [DigitChar(y / 10 / 10 / 10), DigitChar(y / 10 / 10 % 10), DigitChar(y / 10 % 10), DigitChar(y % 10)];
    assert ms == [DigitChar(m / 10), DigitChar(m % 10)];
    assert ds == [DigitChar(d / 10), DigitChar(d % 10)];
    FourDigits(ys);
    TwoDigits(ms);
    TwoDigits(ds);
    DecimalDigits4(y);
    assert DigitsValue(ys) == y;
    assert DigitsValue(ms) == m;
    assert DigitsValue(ds) == d;
  }

  /** MidnightBefore is the comparison of two instants on a millisecond time line on which
      day `day` starts at `day * MsPerDay`. */
  lemma MidnightBeforeIsInstantOrder(day: int, now: Moment)
    ensures MidnightBefore(day, now) <==> day * MsPerDay < now.date * MsPerDay + now.msOfDay
  {
    if day < now.date {
      assert day * MsPerDay + MsPerDay <= now.date * MsPerDay;
    } else if day > now.date {
      assert now.date * MsPerDay + MsPerDay <= day * MsPerDay;
    }
  }
}
