/** The time half of the date/time picker: an hour from 1 to 12, a minute in
    steps of five and AM/PM, turned into a 24-hour time on today's date. */
module DateTimePicker {
  import opened LocalTime

  datatype Period = AM | PM

  /** The picker's state; it opens on 12:00 PM. */
  datatype Selection = Selection(hour: int, minute: int, period: Period)

  const Initial: Selection := Selection(12, 0, PM)

  /** The hour buttons, top to bottom. */
  function HourChoices(): seq<int> {
    seq(12, i => i + 1)
  }

  /** The minute buttons, top to bottom. */
  function MinuteChoices(): seq<int> {
    seq(12, i => i * 5)
  }

  /** A selection the buttons can produce. */
  predicate Selectable(sel: Selection) {
    sel.hour in HourChoices() && sel.minute in MinuteChoices()
  }

  /** The 12-hour to 24-hour step of `handleTimeSelect`: PM adds twelve
      except at 12, and 12 AM is midnight. */
  function To24Hour(hour: int, period: Period): (r: int)
    ensures 1 <= hour <= 12 ==> 0 <= r < 24
    ensures hour == 12 ==> r == (if period == AM then 0 else 12)
    ensures 1 <= hour < 12 && period == AM ==> r == hour
    ensures 1 <= hour < 12 && period == PM ==> r == hour + 12
    ensures 1 <= hour <= 12 && period == AM ==> r < 12
    ensures 1 <= hour <= 12 && period == PM ==> r >= 12
  {
    var afterPm := if period == PM && hour != 12 then hour + 12 else hour;
    if period == AM && afterPm == 12 then 0 else afterPm
  }

  /** How a clock face shows a 24-hour hour: the reference the conversion is
      checked against. */
  function From24Hour(h: int): (r: (int, Period))
    requires 0 <= h < 24
    ensures 1 <= r.0 <= 12
  {
    (if h % 12 == 0 then 12 else h % 12, if h < 12 then AM else PM)
  }

  /** Converting a picked hour to 24-hour time and reading it back on a clock
      face gives the picked hour and period. */
  lemma To24RoundTrip(hour: int, period: Period)
    requires 1 <= hour <= 12
    ensures From24Hour(To24Hour(hour, period)) == (hour, period)
  {
  }

  /** Every hour of the day is reached, from exactly its clock-face reading. */
  lemma From24RoundTrip(h: int)
    requires 0 <= h < 24
    ensures To24Hour(From24Hour(h).0, From24Hour(h).1) == h
  {
  }

  /** Different picks give different hours: together with `From24RoundTrip`
      the conversion is a bijection from 1..12 x {AM, PM} onto 0..23. */
  lemma To24Injective(h1: int, p1: Period, h2: int, p2: Period)
    requires 1 <= h1 <= 12 && 1 <= h2 <= 12
    requires To24Hour(h1, p1) == To24Hour(h2, p2)
    ensures h1 == h2 && p1 == p2
  {
    To24RoundTrip(h1, p1);
    To24RoundTrip(h2, p2);
  }

  lemma HourChoicesExactly()
    ensures forall h :: h in HourChoices() <==> 1 <= h <= 12
  {
    forall h | 1 <= h <= 12
      ensures h in HourChoices()
    {
      assert HourChoices()[h - 1] == h;
    }
  }

  lemma MinuteChoicesExactly()
    ensures forall m :: m in MinuteChoices() <==> 0 <= m <= 55 && m % 5 == 0
  {
    forall m | 0 <= m <= 55 && m % 5 == 0
      ensures m in MinuteChoices()
    {
      assert MinuteChoices()[m / 5] == m;
    }
  }

  /** `handleTimeSelect`: today's date (`now`) with the picked hour and
      minute; seconds and milliseconds are those of `now`. */
  function TimeSelect(sel: Selection, now: DateTime): (r: DateTime)
    ensures r.day == now.day && r.second == now.second && r.ms == now.ms
    ensures r.minute == sel.minute
    ensures 1 <= sel.hour <= 12 ==> 0 <= r.hour < 24 && From24Hour(r.hour) == (sel.hour, sel.period)
  {
    var r := now.(hour := To24Hour(sel.hour, sel.period), minute := sel.minute);
    if 1 <= sel.hour <= 12 then
      To24RoundTrip(sel.hour, sel.period);
      r
    else
      r
  }

  /** Whatever the buttons pick, the result is a real time of day. */
  lemma TimeSelectValid(sel: Selection, now: DateTime)
    requires Selectable(sel) && Valid(now)
    ensures Valid(TimeSelect(sel, now))
  {
    HourChoicesExactly();
    MinuteChoicesExactly();
  }

  /** Setting the time without touching the picker gives noon. */
  lemma InitialIsNoon(now: DateTime)
    ensures TimeSelect(Initial, now).hour == 12 && TimeSelect(Initial, now).minute == 0
  {
  }
}
