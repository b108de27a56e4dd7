/** The freshness tier a task's row is coloured with: green while less than
    half the interval has passed since the last cleaning, yellow until the
    whole interval has passed, red from then on. */
module Freshness {
  import opened Wrappers
  import opened Items
  import Frequency

  datatype Tier = Green | Yellow | Red

  /** Orders the tiers from freshest to most overdue. */
  function Rank(t: Tier): nat {
    match t
    case Green => 0
    case Yellow => 1
    case Red => 2
  }

  /** Whole days from the stored date to `today`; `None` when the stored
      date does not parse, where the app computes NaN. */
  function DaysSince(lastCleaned: Option<Day>, today: Day): (r: Option<int>)
    ensures r.None? <==> lastCleaned.None?
    ensures r.Some? ==> lastCleaned.value + r.value == today
  {
    match lastCleaned
    case None => None
    case Some(d) => Some(today - d)
  }

  /** The tier for a day count and a positive interval. The comparison with
      half the interval is made on reals, as the app divides by two in
      floating point; the contract states the same bands over integers. */
  function TierFor(daysSince: int, frequencyDays: int): (r: Tier)
    requires frequencyDays > 0
    ensures r == Green <==> 2 * daysSince < frequencyDays
    ensures r == Yellow <==> frequencyDays <= 2 * daysSince && daysSince < frequencyDays
    ensures r == Red <==> frequencyDays <= daysSince
  {
    if (daysSince as real) < (frequencyDays as real) / 2.0 then Green
    else if daysSince < frequencyDays then Yellow
    else Red
  }

  /** The colour of an item's row. A date that does not parse makes every
      comparison with NaN fail, so such an item is red. */
  function ColorClass(lastCleaned: Option<Day>, frequency: string, today: Day): (r: Tier)
    ensures lastCleaned.None? ==> r == Red
    ensures lastCleaned.Some? ==>
              (r == Green <==> 2 * (today - lastCleaned.value) < Frequency.FrequencyDays(frequency))
    ensures lastCleaned.Some? ==>
              (r == Red <==> lastCleaned.value + Frequency.FrequencyDays(frequency) <= today)
  {
    match DaysSince(lastCleaned, today)
    case None => Red
    case Some(d) => TierFor(d, Frequency.FrequencyDays(frequency))
  }

  /** For a fixed interval, more days since the last cleaning never give a
      fresher tier. */
  lemma TierMonotone(d1: int, d2: int, frequencyDays: int)
    requires frequencyDays > 0
    requires d1 <= d2
    ensures Rank(TierFor(d1, frequencyDays)) <= Rank(TierFor(d2, frequencyDays))
  {
  }

  /** As the calendar moves on, an item's colour never gets fresher. */
  lemma ColorMonotoneInTime(lastCleaned: Option<Day>, frequency: string, today1: Day, today2: Day)
    requires today1 <= today2
    ensures Rank(ColorClass(lastCleaned, frequency, today1)) <= Rank(ColorClass(lastCleaned, frequency, today2))
  {
  }

  /** An item cleaned today is green whatever its interval. */
  lemma CleanedTodayIsGreen(frequency: string, today: Day)
    ensures ColorClass(Some(today), frequency, today) == Green
    ensures DaysSince(Some(today), today) == Some(0)
  {
  }

  /** With the weekly interval: 3 days is green, 5 yellow, 10 red. */
  lemma WeeklyExamples(today: Day)
    ensures ColorClass(Some(today - 3), "1 week", today) == Green
    ensures ColorClass(Some(today - 5), "1 week", today) == Yellow
    ensures ColorClass(Some(today - 10), "1 week", today) == Red
  {
  }
}
