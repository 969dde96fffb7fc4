/**
 * The period classifier of the greeting widget: a fixed table of four hour
 * ranges and the if/else chain that maps an hour of the day to a greeting
 * descriptor (message, icon and the visual period used as a theme).
 */
module Greeting {
  import opened Theme

  /** One entry of the hour-range table: an inclusive range with its message and icon. */
  datatype Rule = Rule(start: int, end: int, message: string, icon: string)

  /** The whole table, one field per named range. */
  datatype Ranges = Ranges(morning: Rule, afternoon: Rule, evening: Rule, lateNight: Rule)

  /**
   * What the classifier returns: the fields of the matching rule spread into a
   * new record, plus the visual period.
   */
  datatype Descriptor = Descriptor(start: int, end: int, message: string, icon: string, period: string)

  /** The names of the four ranges (the table's keys). */
  datatype RangeName = Morning | Afternoon | Evening | LateNight

  const MorningMessage: string := "おはようございます"
  const AfternoonMessage: string := "こんにちは"
  const EveningMessage: string := "こんばんは"

  const MorningIcon: string := "🌅"
  const AfternoonIcon: string := "☀️"
  const EveningIcon: string := "🌙"
  const LateNightIcon: string := "🌃"

  /** The fixed hour-range table. */
  const TimeRanges: Ranges := Ranges(
    Rule(5, 10, MorningMessage, MorningIcon),
    Rule(11, 17, AfternoonMessage, AfternoonIcon),
    Rule(18, 23, EveningMessage, EveningIcon),
    Rule(0, 4, EveningMessage, LateNightIcon))

  /** Looks a range up in the table by its name. */
  function RuleOf(n: RangeName): Rule
  {
    match n
    case Morning => TimeRanges.morning
    case Afternoon => TimeRanges.afternoon
    case Evening => TimeRanges.evening
    case LateNight => TimeRanges.lateNight
  }

  /** The visual period of each named range: late night shares the evening theme. */
  function PeriodOf(n: RangeName): (p: string)
    ensures p in Themes
    ensures p == "evening" <==> n == Evening || n == LateNight
  {
    match n
    case Morning => "morning"
    case Afternoon => "afternoon"
    case Evening | LateNight => "evening"
  }

  /** The record `{ ...rule, period }`. */
  function Spread(r: Rule, period: string): Descriptor
  {
    Descriptor(r.start, r.end, r.message, r.icon, period)
  }

  predicate InRange(n: RangeName, hours: int)
  {
    RuleOf(n).start <= hours <= RuleOf(n).end
  }

  /**
   * The classifier. Morning and afternoon are tested against their table
   * bounds, evening against its start and the literal 23, and every other
   * hour falls through to late night.
   */
  function GetTimeBasedGreeting(hours: int): (g: Descriptor)
    ensures 5 <= hours <= 10 ==>
      g.message == MorningMessage && g.icon == MorningIcon && g.period == "morning"
    ensures 11 <= hours <= 17 ==>
      g.message == AfternoonMessage && g.icon == AfternoonIcon && g.period == "afternoon"
    ensures 18 <= hours <= 23 ==>
      g.message == EveningMessage && g.icon == EveningIcon && g.period == "evening"
    ensures 0 <= hours <= 4 ==>
      g.message == EveningMessage && g.icon == LateNightIcon && g.period == "evening"
    ensures g.period in Themes
  {
    if hours >= TimeRanges.morning.start && hours <= TimeRanges.morning.end then
      Spread(TimeRanges.morning, "morning")
    else if hours >= TimeRanges.afternoon.start && hours <= TimeRanges.afternoon.end then
      Spread(TimeRanges.afternoon, "afternoon")
    else if hours >= TimeRanges.evening.start && hours <= 23 then
      Spread(TimeRanges.evening, "evening")
    else
      Spread(TimeRanges.lateNight, "evening")
  }

  /** The unique range of the table that holds a given hour of the day. */
  function RangeFor(hours: int): (n: RangeName)
    requires 0 <= hours <= 23
    ensures InRange(n, hours)
    ensures forall m: RangeName :: InRange(m, hours) ==> m == n
  {
    if hours <= 4 then LateNight
    else if hours <= 10 then Morning
    else if hours <= 17 then Afternoon
    else Evening
  }

  /** The four ranges cover exactly the hours 0..23: nothing outside, no gap inside. */
  lemma RangesCoverTheDay(hours: int)
    ensures (exists n: RangeName :: InRange(n, hours)) <==> 0 <= hours <= 23
  {
    if 0 <= hours <= 23 {
      var n := RangeFor(hours);
      assert InRange(n, hours);
    } else {
      forall n: RangeName ensures !InRange(n, hours) {
        assert RuleOf(n).start >= 0 && RuleOf(n).end <= 23;
      }
    }
  }

  /**
   * On every hour of the day the classifier agrees with the table: it returns
   * the covering rule spread with that rule's visual period, and the hour lies
   * within the descriptor's own range.
   */
  lemma GreetingFollowsTable(hours: int)
    requires 0 <= hours <= 23
    ensures GetTimeBasedGreeting(hours) == Spread(RuleOf(RangeFor(hours)), PeriodOf(RangeFor(hours)))
    ensures GetTimeBasedGreeting(hours).start <= hours <= GetTimeBasedGreeting(hours).end
  {
  }

  /**
   * Outside 0..23 the else branch still answers: the late-night descriptor,
   * whose own range does not contain the hour.
   */
  lemma OutOfDayFallsToLateNight(hours: int)
    requires hours < 0 || hours > 23
    ensures GetTimeBasedGreeting(hours) == Spread(TimeRanges.lateNight, "evening")
    ensures !(GetTimeBasedGreeting(hours).start <= hours <= GetTimeBasedGreeting(hours).end)
  {
  }

  /** Late night and evening share the visual theme and the message but not the icon. */
  lemma LateNightLooksLikeEvening(night: int, evening: int)
    requires 0 <= night <= 4 && 18 <= evening <= 23
    ensures GetTimeBasedGreeting(night).period == GetTimeBasedGreeting(evening).period == "evening"
    ensures GetTimeBasedGreeting(night).message == GetTimeBasedGreeting(evening).message
    ensures GetTimeBasedGreeting(night).icon != GetTimeBasedGreeting(evening).icon
  {
  }
}
