/**
 * The widget object. Its fields stand for the page state it writes: the time,
 * greeting and icon elements, the body's class list, and the timers still
 * pending. Each element may be missing from the page, in which case every
 * update to it does nothing.
 */
module App {
  import opened Greeting
  import opened TimeFormat
  import opened Schedule
  import opened TokenList
  import opened Theme
  import opened Display

  class GreetingApp {
    const hasTime: bool
    const hasGreeting: bool
    const hasIcon: bool

    var time: Element
    var greeting: Element
    var icon: Element
    var bodyClasses: seq<string>
    var pending: seq<Step>

    /** The element is in the page. */
    predicate Present(t: Target)
    {
      match t
      case TimeText => hasTime
      case GreetingText => hasGreeting
      case IconEmoji => hasIcon
    }

    function View(): Screen
      reads this
    {
      Screen(time, greeting, icon)
    }

    /** The class list has no repeated token, and timers are only pending on elements in the page. */
    ghost predicate Valid()
      reads this
    {
      Distinct(bodyClasses) &&
      forall k :: 0 <= k < |pending| ==> Present(pending[k].On())
    }

    /** Captures the page's elements as they are; no timer is pending yet. */
    constructor (hasTime: bool, hasGreeting: bool, hasIcon: bool,
                 time: Element, greeting: Element, icon: Element, bodyClasses: seq<string>)
      requires Distinct(bodyClasses)
      ensures Valid()
      ensures this.hasTime == hasTime && this.hasGreeting == hasGreeting && this.hasIcon == hasIcon
      ensures this.time == time && this.greeting == greeting && this.icon == icon
      ensures this.bodyClasses == bodyClasses && pending == []
    {
      this.hasTime, this.hasGreeting, this.hasIcon := hasTime, hasGreeting, hasIcon;
      this.time, this.greeting, this.icon := time, greeting, icon;
      this.bodyClasses := bodyClasses;
      pending := [];
    }

    /** Dims the time text now and queues the new text with full opacity. */
    method UpdateTimeDisplay(timeString: string)
      requires Valid()
      modifies this`time, this`pending
      ensures Valid()
      ensures time == StartTime(hasTime, old(time))
      ensures pending == old(pending) + TimeSteps(hasTime, timeString)
    {
      if hasTime {
        time := time.(opacity := "0.5");
        pending := pending + [ShowTime(timeString)];
      }
    }

    /** Only a changed message fades out, slides down and queues its return. */
    method UpdateGreetingMessage(message: string)
      requires Valid()
      modifies this`greeting, this`pending
      ensures Valid()
      ensures greeting == StartGreeting(hasGreeting, old(greeting), message)
      ensures pending == old(pending) + GreetingSteps(hasGreeting, old(greeting), message)
      ensures !Changes(hasGreeting, old(greeting), message) ==> greeting == old(greeting) && pending == old(pending)
    {
      if hasGreeting && greeting.text != message {
        greeting := greeting.(opacity := "0", transform := "translateY(10px)");
        pending := pending + [ShowGreeting(message)];
      }
    }

    /** Only a changed icon shrinks and queues the swap (which queues the settle). */
    method UpdateIcon(glyph: string)
      requires Valid()
      modifies this`icon, this`pending
      ensures Valid()
      ensures icon == StartIcon(hasIcon, old(icon), glyph)
      ensures pending == old(pending) + IconSteps(hasIcon, old(icon), glyph)
      ensures !Changes(hasIcon, old(icon), glyph) ==> icon == old(icon) && pending == old(pending)
    {
      if hasIcon && icon.text != glyph {
        icon := icon.(transform := "scale(0.8)");
        pending := pending + [SwapIcon(glyph)];
      }
    }

    /** Removes each theme class in turn, then adds the period's. */
    method UpdateTheme(period: string)
      requires Valid()
      modifies this`bodyClasses
      ensures Valid()
      ensures bodyClasses == ApplyTheme(old(bodyClasses), period)
    {
      var themes := Themes;
      for i := 0 to |themes|
        invariant bodyClasses == RemoveAll(old(bodyClasses), themes[..i])
      {
        assert themes[..i + 1][..i] == themes[..i];
        bodyClasses := Remove(bodyClasses, themes[i]);
      }
      assert themes[..|themes|] == themes;
      bodyClasses := Add(bodyClasses, period);
    }

    /**
     * The immediate effect of one refresh at the given time: the time text
     * dimmed and queued, the greeting and icon transitions started if they
     * changed, and the theme switched to the period's.
     */
    twostate predicate Refreshed(hours: nat, minutes: nat)
      reads this
    {
      var g := GetTimeBasedGreeting(hours);
      time == StartTime(hasTime, old(time)) &&
      greeting == StartGreeting(hasGreeting, old(greeting), g.message) &&
      icon == StartIcon(hasIcon, old(icon), g.icon) &&
      bodyClasses == ApplyTheme(old(bodyClasses), g.period) &&
      pending == old(pending)
        + TimeSteps(hasTime, FormatTime(hours, minutes))
        + GreetingSteps(hasGreeting, old(greeting), g.message)
        + IconSteps(hasIcon, old(icon), g.icon)
    }

    /** One refresh cycle, for a clock reading of hours and minutes. */
    method UpdateTimeAndGreeting(hours: nat, minutes: nat)
      requires Valid()
      modifies this`time, this`greeting, this`icon, this`bodyClasses, this`pending
      ensures Valid()
      ensures Refreshed(hours, minutes)
    {
      var formattedTime := FormatTime(hours, minutes);
      var greetingInfo := GetTimeBasedGreeting(hours);
      UpdateTimeDisplay(formattedTime);
      UpdateGreetingMessage(greetingInfo.message);
      UpdateIcon(greetingInfo.icon);
      UpdateTheme(greetingInfo.period);
    }

    /**
     * A refresh on a quiescent page followed by all its timers: every element
     * in the page shows its new text, a changed element is at rest, an
     * unchanged or missing one is as it was, and the theme is the period's.
     */
    method RefreshAndSettle(hours: nat, minutes: nat)
      requires Valid() && pending == []
      modifies this`time, this`greeting, this`icon, this`bodyClasses, this`pending
      ensures Valid() && pending == []
      ensures var g := GetTimeBasedGreeting(hours);
        time.text == (if hasTime then FormatTime(hours, minutes) else old(time.text)) &&
        greeting.text == (if hasGreeting then g.message else old(greeting.text)) &&
        icon.text == (if hasIcon then g.icon else old(icon.text)) &&
        bodyClasses == ApplyTheme(old(bodyClasses), g.period)
      ensures var g := GetTimeBasedGreeting(hours);
        time == (if hasTime then AtRest(TimeText, old(time).(text := FormatTime(hours, minutes))) else old(time)) &&
        greeting == (if Changes(hasGreeting, old(greeting), g.message)
          then AtRest(GreetingText, old(greeting).(text := g.message)) else old(greeting)) &&
        icon == (if Changes(hasIcon, old(icon), g.icon) then AtRest(IconEmoji, old(icon).(text := g.icon)) else old(icon))
    {
      var g := GetTimeBasedGreeting(hours);
      RefreshRests(pending, pending + TimeSteps(hasTime, FormatTime(hours, minutes))
        + GreetingSteps(hasGreeting, greeting, g.message) + IconSteps(hasIcon, icon, g.icon),
        time, greeting, icon, hasTime, hasGreeting, hasIcon, FormatTime(hours, minutes), g.message, g.icon);
      UpdateTimeAndGreeting(hours, minutes);
      RunPending();
    }

    /** The delays of the minute-aligned schedule, for a clock reading of seconds and milliseconds. */
    method ScheduleNextUpdate(seconds: int, milliseconds: int) returns (firstDelay: int, interval: int)
      ensures firstDelay == TimeToNextMinute(seconds, milliseconds) && interval == UpdateInterval
      ensures 0 <= seconds <= 59 && 0 <= milliseconds <= 999 ==> 1 <= firstDelay <= 60000
    {
      firstDelay := (60 - seconds) * 1000 - milliseconds;
      interval := 60000;
    }

    /** Start-up: an immediate refresh, then the schedule of later ones. */
    method Init(hours: nat, minutes: nat, seconds: int, milliseconds: int)
      returns (firstDelay: int, interval: int)
      requires Valid()
      modifies this`time, this`greeting, this`icon, this`bodyClasses, this`pending
      ensures Valid()
      ensures Refreshed(hours, minutes)
      ensures firstDelay == TimeToNextMinute(seconds, milliseconds) && interval == UpdateInterval
    {
      UpdateTimeAndGreeting(hours, minutes);
      firstDelay, interval := ScheduleNextUpdate(seconds, milliseconds);
    }

    /** Runs the oldest pending timer callback, if there is one. */
    method Fire() returns (fired: bool)
      requires Valid()
      modifies this`time, this`greeting, this`icon, this`pending
      ensures Valid()
      ensures fired == (old(pending) != [])
      ensures if fired then
          View() == ApplyStep(old(View()), old(pending)[0]) &&
          pending == old(pending)[1..] + FollowUps(old(pending)[0])
        else
          View() == old(View()) && pending == old(pending)
    {
      if pending == [] {
        return false;
      }
      var step := pending[0];
      pending := pending[1..] + FollowUps(step);
      fired := true;
      match step
      case ShowTime(x) =>
        time := time.(text := x, opacity := "1");
      case ShowGreeting(x) =>
        greeting := greeting.(text := x, opacity := "1", transform := "translateY(0)");
      case SwapIcon(x) =>
        icon := icon.(text := x, transform := "scale(1.2)");
      case SettleIcon =>
        icon := icon.(transform := "scale(1)");
    }

    /**
     * Runs timers until none is left. Each element ends as `Settle` describes:
     * unchanged if nothing was pending on it, otherwise at rest with the last
     * text queued for it.
     */
    method RunPending()
      requires Valid()
      modifies this`time, this`greeting, this`icon, this`pending
      ensures Valid()
      ensures pending == [] && View() == Drain(old(View()), old(pending))
      ensures time == Settle(old(time), TimeText, old(pending))
      ensures greeting == Settle(old(greeting), GreetingText, old(pending))
      ensures icon == Settle(old(icon), IconEmoji, old(pending))
    {
      while pending != []
        invariant Valid()
        invariant Drain(View(), pending) == Drain(old(View()), old(pending))
        decreases Weight(pending)
      {
        WeightAppend(pending[1..], FollowUps(pending[0]));
        var _ := Fire();
      }
      DrainSettles(old(View()), old(pending), TimeText);
      DrainSettles(old(View()), old(pending), GreetingText);
      DrainSettles(old(View()), old(pending), IconEmoji);
    }
  }

  /**
   * When no greeting or icon transition is in flight (and no time transition
   * on a page without the time element), once a refresh's steps have run every
   * element in the page shows its new text, whether or not its transition was
   * skipped; a missing element keeps its text.
   */
  lemma RefreshSettles(before: Screen, prior: seq<Step>, q: seq<Step>,
                       hasTime: bool, hasGreeting: bool, hasIcon: bool,
                       timeText: string, message: string, glyph: string, greeting0: Element, icon0: Element)
    requires !Touches(prior, GreetingText) && !Touches(prior, IconEmoji)
    requires !hasTime ==> !Touches(prior, TimeText)
    requires greeting0.text == before.greeting.text && icon0.text == before.icon.text
    requires q == prior + TimeSteps(hasTime, timeText) + GreetingSteps(hasGreeting, greeting0, message)
      + IconSteps(hasIcon, icon0, glyph)
    ensures Settle(before.time, TimeText, q).text == if hasTime then timeText else before.time.text
    ensures Settle(before.greeting, GreetingText, q).text == if hasGreeting then message else before.greeting.text
    ensures Settle(before.icon, IconEmoji, q).text == if hasIcon then glyph else before.icon.text
  {
    var showTime := TimeSteps(hasTime, timeText);
    var showGreeting := GreetingSteps(hasGreeting, greeting0, message);
    var swapIcon := IconSteps(hasIcon, icon0, glyph);
    SettleThrough(before.time, TimeText, prior, showTime, showGreeting, swapIcon);
    SettleThrough(before.greeting, GreetingText, prior, showTime, showGreeting, swapIcon);
    SettleThrough(before.icon, IconEmoji, prior, showTime, showGreeting, swapIcon);
    LastTextUntouched(prior, GreetingText, before.greeting.text);
    LastTextUntouched(prior, IconEmoji, before.icon.text);
    if !hasTime {
      LastTextUntouched(prior, TimeText, before.time.text);
    }
  }

  /**
   * With no transition in flight, once a refresh's steps have run each
   * element it changed is at rest with its new text, whatever its immediate
   * half wrote, and each element it left alone is exactly as it was.
   */
  lemma RefreshRests(prior: seq<Step>, q: seq<Step>, time0: Element, greeting0: Element, icon0: Element,
                     hasTime: bool, hasGreeting: bool, hasIcon: bool,
                     timeText: string, message: string, glyph: string)
    requires !Touches(prior, TimeText) && !Touches(prior, GreetingText) && !Touches(prior, IconEmoji)
    requires q == prior + TimeSteps(hasTime, timeText) + GreetingSteps(hasGreeting, greeting0, message)
      + IconSteps(hasIcon, icon0, glyph)
    ensures Settle(StartTime(hasTime, time0), TimeText, q) ==
      if hasTime then AtRest(TimeText, time0.(text := timeText)) else time0
    ensures Settle(StartGreeting(hasGreeting, greeting0, message), GreetingText, q) ==
      if Changes(hasGreeting, greeting0, message) then AtRest(GreetingText, greeting0.(text := message))
      else greeting0
    ensures Settle(StartIcon(hasIcon, icon0, glyph), IconEmoji, q) ==
      if Changes(hasIcon, icon0, glyph) then AtRest(IconEmoji, icon0.(text := glyph)) else icon0
    ensures Settle(StartTime(hasTime, time0), TimeText, q).text == if hasTime then timeText else time0.text
    ensures Settle(StartGreeting(hasGreeting, greeting0, message), GreetingText, q).text ==
      if hasGreeting then message else greeting0.text
    ensures Settle(StartIcon(hasIcon, icon0, glyph), IconEmoji, q).text == if hasIcon then glyph else icon0.text
  {
    var a := TimeSteps(hasTime, timeText);
    var b := GreetingSteps(hasGreeting, greeting0, message);
    var c := IconSteps(hasIcon, icon0, glyph);
    forall t: Target, cur: string
      ensures Touches(a, t) <==> hasTime && t == TimeText
      ensures LastText(a, t, cur) == if hasTime && t == TimeText then timeText else cur
      ensures Touches(b, t) <==> Changes(hasGreeting, greeting0, message) && t == GreetingText
      ensures LastText(b, t, cur) == if Changes(hasGreeting, greeting0, message) && t == GreetingText then message else cur
      ensures Touches(c, t) <==> Changes(hasIcon, icon0, glyph) && t == IconEmoji
      ensures LastText(c, t, cur) == if Changes(hasIcon, icon0, glyph) && t == IconEmoji then glyph else cur
    {
      AtMostOne(a, hasTime, ShowTime(timeText), t, cur);
      AtMostOne(b, Changes(hasGreeting, greeting0, message), ShowGreeting(message), t, cur);
      AtMostOne(c, Changes(hasIcon, icon0, glyph), SwapIcon(glyph), t, cur);
    }
    SettleFour(StartTime(hasTime, time0), TimeText, prior, a, b, c);
    SettleFour(StartGreeting(hasGreeting, greeting0, message), GreetingText, prior, a, b, c);
    SettleFour(StartIcon(hasIcon, icon0, glyph), IconEmoji, prior, a, b, c);
    LastTextUntouched(prior, TimeText, time0.text);
    LastTextUntouched(prior, GreetingText, greeting0.text);
    LastTextUntouched(prior, IconEmoji, icon0.text);
  }

  /** A queue of at most one step. */
  lemma AtMostOne(own: seq<Step>, changed: bool, step: Step, t: Target, cur: string)
    requires own == (if changed then [step] else []) && !step.SettleIcon?
    ensures Touches(own, t) <==> changed && step.On() == t
    ensures LastText(own, t, cur) == if changed && step.On() == t then step.text else cur
  {
    if changed {
      assert own[1..] == [];
    }
  }

  /** How an element settles through a queue made of four parts. */
  lemma SettleFour(e: Element, t: Target, p: seq<Step>, a: seq<Step>, b: seq<Step>, c: seq<Step>)
    ensures Settle(e, t, p + a + b + c) ==
      if Touches(p, t) || Touches(a, t) || Touches(b, t) || Touches(c, t)
      then AtRest(t, e.(text := LastText(c, t, LastText(b, t, LastText(a, t, LastText(p, t, e.text))))))
      else e
  {
    TouchesAppend(p + a + b, c, t);
    TouchesAppend(p + a, b, t);
    TouchesAppend(p, a, t);
    LastTextAppend(p + a + b, c, t, e.text);
    LastTextAppend(p + a, b, t, e.text);
    LastTextAppend(p, a, t, e.text);
  }

  /** The text an element settles on, through a queue made of four parts. */
  lemma SettleThrough(e: Element, t: Target, prior: seq<Step>, a: seq<Step>, b: seq<Step>, c: seq<Step>)
    ensures Settle(e, t, prior + a + b + c).text ==
      LastText(c, t, LastText(b, t, LastText(a, t, LastText(prior, t, e.text))))
  {
    SettleText(e, t, prior + a + b + c);
    LastTextAppend(prior + a + b, c, t, e.text);
    LastTextAppend(prior + a, b, t, e.text);
    LastTextAppend(prior, a, t, e.text);
  }

  /**
   * A page with all three elements and any class list, refreshed once at
   * hours:minutes and left until its transitions finish, shows that time, the
   * period's message and icon, and carries the period's theme.
   */
  method RenderAt(hours: nat, minutes: nat, start: Element, classes: seq<string>)
    returns (timeText: string, message: string, glyph: string, themed: seq<string>)
    requires Distinct(classes)
    ensures var g := GetTimeBasedGreeting(hours);
      timeText == FormatTime(hours, minutes) && message == g.message && glyph == g.icon &&
      themed == ApplyTheme(classes, g.period)
  {
    var app := new GreetingApp(true, true, true, start, start, start, classes);
    app.RefreshAndSettle(hours, minutes);
    timeText, message, glyph, themed := app.time.text, app.greeting.text, app.icon.text, app.bodyClasses;
  }

  /** At 06:30 a page with no class shows the morning greeting under the morning theme alone. */
  lemma MorningScenario()
    ensures FormatTime(6, 30) == "06:30"
    ensures GetTimeBasedGreeting(6).message == "おはようございます" && GetTimeBasedGreeting(6).icon == "🌅"
    ensures ApplyTheme([], GetTimeBasedGreeting(6).period) == ["morning"]
  {
    FormatTimeDigits(6, 30);
    ApplyThemeOnBareBody("morning");
  }

  /** At 02:15 it shows the late-night message and icon under the evening theme alone. */
  lemma LateNightScenario()
    ensures FormatTime(2, 15) == "02:15"
    ensures GetTimeBasedGreeting(2).message == "こんばんは" && GetTimeBasedGreeting(2).icon == "🌃"
    ensures ApplyTheme([], GetTimeBasedGreeting(2).period) == ["evening"]
  {
    FormatTimeDigits(2, 15);
    ApplyThemeOnBareBody("evening");
  }
}
