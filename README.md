# Time-of-day greeting widget

A model of the `GreetingApp` browser widget. The widget shows the current
time as `HH:MM`, a Japanese greeting and an emoji icon chosen by the hour,
and a body theme class (`morning`, `afternoon` or `evening`). It refreshes
once at start-up, then on the next minute boundary, then every minute.

The model has six modules:

- `Greeting` holds the fixed hour-range table and the if/else classifier
  `GetTimeBasedGreeting`, which returns a `Descriptor`: the rule's fields
  spread out, plus the visual period.
- `TimeFormat` is the `HH:MM` text: decimal digits, each part left-padded
  with `'0'` to two characters.
- `Schedule` is the delay to the next minute boundary and the one-minute
  interval.
- `TokenList` is the body's class list, an ordered list of distinct tokens
  with the browser's `remove` and `add`.
- `Theme` removes the three theme classes in turn and then adds the period.
- `Display` covers the delayed halves of the display transitions. Every
  `setTimeout` callback is a `Step` in a first-in first-out queue. Running a
  step writes its element. The icon's swap step arms a settle step, which
  joins the end of the queue.
- `App` is the class `GreetingApp`. Its fields stand for the page state:
  - the three elements (text, opacity, transform);
  - the body classes;
  - the pending timers;
  - three constant flags saying whether each element exists in the page.

  Its update methods write the immediate half of each transition and queue
  the delayed half. `Fire` runs the oldest queued callback. `RunPending`
  runs callbacks until none is left.

The clock readings (hours, minutes, seconds, milliseconds) are parameters.

The classifier is total over all integers, like the source's `else` branch.
An hour outside 0..23 gets the late-night descriptor. Its message and icon
are still returned, even though the hour lies outside the descriptor's own
range (`OutOfDayFallsToLateNight`). The evening test compares with the
literal 23 rather than the table's `evening.end`. The two have the same
value, and the model keeps the literal.

## Model

| member | source | states |
|---|---|---|
| Greeting.GetTimeBasedGreeting | static/script.js:72-88 | hours 5..10 give the morning message, 🌅 and period `morning`; 11..17 give the afternoon message, ☀️ and `afternoon`; 18..23 give the evening message, 🌙 and `evening`; 0..4 give the late-night message (こんばんは), 🌃 and also `evening`; the period is always one of the three theme classes |
| Greeting.PeriodOf | static/script.js:76-86 | every range's visual period is a theme class, and it is `evening` exactly for the evening and late-night ranges |
| Greeting.RangeFor | static/script.js:18-23 | every hour 0..23 lies in some range of the table, and in no other range |
| Greeting.RangesCoverTheDay | static/script.js:18-23 | some range of the table holds the hour if and only if the hour is in 0..23 (no gaps inside the day, nothing outside it) |
| Greeting.GreetingFollowsTable | static/script.js:72-88 | on every hour of the day the classifier returns the covering rule spread with that rule's period, and the hour lies within the descriptor's range |
| Greeting.OutOfDayFallsToLateNight | static/script.js:83-87 | an hour outside 0..23 reaches the final `else`: the late-night descriptor with period `evening`, whose range does not hold that hour |
| Greeting.LateNightLooksLikeEvening | static/script.js:80-86 | late night and evening share the theme and the message but differ in icon |
| TimeFormat.NatToString | static/script.js:56 | `toString()` of a number is a non-empty string of decimal digits |
| TimeFormat.NatToStringRoundTrip | static/script.js:56 | reading the digits of a number's decimal text gives the number back |
| TimeFormat.PadStart2 | static/script.js:54-56 | `padStart(2, '0')` gives length max(2, length), keeps the text as its suffix and prefixes only zeros |
| TimeFormat.FormatTimeDigits | static/script.js:54-56 | for hours < 24 and minutes < 60 the time text is exactly: hour tens digit, hour units digit, `:`, minute tens digit, minute units digit |
| TimeFormat.FormatTimeLayout | static/script.js:54-56 | the time text has length 5, `:` at position 2, the zero-padded hour digits at 0-1 and the minute digits at 3-4 |
| TimeFormat.ReadTime | static/script.js:56 | the two numbers read from an `HH:MM` text are each below 100 |
| TimeFormat.FormatTimeRoundTrip | static/script.js:56 | the time text reads back as the same hour and minute, so distinct times show distinct texts |
| TimeFormat.FormatTimeExamples | static/script.js:53-56 | (9,5) gives "09:05", (23,0) gives "23:00" and (6,30) gives "06:30" |
| Schedule.TimeToNextMinute | static/script.js:192-194 | `seconds*1000 + milliseconds + delay == 60000`, and the delay lies in [1, 60000] for seconds 0..59 and milliseconds 0..999 |
| Schedule.FiresOnMinuteBoundaries | static/script.js:196-205 | armed at any instant, the first refresh fires on the next minute boundary, strictly after the instant and within a minute of it, and no boundary lies between; the k-th later one fires k minutes after that |
| Schedule.TimeToNextMinuteExamples | static/script.js:192-194 | 45 s 300 ms gives 14700; 59 s 500 ms gives 500; 0 s 0 ms gives 60000 |
| TokenList.Remove | static/script.js:175 | `classList.remove(t)` keeps exactly the tokens other than `t`, keeps the list distinct, and leaves a list without `t` as it is |
| TokenList.Add | static/script.js:180 | `classList.add(t)` holds exactly the old tokens and `t`, keeps the old list as its prefix with at most one more token, keeps it distinct, and leaves a list that has `t` as it is |
| Theme.RemoveAll | static/script.js:170-176 | removing the tokens one by one keeps exactly the classes not among them, keeps the list distinct, and changes nothing when none is present |
| Theme.ApplyTheme | static/script.js:168-181 | after the theme switch the body has exactly its non-theme classes plus the period, and stays distinct |
| Theme.ApplyThemeIsExclusive | static/script.js:172-180 | switching to a theme leaves that theme present and neither of the other two |
| Theme.ApplyThemeKeepsOtherClasses | static/script.js:168-181 | a body without theme classes keeps its classes in order, with the period appended when it is new |
| Theme.ApplyThemeIdempotent | static/script.js:168-181 | switching to the same theme twice is the same as switching once |
| Theme.MorningExample | static/script.js:168-181 | a body with only the evening class switched to morning has only the morning class |
| Theme.ApplyThemeOnBareBody | static/script.js:178-180 | a body with no class gets the period as its only class |
| Display.StartTime | static/script.js:116-118 | the immediate half of the time update (opacity 0.5) leaves the text as it was |
| Display.StartGreeting | static/script.js:132-135 | the immediate half of the greeting update (opacity 0, moved down) leaves the text as it was |
| Display.StartIcon | static/script.js:151-153 | the immediate half of the icon update (shrunk) leaves the text as it was |
| Display.ApplyStep | static/script.js:119-160 | a timer callback writes its own element as its effect says and no other element |
| Display.DrainSettles | static/script.js:119-160 | once the whole queue has run, each element is unchanged if no callback was queued for it, and otherwise is at rest (opacity 1 / `translateY(0)` / `scale(1)`) showing the last text queued for it |
| Display.TransitionCompletes | static/script.js:119-160 | a transition queued behind any others completes: its element ends at rest with the step's text |
| Display.LastWriteWins | static/script.js:119-160 | the last text written to an element decides what it settles on, whatever was queued on it before |
| App.GreetingApp.constructor | static/script.js:8-14 | captures the page's elements and classes; no timer is pending |
| App.GreetingApp.UpdateTimeDisplay | static/script.js:114-124 | a present time element is dimmed and its new text queued; a missing one changes nothing; no other field changes |
| App.GreetingApp.UpdateGreetingMessage | static/script.js:130-143 | a present greeting whose text differs is faded out, moved down and its message queued; an equal or missing one leaves the element and the queue unchanged; no other field changes |
| App.GreetingApp.UpdateIcon | static/script.js:149-162 | a present icon whose text differs is shrunk and its swap queued; an equal or missing one leaves the element and the queue unchanged; no other field changes |
| App.GreetingApp.UpdateTheme | static/script.js:168-181 | the loop over the three themes and the final `add` leave the class list equal to `ApplyTheme` of the old one |
| App.GreetingApp.UpdateTimeAndGreeting | static/script.js:94-108 | one refresh: the time, greeting and icon updates with the formatted time and the hour's descriptor, then the theme switch to its period, in that order |
| App.GreetingApp.RefreshAndSettle | static/script.js:94-162 | on a page with no timer pending, a refresh followed by all its timers leaves every present element showing the new time, message and icon; an element whose text changed ends at rest (opacity `1`, `translateY(0)` or `scale(1)`) with its new text; an unchanged or missing greeting or icon, and a missing time element, keep their whole state; the theme is the period's |
| App.GreetingApp.ScheduleNextUpdate | static/script.js:187-206 | the first delay is the time to the next minute boundary, in [1, 60000] for a valid reading, and the repeat interval is 60000 |
| App.GreetingApp.Init | static/script.js:32-42 | start-up is one refresh followed by the minute-aligned schedule |
| App.GreetingApp.Fire | static/script.js:119-160 | the oldest pending callback runs: its element changes as its effect says, and its follow-up is queued at the end; with nothing pending nothing changes |
| App.GreetingApp.RunPending | static/script.js:119-160 | running every pending callback, including those armed on the way, empties the queue and leaves each element as `Settle` says |
| App.RefreshSettles | static/script.js:130-161 | after a refresh's steps (and any earlier time steps) have run, the settled texts are the new ones for present elements and the old ones for missing elements, whether or not the greeting and icon changed |
| App.RefreshRests | static/script.js:114-161 | with no transition in flight, once a refresh's steps have run, each element the refresh changed is at rest with its new text, whatever its immediate half wrote, and each element it left alone is exactly as it was before the refresh |
| App.RenderAt | static/script.js:94-181 | a fresh page with all three elements and any distinct class list, refreshed at hours:minutes and left to settle, shows the formatted time and the hour's message and icon, with the class list switched to the period's theme |
| App.MorningScenario | static/script.js:74-76 | at 06:30 the time text is "06:30", the greeting is おはようございます with 🌅, and a body with no class gets only the `morning` class (the values `RenderAt` shows for that time) |
| App.LateNightScenario | static/script.js:83-87 | at 02:15 the time text is "02:15", the greeting is こんばんは with 🌃, and a body with no class gets only the `evening` class (the values `RenderAt` shows for that time) |

## Left out

- The static file server (`index.js`) is not part of this model. It only
  serves files and has no decision logic.
- Clock reads (`new Date()`, `getHours`, `getMinutes`, `getSeconds`,
  `getMilliseconds`) are parameters. The `timestamp` field that
  `getCurrentTime` also returns is not modelled.
- Real timer semantics are not modelled: the 150, 200, 300 and 60000 ms
  delays, and how callbacks from different cycles interleave in time.
  Pending callbacks run in the order they were armed. A real browser could
  run a 150 ms callback armed later before a 300 ms one armed earlier.
- App.GreetingApp.ScheduleNextUpdate: returns the two delays instead of
  arming `setTimeout` and `setInterval`. The firing times they produce are
  stated by `Schedule.FireTime` and `FiresOnMinuteBoundaries`.
- App.GreetingApp.Init: the JavaScript constructor calls `init` itself. In
  the model, construction and `Init` are two separate steps.
- DOM lookup (`getElementById`, `document.body`) is not modelled. Each
  element's presence in the page is a constant flag of the object.
- The `DOMContentLoaded`, `error` and `visibilitychange` listeners are not
  modelled. The re-refresh when the page becomes visible is just one more
  call to `UpdateTimeAndGreeting`.
- `console.log` and `console.error` output is not modelled.
- The CSS meaning of the opacity and transform strings is not modelled.
  They are opaque text values.
- Display.StartTime, Display.StartGreeting, Display.StartIcon: their own
  contracts state only that the text is kept. The styles they write are
  stated in full by the `UpdateTimeDisplay`, `UpdateGreetingMessage` and
  `UpdateIcon` methods that use them.
