/**
 * The delayed halves of the display transitions. Each update writes part of
 * an element at once and leaves the rest to a timer; here every such timer is
 * a `Step` waiting in a first-in first-out queue, and draining the queue runs
 * them all. The icon's swap arms one more timer, which joins the end of the
 * queue.
 */
module Display {

  /** The presentation state of one element: its text and two style values. */
  datatype Element = Element(text: string, opacity: string, transform: string)

  /** The three elements, by their ids in the page. */
  datatype Target = TimeText | GreetingText | IconEmoji

  /** One pending timer callback. */
  datatype Step =
    | ShowTime(text: string)        // new time text, opacity back to 1
    | ShowGreeting(text: string)    // new message, faded in and slid back up
    | SwapIcon(text: string)        // new icon, enlarged; arms SettleIcon
    | SettleIcon                    // icon back to its normal size
  {
    /** The element the step writes. */
    function On(): Target
    {
      match this
      case ShowTime(_) => TimeText
      case ShowGreeting(_) => GreetingText
      case SwapIcon(_) | SettleIcon => IconEmoji
    }
  }

  /** The three elements the transitions write. */
  datatype Screen = Screen(time: Element, greeting: Element, icon: Element)
  {
    function Get(t: Target): Element
    {
      match t
      case TimeText => time
      case GreetingText => greeting
      case IconEmoji => icon
    }

    function With(t: Target, e: Element): (s: Screen)
      ensures s.Get(t) == e
      ensures forall u :: u != t ==> s.Get(u) == Get(u)
    {
      match t
      case TimeText => this.(time := e)
      case GreetingText => this.(greeting := e)
      case IconEmoji => this.(icon := e)
    }
  }

  /*
   * The immediate halves. The time text is refreshed on every cycle; the
   * greeting and the icon only when the element is present and its text
   * differs from the new one.
   */

  predicate Changes(present: bool, e: Element, text: string)
  {
    present && e.text != text
  }

  function StartTime(present: bool, e: Element): (r: Element)
    ensures r.text == e.text
  {
    if present then e.(opacity := "0.5") else e
  }

  function TimeSteps(present: bool, text: string): seq<Step>
  {
    if present then [ShowTime(text)] else []
  }

  function StartGreeting(present: bool, e: Element, message: string): (r: Element)
    ensures r.text == e.text
  {
    if Changes(present, e, message) then e.(opacity := "0", transform := "translateY(10px)") else e
  }

  function GreetingSteps(present: bool, e: Element, message: string): seq<Step>
  {
    if Changes(present, e, message) then [ShowGreeting(message)] else []
  }

  function StartIcon(present: bool, e: Element, glyph: string): (r: Element)
    ensures r.text == e.text
  {
    if Changes(present, e, glyph) then e.(transform := "scale(0.8)") else e
  }

  function IconSteps(present: bool, e: Element, glyph: string): seq<Step>
  {
    if Changes(present, e, glyph) then [SwapIcon(glyph)] else []
  }

  /** What a step's callback writes into its element. */
  function Effect(step: Step, e: Element): Element
  {
    match step
    case ShowTime(x) => e.(text := x, opacity := "1")
    case ShowGreeting(x) => e.(text := x, opacity := "1", transform := "translateY(0)")
    case SwapIcon(x) => e.(text := x, transform := "scale(1.2)")
    case SettleIcon => e.(transform := "scale(1)")
  }

  /** The timers a step's callback arms in its turn. */
  function FollowUps(step: Step): seq<Step>
  {
    if step.SwapIcon? then [SettleIcon] else []
  }

  function ApplyStep(s: Screen, step: Step): (s': Screen)
    ensures s'.Get(step.On()) == Effect(step, s.Get(step.On()))
    ensures forall u :: u != step.On() ==> s'.Get(u) == s.Get(u)
  {
    s.With(step.On(), Effect(step, s.Get(step.On())))
  }

  /** Steps still to run, counting those they will arm. */
  function Weight(q: seq<Step>): nat
  {
    if q == [] then 0 else (if q[0].SwapIcon? then 2 else 1) + Weight(q[1..])
  }

  lemma {:induction false} WeightAppend(a: seq<Step>, b: seq<Step>)
    ensures Weight(a + b) == Weight(a) + Weight(b)
  {
    if a != [] {
      assert (a + b)[1..] == a[1..] + b;
      WeightAppend(a[1..], b);
    } else {
      assert a + b == b;
    }
  }

  /** Runs every pending step, in order, until no timer is left. */
  function Drain(s: Screen, q: seq<Step>): Screen
    decreases Weight(q)
  {
    if q == [] then s
    else
      WeightAppend(q[1..], FollowUps(q[0]));
      Drain(ApplyStep(s, q[0]), q[1..] + FollowUps(q[0]))
  }

  /** Some step of the queue writes the element. */
  predicate Touches(q: seq<Step>, t: Target)
  {
    q != [] && (q[0].On() == t || Touches(q[1..], t))
  }

  /** The text the element shows once the queue's text writes to it are done. */
  function LastText(q: seq<Step>, t: Target, current: string): string
  {
    if q == [] then current
    else LastText(q[1..], t, if q[0].On() == t && !q[0].SettleIcon? then q[0].text else current)
  }

  /** The style an element is left with when its transition is over. */
  function AtRest(t: Target, e: Element): Element
  {
    match t
    case TimeText => e.(opacity := "1")
    case GreetingText => e.(opacity := "1", transform := "translateY(0)")
    case IconEmoji => e.(transform := "scale(1)")
  }

  /**
   * The element after all its pending transitions: untouched when none is
   * pending, otherwise at rest and showing the last text written to it.
   */
  function Settle(e: Element, t: Target, q: seq<Step>): Element
  {
    if Touches(q, t) then AtRest(t, e.(text := LastText(q, t, e.text))) else e
  }

  lemma {:induction false} TouchesAppend(a: seq<Step>, b: seq<Step>, t: Target)
    ensures Touches(a + b, t) <==> Touches(a, t) || Touches(b, t)
  {
    if a != [] {
      assert (a + b)[1..] == a[1..] + b;
      TouchesAppend(a[1..], b, t);
    } else {
      assert a + b == b;
    }
  }

  lemma {:induction false} LastTextAppend(a: seq<Step>, b: seq<Step>, t: Target, current: string)
    ensures LastText(a + b, t, current) == LastText(b, t, LastText(a, t, current))
  {
    if a != [] {
      assert (a + b)[1..] == a[1..] + b;
      LastTextAppend(a[1..], b, t,
        if a[0].On() == t && !a[0].SettleIcon? then a[0].text else current);
    } else {
      assert a + b == b;
    }
  }

  lemma {:induction false} LastTextUntouched(q: seq<Step>, t: Target, current: string)
    requires !Touches(q, t)
    ensures LastText(q, t, current) == current
  {
    if q != [] {
      LastTextUntouched(q[1..], t, current);
    }
  }

  /**
   * Draining the queue leaves each element exactly as `Settle` says:
   * only the steps on that element matter, and the last text written wins.
   */
  lemma {:induction false} DrainSettles(s: Screen, q: seq<Step>, t: Target)
    ensures Drain(s, q).Get(t) == Settle(s.Get(t), t, q)
    decreases Weight(q)
  {
    if q != [] {
      var x, rest := q[0], q[1..];
      var s', q' := ApplyStep(s, x), rest + FollowUps(x);
      WeightAppend(rest, FollowUps(x));
      DrainSettles(s', q', t);
      TouchesAppend(rest, FollowUps(x), t);
      LastTextAppend(rest, FollowUps(x), t, s'.Get(t).text);
      assert LastText(FollowUps(x), t, LastText(rest, t, s'.Get(t).text)) ==
        LastText(rest, t, s'.Get(t).text);
      if !Touches(rest, t) {
        LastTextUntouched(rest, t, s'.Get(t).text);
        LastTextUntouched(rest, t, s.Get(t).text);
      }
    }
  }

  /**
   * A transition queued behind any earlier ones completes: its element ends
   * at rest showing the step's text, whatever was pending before it.
   */
  lemma TransitionCompletes(s: Screen, q: seq<Step>, step: Step)
    requires !step.SettleIcon?
    ensures Drain(s, q + [step]).Get(step.On()) == AtRest(step.On(), s.Get(step.On()).(text := step.text))
  {
    var t := step.On();
    DrainSettles(s, q + [step], t);
    TouchesAppend(q, [step], t);
    LastTextAppend(q, [step], t, s.Get(t).text);
  }

  /**
   * The last text step for an element decides it: steps queued before it on
   * the same element are overwritten, and steps after it are on other elements.
   */
  lemma LastWriteWins(e: Element, q: seq<Step>, step: Step, r: seq<Step>)
    requires !step.SettleIcon? && !Touches(r, step.On())
    ensures Settle(e, step.On(), q + [step] + r) == AtRest(step.On(), e.(text := step.text))
  {
    var t := step.On();
    TouchesAppend(q + [step], r, t);
    TouchesAppend(q, [step], t);
    LastTextAppend(q + [step], r, t, e.text);
    LastTextAppend(q, [step], t, e.text);
    LastTextUntouched(r, t, step.text);
  }

  /** Whether or not the element was touched, it ends showing the last text queued for it. */
  lemma SettleText(e: Element, t: Target, q: seq<Step>)
    ensures Settle(e, t, q).text == LastText(q, t, e.text)
  {
    if !Touches(q, t) {
      LastTextUntouched(q, t, e.text);
    }
  }
}
