/**
 * The body's theme: three known theme classes, all removed and then the
 * current period added, leaving every other class of the body alone.
 */
module Theme {
  import opened TokenList

  /** The theme classes, in the order they are removed. */
  const Themes: seq<string> := ["morning", "afternoon", "evening"]

  /** Removing each token of `ts` in turn, as the `forEach` over the theme list does. */
  function RemoveAll(s: seq<string>, ts: seq<string>): (r: seq<string>)
    ensures forall c :: c in r <==> c in s && c !in ts
    ensures Distinct(s) ==> Distinct(r)
    ensures (forall c :: c in s ==> c !in ts) ==> r == s
  {
    if ts == [] then s else Remove(RemoveAll(s, ts[..|ts| - 1]), ts[|ts| - 1])
  }

  /** The class list after the theme is switched to `period`. */
  function ApplyTheme(s: seq<string>, period: string): (r: seq<string>)
    ensures forall c :: c in r <==> (c in s && c !in Themes) || c == period
    ensures Distinct(s) ==> Distinct(r)
  {
    Add(RemoveAll(s, Themes), period)
  }

  /** Switching to a known theme leaves it the one theme class of the body. */
  lemma ApplyThemeIsExclusive(s: seq<string>, period: string)
    requires period in Themes
    ensures var r := ApplyTheme(s, period);
      period in r && forall k :: 0 <= k < |Themes| && Themes[k] != period ==> Themes[k] !in r
  {
  }

  /** Classes that are not themes are kept, in their order, with the period appended when it is new. */
  lemma ApplyThemeKeepsOtherClasses(s: seq<string>, period: string)
    requires forall c :: c in s ==> c !in Themes
    ensures ApplyTheme(s, period) == if period in s then s else s + [period]
  {
  }

  /** Removing tokens from a list with one more token at the end. */
  lemma {:induction false} RemoveAllAppend(s: seq<string>, x: string, ts: seq<string>)
    ensures RemoveAll(s + [x], ts) == if x in ts then RemoveAll(s, ts) else RemoveAll(s, ts) + [x]
  {
    if ts != [] {
      var init, last := ts[..|ts| - 1], ts[|ts| - 1];
      assert ts == init + [last];
      RemoveAllAppend(s, x, init);
      if x !in init {
        RemoveAppend(RemoveAll(s, init), x, last);
      }
    }
  }

  /** Switching to the same theme twice is switching once. */
  lemma ApplyThemeIdempotent(s: seq<string>, period: string)
    ensures ApplyTheme(ApplyTheme(s, period), period) == ApplyTheme(s, period)
  {
    var kept := RemoveAll(s, Themes);
    assert RemoveAll(kept, Themes) == kept;
    if period !in kept {
      RemoveAllAppend(kept, period, Themes);
    }
  }

  /** A body whose only class was the evening theme switches to the morning theme alone. */
  lemma MorningExample()
    ensures ApplyTheme(["evening"], "morning") == ["morning"]
  {
  }

  /** A body with no class ends with the period as its only class. */
  lemma ApplyThemeOnBareBody(period: string)
    ensures ApplyTheme([], period) == [period]
  {
    assert RemoveAll([], Themes) == [];
  }
}
