/** The countdown view for one arrival prediction (OnePredictionView.java):
    whole minutes until arrival, truncated toward zero, rendered as
    "N minute(s)[ ago]" with an optional small "  ([route ]title)" suffix,
    and the next instant at which that text must change. */
module PredictionView {
  import opened JavaLang

  const MsPerMinute: int := 60000
  /** The value the setters store to force the next update() to recompute. */
  const UpdateNow: int := -1

  /** Java's long division, which truncates toward zero (Dafny's / on int
      rounds toward negative infinity for a positive divisor). */
  function TruncDiv(a: int, b: int): (q: int)
    requires b > 0
    ensures a >= 0 ==> q * b <= a < q * b + b
    ensures a < 0 ==> q * b - b < a <= q * b
  {
    if a >= 0 then a / b else -((-a) / b)
  }

  /** delta_minutes: whole minutes from now until the expected arrival. */
  function MinutesUntil(expectedArrival: int, now: int): int
  {
    TruncDiv(expectedArrival - now, MsPerMinute)
  }

  /** The instant update() stores as m_next_visible_change. */
  function NextVisibleChange(expectedArrival: int, now: int): int
  {
    var delta := MinutesUntil(expectedArrival, now);
    if delta > 0 then expectedArrival - delta * MsPerMinute + 1
    else expectedArrival - (delta - 1) * MsPerMinute
  }

  /** The truncated quotient is the only q whose interval holds a. */
  lemma TruncDivUnique(a: int, q: int)
    requires (a >= 0 && q * MsPerMinute <= a < q * MsPerMinute + MsPerMinute)
          || (a < 0 && q * MsPerMinute - MsPerMinute < a <= q * MsPerMinute)
    ensures TruncDiv(a, MsPerMinute) == q
  {
  }

  /** The stored change time is strictly after now, so the delay that
      update() schedules is positive. */
  lemma NextVisibleChangeIsLater(expectedArrival: int, now: int)
    ensures NextVisibleChange(expectedArrival, now) > now
  {
  }

  /** The minute count is the same at every instant from now up to, but
      excluding, the next visible change ... */
  lemma MinutesConstantUntilChange(expectedArrival: int, now: int, t: int)
    requires now <= t < NextVisibleChange(expectedArrival, now)
    ensures MinutesUntil(expectedArrival, t) == MinutesUntil(expectedArrival, now)
  {
    var delta := MinutesUntil(expectedArrival, now);
    var a := expectedArrival - t;
    if a >= 0 && delta <= 0 {
      assert delta == 0;
    }
    if a < 0 && delta > 0 {
      assert false;
    }
    TruncDivUnique(a, delta);
  }

  /** ... and exactly one less at the next visible change. */
  lemma MinutesDropAtChange(expectedArrival: int, now: int)
    ensures MinutesUntil(expectedArrival, NextVisibleChange(expectedArrival, now))
         == MinutesUntil(expectedArrival, now) - 1
  {
    var delta := MinutesUntil(expectedArrival, now);
    var a := expectedArrival - NextVisibleChange(expectedArrival, now);
    if delta > 0 {
      assert a == delta * MsPerMinute - 1;
    } else {
      assert a == (delta - 1) * MsPerMinute;
    }
    TruncDivUnique(a, delta - 1);
  }

  /** "N minute", an "s" unless N is 1, and " ago" for a negative count;
      N is the magnitude of the count. */
  function MinutesText(delta: int): string
  {
    var magnitude: nat := if delta < 0 then -delta else delta;
    NatToString(magnitude) + " minute" + (if magnitude != 1 then "s" else "") + (if delta < 0 then " ago" else "")
  }

  /** A string field that update() only reads when it is set. */
  function OrEmpty(s: Option<string>): string
  {
    if s.Some? then s.value else ""
  }

  /** The small text range, from its first character to the end. */
  datatype Span = Span(start: nat, end: nat)

  /** What the view displays: a plain String, or a styled text with at most
      one small span. */
  datatype Shown = Plain(text: string) | Styled(text: string, small: Option<Span>)

  /** The suffix naming a destination other than the queried one. */
  function DestinationSuffix(queryRouteTag: Option<string>, predictionRouteTag: string, title: string): string
  {
    "  (" + (if Some(predictionRouteTag) != queryRouteTag then predictionRouteTag + " " else "") + title + ")"
  }

  /** The countdown text for an arrival, seen at a given instant. */
  function Countdown(
    expectedArrival: int, now: int,
    queryRouteTag: Option<string>, queryDirectionTag: Option<string>,
    predictionRouteTag: string, predictionDirectionTag: string, title: string): Shown
  {
    var minutes := MinutesText(MinutesUntil(expectedArrival, now));
    if Some(predictionDirectionTag) == queryDirectionTag then Styled(minutes, None)
    else
      var text := minutes + DestinationSuffix(queryRouteTag, predictionRouteTag, title);
      Styled(text, Some(Span(|minutes|, |text|)))
  }

  /** Whatever the rest of the text, it changes only when the minute count
      does. */
  lemma CountdownConstantUntilChange(
    expectedArrival: int, now: int, t: int,
    queryRouteTag: Option<string>, queryDirectionTag: Option<string>,
    predictionRouteTag: string, predictionDirectionTag: string, title: string)
    requires now <= t < NextVisibleChange(expectedArrival, now)
    ensures Countdown(expectedArrival, t, queryRouteTag, queryDirectionTag, predictionRouteTag, predictionDirectionTag, title)
         == Countdown(expectedArrival, now, queryRouteTag, queryDirectionTag, predictionRouteTag, predictionDirectionTag, title)
  {
    MinutesConstantUntilChange(expectedArrival, now, t);
  }

  /** The values the view's tests pin. */
  lemma MinutesTextExamples()
    ensures MinutesText(MinutesUntil(10600 * 1000, 10000 * 1000)) == "10 minutes"
    ensures MinutesText(MinutesUntil(10600 * 1000, 10539 * 1000)) == "1 minute"
    ensures MinutesText(MinutesUntil(10600 * 1000, 10599 * 1000)) == "0 minutes"
    ensures MinutesText(MinutesUntil(10600 * 1000, 10659 * 1000)) == "0 minutes"
    ensures MinutesText(MinutesUntil(10600 * 1000, 10660 * 1000)) == "1 minute ago"
    ensures MinutesText(MinutesUntil(10600 * 1000, 11140 * 1000)) == "9 minutes ago"
  {
    assert NatToString(10) == "10";
  }

  lemma TenMinutesText(now: int)
    ensures MinutesText(MinutesUntil(now + 600 * 1000, now)) == "10 minutes"
  {
    assert MinutesUntil(now + 600 * 1000, now) == 10;
    assert NatToString(10) == "10";
  }

  /** The countdown for a prediction in another direction: the minutes,
      then the suffix in a small span that runs to the end. */
  lemma CountdownOtherDirection(
    expectedArrival: int, now: int,
    queryRouteTag: Option<string>, queryDirectionTag: Option<string>,
    predictionRouteTag: string, predictionDirectionTag: string, title: string)
    requires Some(predictionDirectionTag) != queryDirectionTag
    ensures var minutes := MinutesText(MinutesUntil(expectedArrival, now));
      var suffix := DestinationSuffix(queryRouteTag, predictionRouteTag, title);
      Countdown(expectedArrival, now, queryRouteTag, queryDirectionTag, predictionRouteTag, predictionDirectionTag, title)
        == Styled(minutes + suffix, Some(Span(|minutes|, |minutes| + |suffix|)))
  {
  }

  lemma SameRouteSuffix()
    ensures DestinationSuffix(Some("71"), "71", "Inbound to Van Ness") == "  (Inbound to Van Ness)"
  {
  }

  lemma OtherRouteSuffix()
    ensures DestinationSuffix(Some("71"), "6", "Inbound to Ferry") == "  (6 Inbound to Ferry)"
  {
    assert Some("6") != Some("71") by {
      assert |"6"| != |"71"|;
    }
  }

  /** A different direction on the queried route: the suffix names only
      the direction's title, in a small span after the minutes. */
  lemma OtherDirectionExample(now: int)
    ensures Countdown(now + 600 * 1000, now, Some("71"), Some("71I"), "71", "71IVN", "Inbound to Van Ness")
         == Styled("10 minutes  (Inbound to Van Ness)", Some(Span(10, 33)))
  {
    assert "10 minutes" + "  (Inbound to Van Ness)" == "10 minutes  (Inbound to Van Ness)";
    assert Some("71IVN") != Some("71I") by {
      assert |"71IVN"| != |"71I"|;
    }
    CountdownOtherDirection(now + 600 * 1000, now, Some("71"), Some("71I"), "71", "71IVN", "Inbound to Van Ness");
    TenMinutesText(now);
    SameRouteSuffix();
  }

  /** A different route: the suffix also names that route. */
  lemma OtherRouteExample(now: int)
    ensures Countdown(now + 600 * 1000, now, Some("71"), Some("71I"), "6", "6I", "Inbound to Ferry")
         == Styled("10 minutes  (6 Inbound to Ferry)", Some(Span(10, 32)))
  {
    assert "10 minutes" + "  (6 Inbound to Ferry)" == "10 minutes  (6 Inbound to Ferry)";
    assert Some("6I") != Some("71I") by {
      assert |"6I"| != |"71I"|;
    }
    CountdownOtherDirection(now + 600 * 1000, now, Some("71"), Some("71I"), "6", "6I", "Inbound to Ferry");
    TenMinutesText(now);
    OtherRouteSuffix();
  }

  class OnePredictionView {
    var noPredictionText: string
    var expectedArrival: int
    var nextVisibleChange: int
    var queryRouteTag: Option<string>
    var queryDirectionTag: Option<string>
    var predictionRouteTag: Option<string>
    var predictionDirectionTag: Option<string>
    var predictionDirectionTitle: Option<string>
    /** The view's current text. */
    var shown: Shown
    /** Whether the text was computed by update() at computedAt from the
        current fields, with no setter call since. */
    ghost var cached: bool
    ghost var computedAt: int

    /** The fields update() dereferences are set: the prediction's direction
        tag always, and the prediction's route tag and direction title when
        that direction differs from the query's. */
    predicate Configured()
      reads this
    {
      noPredictionText != "" ||
      (predictionDirectionTag.Some? &&
       (predictionDirectionTag != queryDirectionTag ==> predictionRouteTag.Some? && predictionDirectionTitle.Some?))
    }

    /** The countdown the current fields call for at instant now. */
    function TextAt(now: int): Shown
      requires Configured() && noPredictionText == ""
      reads this
    {
      Countdown(expectedArrival, now, queryRouteTag, queryDirectionTag,
        OrEmpty(predictionRouteTag), predictionDirectionTag.value, OrEmpty(predictionDirectionTitle))
    }

    ghost predicate Valid()
      reads this
    {
      cached ==>
        && Configured() && noPredictionText == ""
        && nextVisibleChange == NextVisibleChange(expectedArrival, computedAt)
        && shown == TextAt(computedAt)
    }

    constructor ()
      ensures Valid() && !cached
      ensures noPredictionText == "" && expectedArrival == 0 && nextVisibleChange == 0
      ensures queryRouteTag == None && queryDirectionTag == None
      ensures predictionRouteTag == None && predictionDirectionTag == None && predictionDirectionTitle == None
      ensures shown == Plain("")
    {
      noPredictionText := "";
      expectedArrival := 0;
      nextVisibleChange := 0;
      queryRouteTag, queryDirectionTag := None, None;
      predictionRouteTag, predictionDirectionTag, predictionDirectionTitle := None, None, None;
      shown := Plain("");
      cached := false;
      computedAt := 0;
    }

    /** update(): shows the no-prediction text if there is one; otherwise
        recomputes the countdown when the stored change time has come, and
        returns the delay after which it asks to run again. */
    method Update(now: int) returns (delay: Option<int>)
      requires Valid() && Configured()
      modifies this
      ensures Valid()
      ensures noPredictionText == old(noPredictionText) && expectedArrival == old(expectedArrival)
      ensures queryRouteTag == old(queryRouteTag) && queryDirectionTag == old(queryDirectionTag)
      ensures predictionRouteTag == old(predictionRouteTag) && predictionDirectionTag == old(predictionDirectionTag)
      ensures predictionDirectionTitle == old(predictionDirectionTitle)
      ensures noPredictionText != "" ==>
        shown == Plain(noPredictionText) && delay == None && nextVisibleChange == old(nextVisibleChange)
      ensures noPredictionText == "" && old(nextVisibleChange) <= now ==>
        && nextVisibleChange == NextVisibleChange(expectedArrival, now)
        && shown == TextAt(now) && cached && computedAt == now
      ensures noPredictionText == "" && old(nextVisibleChange) > now ==>
        shown == old(shown) && nextVisibleChange == old(nextVisibleChange)
      ensures noPredictionText == "" ==> delay == Some(nextVisibleChange - now) && delay.value > 0
      // The text left in place is still the right one, unless the clock went back.
      ensures noPredictionText == "" && (old(nextVisibleChange) <= now || (old(cached) && old(computedAt) <= now)) ==>
        shown == TextAt(now)
    {
      if noPredictionText != "" {
        shown := Plain(noPredictionText);
        cached := false;
        return None;
      }
      if nextVisibleChange <= now {
        var deltaMinutes := MinutesUntil(expectedArrival, now);
        if deltaMinutes > 0 {
          nextVisibleChange := expectedArrival - deltaMinutes * MsPerMinute + 1;
        } else {
          nextVisibleChange := expectedArrival - (deltaMinutes - 1) * MsPerMinute;
        }
        shown := RenderCountdown(deltaMinutes);
        cached := true;
        computedAt := now;
        NextVisibleChangeIsLater(expectedArrival, now);
      } else if cached && computedAt <= now {
        CountdownConstantUntilChange(expectedArrival, computedAt, now, queryRouteTag, queryDirectionTag,
          OrEmpty(predictionRouteTag), predictionDirectionTag.value, OrEmpty(predictionDirectionTitle));
      }
      delay := Some(nextVisibleChange - now);
    }

    /** The text update() builds for a minute count: the count's
        magnitude, "minute", the plural and "ago" markers, and the small
        destination suffix when the prediction's direction is not the
        queried one. */
    method RenderCountdown(deltaMinutes: int) returns (shown: Shown)
      requires Configured() && noPredictionText == ""
      ensures forall now :: MinutesUntil(expectedArrival, now) == deltaMinutes ==> shown == TextAt(now)
    {
      var ago := "";
      var plural := "";
      var magnitude := deltaMinutes;
      if magnitude < 0 {
        ago := " ago";
        magnitude := -magnitude;
      }
      if magnitude != 1 {
        plural := "s";
      }
      var minutes := NatToString(magnitude) + " minute" + plural + ago;
      assert minutes == MinutesText(deltaMinutes);
      var text := minutes;
      var small := None;
      if Some(predictionDirectionTag.value) != queryDirectionTag {
        var smallStart := |text|;
        text := text + "  (";
        if Some(predictionRouteTag.value) != queryRouteTag {
          text := text + predictionRouteTag.value + " ";
        }
        text := text + predictionDirectionTitle.value + ")";
        assert text == minutes + DestinationSuffix(queryRouteTag, predictionRouteTag.value, predictionDirectionTitle.value);
        small := Some(Span(smallStart, |text|));
      }
      shown := Styled(text, small);
    }

    method SetNoPredictionText(text: string)
      modifies this
      ensures noPredictionText == text && nextVisibleChange == UpdateNow && !cached
      ensures expectedArrival == old(expectedArrival) && shown == old(shown)
      ensures queryRouteTag == old(queryRouteTag) && queryDirectionTag == old(queryDirectionTag)
      ensures predictionRouteTag == old(predictionRouteTag) && predictionDirectionTag == old(predictionDirectionTag)
      ensures predictionDirectionTitle == old(predictionDirectionTitle)
      ensures Valid()
    {
      nextVisibleChange := UpdateNow;
      noPredictionText := text;
      cached := false;
    }

    method SetExpectedArrival(expected: int)
      modifies this
      ensures expectedArrival == expected && nextVisibleChange == UpdateNow && !cached
      ensures noPredictionText == old(noPredictionText) && shown == old(shown)
      ensures queryRouteTag == old(queryRouteTag) && queryDirectionTag == old(queryDirectionTag)
      ensures predictionRouteTag == old(predictionRouteTag) && predictionDirectionTag == old(predictionDirectionTag)
      ensures predictionDirectionTitle == old(predictionDirectionTitle)
      ensures Valid()
    {
      nextVisibleChange := UpdateNow;
      expectedArrival := expected;
      cached := false;
    }

    method SetQueryRouteTag(tag: string)
      modifies this
      ensures queryRouteTag == Some(tag) && nextVisibleChange == UpdateNow && !cached
      ensures noPredictionText == old(noPredictionText) && expectedArrival == old(expectedArrival) && shown == old(shown)
      ensures queryDirectionTag == old(queryDirectionTag)
      ensures predictionRouteTag == old(predictionRouteTag) && predictionDirectionTag == old(predictionDirectionTag)
      ensures predictionDirectionTitle == old(predictionDirectionTitle)
      ensures Valid()
    {
      nextVisibleChange := UpdateNow;
      queryRouteTag := Some(tag);
      cached := false;
    }

    method SetQueryDirectionTag(tag: string)
      modifies this
      ensures queryDirectionTag == Some(tag) && nextVisibleChange == UpdateNow && !cached
      ensures noPredictionText == old(noPredictionText) && expectedArrival == old(expectedArrival) && shown == old(shown)
      ensures queryRouteTag == old(queryRouteTag)
      ensures predictionRouteTag == old(predictionRouteTag) && predictionDirectionTag == old(predictionDirectionTag)
      ensures predictionDirectionTitle == old(predictionDirectionTitle)
      ensures Valid()
    {
      nextVisibleChange := UpdateNow;
      queryDirectionTag := Some(tag);
      cached := false;
    }

    method SetPredictionRouteTag(tag: string)
      modifies this
      ensures predictionRouteTag == Some(tag) && nextVisibleChange == UpdateNow && !cached
      ensures noPredictionText == old(noPredictionText) && expectedArrival == old(expectedArrival) && shown == old(shown)
      ensures queryRouteTag == old(queryRouteTag) && queryDirectionTag == old(queryDirectionTag)
      ensures predictionDirectionTag == old(predictionDirectionTag)
      ensures predictionDirectionTitle == old(predictionDirectionTitle)
      ensures Valid()
    {
      nextVisibleChange := UpdateNow;
      predictionRouteTag := Some(tag);
      cached := false;
    }

    method SetPredictionDirectionTag(tag: string)
      modifies this
      ensures predictionDirectionTag == Some(tag) && nextVisibleChange == UpdateNow && !cached
      ensures noPredictionText == old(noPredictionText) && expectedArrival == old(expectedArrival) && shown == old(shown)
      ensures queryRouteTag == old(queryRouteTag) && queryDirectionTag == old(queryDirectionTag)
      ensures predictionRouteTag == old(predictionRouteTag)
      ensures predictionDirectionTitle == old(predictionDirectionTitle)
      ensures Valid()
    {
      nextVisibleChange := UpdateNow;
      predictionDirectionTag := Some(tag);
      cached := false;
    }

    method SetPredictionDirectionTitle(title: string)
      modifies this
      ensures predictionDirectionTitle == Some(title) && nextVisibleChange == UpdateNow && !cached
      ensures noPredictionText == old(noPredictionText) && expectedArrival == old(expectedArrival) && shown == old(shown)
      ensures queryRouteTag == old(queryRouteTag) && queryDirectionTag == old(queryDirectionTag)
      ensures predictionRouteTag == old(predictionRouteTag) && predictionDirectionTag == old(predictionDirectionTag)
      ensures Valid()
    {
      nextVisibleChange := UpdateNow;
      predictionDirectionTitle := Some(title);
      cached := false;
    }
  }

  /** The countdown sequence of the view's test: one view, the clock moved
      forward between updates and no setter called in between. The texts
      shown are the test's, and none carries a small span. */
  method SameDirectionVariousTimes() returns (texts: seq<Shown>)
    ensures texts == [Styled("10 minutes", None), Styled("1 minute", None), Styled("0 minutes", None),
                      Styled("0 minutes", None), Styled("1 minute ago", None), Styled("9 minutes ago", None)]
  {
    var view := new OnePredictionView();
    view.SetQueryRouteTag("71");
    view.SetQueryDirectionTag("71I");
    view.SetPredictionRouteTag("71");
    view.SetPredictionDirectionTag("71I");
    view.SetPredictionDirectionTitle("Inbound to Ferry");
    view.SetExpectedArrival(10600 * 1000);
    MinutesTextExamples();
    var d := view.Update(10000 * 1000);
    texts := [view.shown];
    d := view.Update(10539 * 1000);
    texts := texts + [view.shown];
    d := view.Update(10599 * 1000);
    texts := texts + [view.shown];
    d := view.Update(10659 * 1000);
    texts := texts + [view.shown];
    d := view.Update(10660 * 1000);
    texts := texts + [view.shown];
    d := view.Update(11140 * 1000);
    texts := texts + [view.shown];
  }
}
