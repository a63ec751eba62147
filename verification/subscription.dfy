/** The subscription screen and the usage cards: the status shown for the
    current subscription, the days it has left, which cards appear, and
    the usage bars and messages.

    Times are milliseconds since the epoch; an end date that does not
    parse is `None` (JavaScript's `NaN`). */
module Subscription {
  import opened Wrappers
  import opened Js
  import opened Text
  import opened Calendar

  /** The current subscription as the screen reads it. `endTime` is
      `endDate` as `new Date` parses it; the two are kept independent, so
      every promise below holds for any pairing, the screen's own (a
      missing or empty end date parses to `None`) among them. */
  datatype Current = Current(status: string, endDate: Option<string>, endTime: Option<int>)

  /** `Math.ceil(a / b)` for a positive divisor. */
  function CeilDiv(a: int, b: int): (q: int)
    requires b > 0
    ensures (q - 1) * b < a <= q * b
  {
    -((-a) / b)
  }

  /** `Math.ceil((endDate - now) / one day)`: `None` when the end date does
      not parse. */
  function DaysRemaining(endTime: Option<int>, now: int): (d: Option<int>)
    ensures d.Some? <==> endTime.Some?
    ensures d.Some? ==> (d.value - 1) * MsPerDay < endTime.value - now <= d.value * MsPerDay
  {
    match endTime
    case None => None
    case Some(t) => Some(CeilDiv(t - now, MsPerDay))
  }

  /** `getDisplayStatus`: a pending request wins; no subscription reads as
      expired; an active one is expired, expiring soon (one to seven days
      left) or active by the days it has left; any other status is shown
      as it is. `NaN` days compare false, so an active subscription whose
      end does not parse stays active. */
  function DisplayStatus(hasPending: bool, current: Option<Current>, now: int): (s: string)
    ensures hasPending ==> s == "pending"
    ensures !hasPending && current.None? ==> s == "expired"
    ensures !hasPending && current.Some? && current.value.status != "active" ==> s == current.value.status
    ensures !hasPending && current.Some? && current.value.status == "active" ==>
      var d := DaysRemaining(current.value.endTime, now);
      && (s == "expired" <==> d.Some? && d.value <= 0)
      && (s == "expiring_soon" <==> d.Some? && 1 <= d.value <= 7)
      && (s == "active" <==> d.None? || d.value > 7)
  {
    if hasPending then "pending"
    else if current.None? then "expired"
    else
      var d := DaysRemaining(current.value.endTime, now);
      if current.value.status == "active" then
        if d.Some? && d.value <= 0 then "expired"
        else if d.Some? && d.value <= 7 then "expiring_soon"
        else "active"
      else current.value.status
  }

  /** An active subscription is shown as expiring soon exactly when it ends
      within the next seven days, and as expired exactly when its end has
      passed. */
  lemma {:induction false} ExpiringSoonWithinAWeek(c: Current, now: int)
    requires c.status == "active" && c.endTime.Some?
    ensures DisplayStatus(false, Some(c), now) == "expiring_soon" <==>
      0 < c.endTime.value - now <= 7 * MsPerDay
    ensures DisplayStatus(false, Some(c), now) == "expired" <==> c.endTime.value <= now
  {
    var d := DaysRemaining(c.endTime, now).value;
    var gap := c.endTime.value - now;
    assert (d - 1) * MsPerDay < gap <= d * MsPerDay;
    if d <= 0 {
      assert d * MsPerDay <= 0;
    } else if d <= 7 {
      assert (d - 1) * MsPerDay >= 0;
      assert d * MsPerDay <= 7 * MsPerDay;
    } else {
      assert (d - 1) * MsPerDay >= 7 * MsPerDay;
    }
  }

  /** `getDaysRemaining`: 0 without an end date. */
  function DaysRemainingShown(current: Option<Current>, now: int): (d: Option<int>)
    ensures current.None? || !Truthy(current.value.endDate, "") ==> d == Some(0)
    ensures current.Some? && Truthy(current.value.endDate, "") ==> d == DaysRemaining(current.value.endTime, now)
  {
    if current.None? || !Truthy(current.value.endDate, "") then Some(0)
    else DaysRemaining(current.value.endTime, now)
  }

  /** Which cards the screen shows. */
  datatype Cards = Cards(noSubscription: bool, expiringWarning: bool, pendingNotice: bool, usage: bool, info: bool)

  function CardsShown(hasPending: bool, current: Option<Current>, hasUsage: bool, now: int): (c: Cards)
    ensures c.noSubscription <==> current.None? && !hasPending
    ensures c.pendingNotice <==> hasPending
    ensures c.usage <==> hasUsage && current.Some? && current.value.status == "active"
    ensures c.expiringWarning ==> !hasPending && current.Some?
    ensures c.info <==> hasPending || (current.Some? && current.value.status == "active")
  {
    var status := DisplayStatus(hasPending, current, now);
    Cards(
      current.None? && !hasPending,
      status == "expiring_soon" && current.Some? && Truthy(current.value.endDate, ""),
      hasPending,
      hasUsage && current.Some? && current.value.status == "active",
      (current.Some? && current.value.status == "active") || hasPending)
  }

  /** The no-subscription card never shows beside the usage card or the
      expiry warning, and an expiry warning for an active subscription
      always counts one to seven days. */
  lemma CardsExclusive(hasPending: bool, current: Option<Current>, hasUsage: bool, now: int)
    ensures var c := CardsShown(hasPending, current, hasUsage, now);
      !(c.noSubscription && (c.usage || c.expiringWarning))
    ensures var c := CardsShown(hasPending, current, hasUsage, now);
      c.expiringWarning && current.value.status == "active" ==>
        var d := DaysRemainingShown(current, now);
        d.Some? && 1 <= d.value <= 7
  {
  }

  /** A bar width `Math.min(100, used / limit * 100)`; `None` when the
      division gives `NaN` or minus infinity, which are not widths. */
  function UsageWidth(used: int, limit: int): (w: Option<real>)
    ensures w.Some? ==> w.value <= 100.0
    ensures limit > 0 ==> w.Some? && w.value * (limit as real) == Min(100.0 * (limit as real), (used as real) * 100.0)
    ensures limit == 0 ==> (w.Some? <==> used > 0)
  {
    if limit == 0 then (if used > 0 then Some(100.0) else None)
    else
      var p := (used as real) / (limit as real) * 100.0;
      Some(if p < 100.0 then p else 100.0)
  }

  function Min(a: real, b: real): real {
    if a < b then a else b
  }

  // ---------------------------------------------------------------------
  // The usage cards
  // ---------------------------------------------------------------------

  datatype Usage = Usage(weeklyLimit: int, weeklyUsed: int, weeklyLeft: int, monthlyLimit: int, monthlyUsed: int, monthlyLeft: int)

  /** The dashboard's `ProgressBar`: the used share, capped at 100 and 0
      without a total. */
  function ProgressPercentage(used: int, total: int): (p: real)
    ensures p <= 100.0
    ensures total <= 0 ==> p == 0.0
    ensures total > 0 && used <= total ==> p * (total as real) == (used as real) * 100.0
    ensures total > 0 && used >= total ==> p == 100.0
  {
    if total > 0 then
      var q := (used as real) / (total as real) * 100.0;
      assert q * (total as real) == (used as real) * 100.0;
      ScaledBound(q, total as real);
      if q < 100.0 then q else 100.0
    else 0.0
  }

  /** `q * t == 100 * used` with `t > 0` puts `q` against 100 as `used`
      stands against `t`. */
  lemma ScaledBound(q: real, t: real)
    requires t > 0.0
    ensures q < 100.0 <==> q * t < 100.0 * t
  {
    if q < 100.0 {
      assert (100.0 - q) * t > 0.0;
    } else {
      assert (q - 100.0) * t >= 0.0;
    }
  }

  datatype Colour = Purple | Green | Red

  /** What the dashboard's usage card shows. */
  datatype UsageView =
    | PlansPrompt
    | Nothing
    | Bars(weeklyMessage: string, weeklyBar: Colour, weeklyPercent: real,
           monthlyMessage: string, monthlyBar: Colour, monthlyPercent: real)

  const WeeklyCapText := "وصلتِ للحد الأسبوعي (3 حصص) 💪"
  const MonthFinishedText := "انتهت حصص هذا الشهر"

  /** `getWeeklyMessage` and `getMonthlyMessage`: the remaining count is
      shown right after the prefix, where it reads back as the count. */
  function WeeklyMessage(left: int): (m: string)
    ensures m == WeeklyCapText <==> left <= 0
    ensures left > 0 ==> |m| > |WeeklyLeftPrefix| && m[..|WeeklyLeftPrefix|] == WeeklyLeftPrefix
    ensures left > 0 ==> ParseInt(m[|WeeklyLeftPrefix|..]) == Some(left)
  {
    if left > 0 then
      var rest := " حصص هذا الأسبوع ✨";
      var m := WeeklyLeftPrefix + (IntToString(left) + rest);
      assert m[0] != WeeklyCapText[0];
      assert m[..|WeeklyLeftPrefix|] == WeeklyLeftPrefix;
      assert m[|WeeklyLeftPrefix|..] == IntToString(left) + rest;
      ParseIntOfIntToStringThen(left, rest);
      m
    else WeeklyCapText
  }

  function MonthlyMessage(left: int): (m: string)
    ensures m == MonthFinishedText <==> left == 0
    ensures left != 0 ==> |m| > |MonthlyLeftPrefix| && m[..|MonthlyLeftPrefix|] == MonthlyLeftPrefix
    ensures left != 0 ==> ParseInt(m[|MonthlyLeftPrefix|..]) == Some(left)
  {
    if left == 0 then MonthFinishedText
    else
      var rest := " حصص من اشتراكك الشهري";
      var m := MonthlyLeftPrefix + (IntToString(left) + rest);
      assert m[0] != MonthFinishedText[0];
      assert m[..|MonthlyLeftPrefix|] == MonthlyLeftPrefix;
      assert m[|MonthlyLeftPrefix|..] == IntToString(left) + rest;
      ParseIntOfIntToStringThen(left, rest);
      m
  }

  const WeeklyLeftPrefix := "تبقّى لك "
  const MonthlyLeftPrefix := "تبقّى "

  /** `UsageCard`: the plans prompt without a subscription (`hasSubscription`
      defaults to true), nothing without usage, else both bars. A bar is
      red exactly when nothing is left. */
  function UsageCardView(hasSubscription: Option<bool>, usage: Option<Usage>): (v: UsageView)
    ensures v == PlansPrompt <==> hasSubscription == Some(false)
    ensures v == Nothing <==> hasSubscription != Some(false) && usage.None?
    ensures v.Bars? ==> usage.Some? && var u := usage.value;
      && (v.weeklyBar == Red <==> u.weeklyLeft <= 0)
      && (v.monthlyBar == Red <==> u.monthlyLeft <= 0)
      && (v.weeklyMessage == WeeklyCapText <==> u.weeklyLeft <= 0)
      && (v.monthlyMessage == MonthFinishedText <==> u.monthlyLeft == 0)
      && v.weeklyPercent == ProgressPercentage(u.weeklyUsed, u.weeklyLimit)
      && v.monthlyPercent == ProgressPercentage(u.monthlyUsed, u.monthlyLimit)
  {
    if !Nullish(hasSubscription, Some(true)).value then PlansPrompt
    else if usage.None? then Nothing
    else
      var u := usage.value;
      Bars(
        WeeklyMessage(u.weeklyLeft),
        if u.weeklyLeft > 0 then Purple else Red,
        ProgressPercentage(u.weeklyUsed, u.weeklyLimit),
        MonthlyMessage(u.monthlyLeft),
        if u.monthlyLeft > 0 then Green else Red,
        ProgressPercentage(u.monthlyUsed, u.monthlyLimit))
  }

  /** A negative monthly balance paints the bar red yet still words it as
      sessions remaining: the message tests `=== 0` where the colour tests
      `> 0`. */
  lemma NegativeMonthlyLeftIsRedButRemaining(u: Usage)
    requires u.monthlyLeft < 0
    ensures var v := UsageCardView(Some(true), Some(u));
      v.monthlyBar == Red && v.monthlyMessage != MonthFinishedText
  {
  }

  /** `WeeklyUsageCard`: the used share (0 without a limit), a bar width
      capped at 100, red exactly when nothing is left, and the singular
      "session" exactly for one left. */
  datatype WeeklyView = WeeklyView(width: real, limitReached: bool, unit: string)

  function WeeklyUsageView(usedThisWeek: int, weeklyLimit: int, sessionsLeftThisWeek: int): (v: WeeklyView)
    ensures v.width <= 100.0
    ensures weeklyLimit <= 0 ==> v.width == 0.0
    ensures weeklyLimit > 0 && usedThisWeek <= weeklyLimit ==> v.width * (weeklyLimit as real) == (usedThisWeek as real) * 100.0
    ensures v.limitReached <==> sessionsLeftThisWeek <= 0
    ensures v.unit == "جلسة" <==> sessionsLeftThisWeek == 1
  {
    var p := if weeklyLimit > 0 then (usedThisWeek as real) / (weeklyLimit as real) * 100.0 else 0.0;
    WeeklyView(if p < 100.0 then p else 100.0, sessionsLeftThisWeek <= 0,
               if sessionsLeftThisWeek == 1 then "جلسة" else "جلسات")
  }

  /** The weekly card's bar and the dashboard's bar agree. */
  lemma WeeklyBarsAgree(used: int, limit: int, left: int)
    ensures WeeklyUsageView(used, limit, left).width == ProgressPercentage(used, limit)
  {
  }
}
