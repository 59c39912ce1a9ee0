/** The deadline label, urgency flag and status badge of
    components/gonggu-card.tsx. Times are integer milliseconds. */
module GongguCard {
  import opened Nullable
  import opened Posts
  import JsText

  /** Milliseconds in a day, `1000 * 60 * 60 * 24`. */
  const DayMs: int := 1000 * 60 * 60 * 24

  /** `Math.ceil(a / b)` for a positive divisor, in exact integer arithmetic. */
  function CeilDiv(a: int, b: int): (q: int)
    requires b > 0
    ensures (q - 1) * b < a <= q * b
  {
    -((-a) / b)
  }

  lemma CeilDivUnique(a: int, b: int, q: int)
    requires b > 0
    requires (q - 1) * b < a <= q * b
    ensures q == CeilDiv(a, b)
  {
  }

  /** `Math.ceil(diffTime / day)`: the deadline's distance in started days. */
  function DiffDays(deadline: int, now: int): int {
    CeilDiv(deadline - now, DayMs)
  }

  const Ended: string := "마감"
  const EndsToday: string := "오늘 마감"
  const EndsTomorrow: string := "내일 마감"

  /** `formatDeadline`: no deadline gives the empty label; otherwise the
      label follows the number of started days left. */
  function FormatDeadline(deadline: Option<int>, now: int): (r: string)
    ensures deadline.None? ==> r == ""
    ensures deadline.Some? ==>
              var d := deadline.value - now;
              && (r == Ended <==> d <= -DayMs)
              && (r == EndsToday <==> -DayMs < d <= 0)
              && (r == EndsTomorrow <==> 0 < d <= DayMs)
              && (DayMs < d ==> r == "D-" + JsText.Decimal(DiffDays(deadline.value, now)) && DiffDays(deadline.value, now) >= 2)
  {
    match deadline
    case None => ""
    case Some(t) =>
      var n := DiffDays(t, now);
      if n < 0 then Ended
      else if n == 0 then EndsToday
      else if n == 1 then EndsTomorrow
      else
        var r := "D-" + JsText.Decimal(n);
        assert r[0] == 'D';
        r
  }

  /** Every deadline gets a non-empty label. */
  lemma DeadlineAlwaysLabelled(deadline: int, now: int)
    ensures FormatDeadline(Some(deadline), now) != ""
  {
  }

  /** The label of a deadline `n >= 2` started days ahead is `D-n`. */
  lemma DaysLeftLabel(deadline: int, now: int, n: int)
    requires n >= 2
    requires (n - 1) * DayMs < deadline - now <= n * DayMs
    ensures FormatDeadline(Some(deadline), now) == "D-" + JsText.Decimal(n)
  {
    CeilDivUnique(deadline - now, DayMs, n);
  }

  /** `isUrgent`: a deadline less than three days away, past ones included. */
  function IsUrgent(deadline: Option<int>, now: int): (r: bool)
    ensures r ==> deadline.Some?
    ensures deadline.Some? && deadline.value <= now ==> r
  {
    deadline.Some? && deadline.value - now < 3 * DayMs
  }

  /** Urgency stops exactly three days ahead: one millisecond short of three
      days is urgent, three days exactly is not. */
  lemma UrgencyBoundary(now: int)
    ensures IsUrgent(Some(now + 3 * DayMs - 1), now)
    ensures !IsUrgent(Some(now + 3 * DayMs), now)
  {
  }

  /** An earlier deadline is at least as urgent as a later one. */
  lemma UrgencyMonotone(d1: int, d2: int, now: int)
    requires d1 <= d2
    ensures IsUrgent(Some(d2), now) ==> IsUrgent(Some(d1), now)
    ensures !IsUrgent(Some(d1), now) ==> !IsUrgent(Some(d2), now)
  {
  }

  /** The `D-3` label is urgent exactly in the part of the third day that lies
      before the three-day mark, which is all of it but its last instant. */
  lemma UrgencyOnThirdDay(deadline: int, now: int)
    requires DiffDays(deadline, now) == 3
    ensures IsUrgent(Some(deadline), now) <==> deadline != now + 3 * DayMs
  {
  }

  /** Urgency against the label: the three word labels are always urgent,
      `D-2` always is, `D-3` may be, and later days never are. */
  lemma UrgencyByLabel(deadline: int, now: int)
    ensures var text := FormatDeadline(Some(deadline), now);
            text in {Ended, EndsToday, EndsTomorrow} ==> IsUrgent(Some(deadline), now)
    ensures DiffDays(deadline, now) == 2 ==> IsUrgent(Some(deadline), now)
    ensures DiffDays(deadline, now) >= 4 ==> !IsUrgent(Some(deadline), now)
    ensures IsUrgent(Some(deadline), now) ==> DiffDays(deadline, now) <= 3
  {
  }

  /** The card reads the clock twice: once for the label and again, no
      earlier, for the urgency flag. A word label or `D-2` on the first
      reading is still urgent on the second. */
  lemma UrgencyAcrossReadings(deadline: int, labelNow: int, urgencyNow: int)
    requires labelNow <= urgencyNow
    ensures var text := FormatDeadline(Some(deadline), labelNow);
            text in {Ended, EndsToday, EndsTomorrow} ==> IsUrgent(Some(deadline), urgencyNow)
    ensures DiffDays(deadline, labelNow) == 2 ==> IsUrgent(Some(deadline), urgencyNow)
  {
  }

  /** Between the two readings the clock may tick past the four-day mark: a
      deadline one millisecond past three days is labelled `D-4` at 0 and is
      urgent at 2. */
  lemma TickShowsUrgentD4()
    ensures DiffDays(3 * DayMs + 1, 0) == 4
    ensures FormatDeadline(Some(3 * DayMs + 1), 0) == "D-" + JsText.Decimal(4)
    ensures IsUrgent(Some(3 * DayMs + 1), 2)
  {
    CeilDivUnique(3 * DayMs + 1, DayMs, 4);
  }

  /** The badge next to the title. */
  datatype CardBadge = DeadlineBadge(text: string, urgent: bool) | ClosedBadge | NoBadge

  function StatusBadge(post: Post, now: int): (b: CardBadge)
    ensures b.DeadlineBadge? ==> b.text == FormatDeadline(post.deadline, now) && b.urgent == IsUrgent(post.deadline, now)
  {
    var text := FormatDeadline(post.deadline, now);
    if post.status == Open && text != "" then DeadlineBadge(text, IsUrgent(post.deadline, now))
    else if post.status == Closed then ClosedBadge
    else NoBadge
  }

  /** The deadline badge shows exactly for open posts that have a deadline;
      closed posts show the closed badge; upcoming posts show none. */
  lemma StatusBadgeChoice(post: Post, now: int)
    ensures StatusBadge(post, now).DeadlineBadge? <==> post.status == Open && post.deadline.Some?
    ensures StatusBadge(post, now).ClosedBadge? <==> post.status == Closed
    ensures post.status == Upcoming ==> StatusBadge(post, now) == NoBadge
  {
  }
}
