/** The review schedule derived from a purchase date, and the display
    status of a single review. */
module DateUtils {
  import opened Types

  /** Days from the purchase to the first review. */
  const FirstGap: int := 90
  /** Days from one review to the next, for the second and third reviews. */
  const LaterGap: int := 180

  const FirstLabel: string := "1\U{AA} Revis\U{E3}o"
  const SecondLabel: string := "2\U{AA} Revis\U{E3}o"
  const ThirdLabel: string := "3\U{AA} Revis\U{E3}o"

  /** A review as generated: not completed, with no observation,
      responsible or km recorded. */
  predicate IsPending(r: Review) {
    !r.isCompleted && r.observation.None? && r.responsible.None? && r.km.None?
  }

  /** A review schedule read as a chain: each review falls
      `daysFromPrevious` days after the previous one, the first one after
      the purchase date. */
  predicate IsChained(purchase: Date, rs: seq<Review>) {
    && |rs| > 0
    && rs[0].scheduledDate == purchase + rs[0].daysFromPrevious
    && forall i :: 0 < i < |rs| ==> rs[i].scheduledDate == rs[i - 1].scheduledDate + rs[i].daysFromPrevious
  }

  /** The three reviews of a vehicle bought on `purchase`. */
  function CalculateReviews(purchase: Date): (rs: seq<Review>)
    ensures |rs| == 3
    ensures forall i :: 0 <= i < |rs| ==> rs[i].id == i + 1 && IsPending(rs[i])
    ensures rs[0].title == FirstLabel && rs[1].title == SecondLabel && rs[2].title == ThirdLabel
    ensures rs[0].daysFromPrevious == FirstGap
    ensures rs[1].daysFromPrevious == LaterGap && rs[2].daysFromPrevious == LaterGap
    ensures IsChained(purchase, rs)
    ensures rs[0].scheduledDate == purchase + 90
    ensures rs[1].scheduledDate == purchase + 270
    ensures rs[2].scheduledDate == purchase + 450
    ensures forall i, j :: 0 <= i < j < |rs| ==> rs[i].scheduledDate < rs[j].scheduledDate
  {
    var d1 := purchase + FirstGap;
    var d2 := d1 + LaterGap;
    var d3 := d2 + LaterGap;
    [ Review(1, FirstLabel, d1, false, FirstGap, None, None, None),
      Review(2, SecondLabel, d2, false, LaterGap, None, None, None),
      Review(3, ThirdLabel, d3, false, LaterGap, None, None, None) ]
  }

  /** The purchase date a schedule was derived from, read off its first review. */
  function PurchaseDateOf(rs: seq<Review>): Date
    requires |rs| > 0
  {
    rs[0].scheduledDate - rs[0].daysFromPrevious
  }

  /** The schedule remembers the purchase date it was derived from. */
  lemma ScheduleRecoversPurchaseDate(purchase: Date)
    ensures PurchaseDateOf(CalculateReviews(purchase)) == purchase
  {
  }

  /** Distinct purchase dates never share a schedule. */
  lemma ScheduleInjective(p: Date, q: Date)
    ensures CalculateReviews(p) == CalculateReviews(q) <==> p == q
  {
    if CalculateReviews(p) == CalculateReviews(q) {
      ScheduleRecoversPurchaseDate(p);
      ScheduleRecoversPurchaseDate(q);
    }
  }

  /** Any three pending reviews numbered 1, 2, 3 with the labels
      `FirstLabel`, `SecondLabel` and `ThirdLabel`, the gaps and chained
      dates are exactly the generated schedule. */
  lemma ScheduleIsUnique(purchase: Date, rs: seq<Review>)
    requires |rs| == 3
    requires forall i :: 0 <= i < 3 ==> rs[i].id == i + 1 && IsPending(rs[i])
    requires rs[0].title == FirstLabel && rs[1].title == SecondLabel && rs[2].title == ThirdLabel
    requires rs[0].daysFromPrevious == FirstGap
    requires rs[1].daysFromPrevious == LaterGap && rs[2].daysFromPrevious == LaterGap
    requires IsChained(purchase, rs)
    ensures rs == CalculateReviews(purchase)
  {
    var cs := CalculateReviews(purchase);
    assert rs[1].scheduledDate == rs[0].scheduledDate + rs[1].daysFromPrevious;
    assert rs[2].scheduledDate == rs[1].scheduledDate + rs[2].daysFromPrevious;
    forall i | 0 <= i < 3 ensures rs[i] == cs[i] {
      assert IsPending(rs[i]);
    }
  }

  /** How a review is shown: completed, overdue or upcoming. */
  datatype ReviewState = Done | Overdue | Upcoming

  /** The display status of a review scheduled for `scheduled`, on day `now`. */
  function GetStatus(scheduled: Date, isCompleted: bool, now: Date): (s: ReviewState)
    ensures s == Done <==> isCompleted
    ensures s == Overdue <==> !isCompleted && scheduled < now
    ensures s == Upcoming <==> !isCompleted && now <= scheduled
  {
    if isCompleted then Done
    else if scheduled < now then Overdue
    else Upcoming
  }

  /** Once overdue, an incomplete review stays overdue as time passes. */
  lemma OverdueStaysOverdue(scheduled: Date, now: Date, later: Date)
    requires GetStatus(scheduled, false, now) == Overdue
    requires now <= later
    ensures GetStatus(scheduled, false, later) == Overdue
  {
  }

  /** A completed review reads completed whatever the day. */
  lemma DoneIgnoresClock(scheduled: Date, now: Date, other: Date)
    ensures GetStatus(scheduled, true, now) == GetStatus(scheduled, true, other) == Done
  {
  }

  /** Every generated review is upcoming on the purchase day and overdue the
      day after its scheduled date. */
  lemma GeneratedReviewsStartUpcoming(purchase: Date)
    ensures forall r :: r in CalculateReviews(purchase) ==>
      GetStatus(r.scheduledDate, r.isCompleted, purchase) == Upcoming
    ensures forall r, later: Date :: r in CalculateReviews(purchase) && r.scheduledDate < later ==>
      GetStatus(r.scheduledDate, r.isCompleted, later) == Overdue
  {
  }
}
