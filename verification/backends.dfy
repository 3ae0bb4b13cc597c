/** How the pieces meet: the record the form builds, the HTTP API that would
    store it, and the local fallback that stands in for the API. */
module Backends {
  import opened Types
  import Seqs
  import DateUtils
  import App
  import DataService
  import Server

  /** A freshly generated schedule is stored and listed back unchanged. */
  lemma ScheduleRoundTrips(q: Quadricycle)
    requires q.reviews == DateUtils.CalculateReviews(q.purchaseDate)
    ensures Server.RoundTrips(q)
  {
  }

  /** The record the form builds, posted under its new id to a database
      without orphan rows, comes back from the listing exactly as built. */
  lemma FormRecordSurvivesServer(st: App.State, newId: string, db: Server.Db)
    requires App.IsFilled(st.form)
    requires newId !in Server.VehicleIds(db)
    requires Server.NoOrphans(db)
    ensures Server.Get(Server.Post(db, App.HandleAdd(st, newId).quads[0]).db)
         == Server.Get(db) + [App.HandleAdd(st, newId).quads[0]]
  {
    var q := App.HandleAdd(st, newId).quads[0];
    ScheduleRoundTrips(q);
    Server.PostThenGet(db, q);
  }

  /** What the HTTP API reads from a partial update: a missing or false
      `isCompleted` is false, and a missing or unset text is absent. */
  function BodyOf(p: DataService.ReviewPatch): (b: Server.ReviewBody)
    ensures b.isCompleted <==> p.isCompleted == Some(true)
    ensures b.observation.Some? ==> p.observation == Some(b.observation)
    ensures b.responsible.Some? ==> p.responsible == Some(b.responsible)
    ensures b.km.Some? ==> p.km == Some(b.km)
    ensures p.observation.Some? ==> b.observation == p.observation.value
    ensures p.observation.None? ==> b.observation.None?
    ensures p.responsible.Some? ==> b.responsible == p.responsible.value
    ensures p.responsible.None? ==> b.responsible.None?
    ensures p.km.Some? ==> b.km == p.km.value
    ensures p.km.None? ==> b.km.None?
  {
    Server.ReviewBody(
      p.isCompleted == Some(true),
      if p.observation.Some? then p.observation.value else None,
      if p.responsible.Some? then p.responsible.value else None,
      if p.km.Some? then p.km.value else None)
  }

  /** A text field the two backends treat alike: present, and either unset
      or non-empty. */
  predicate IsDefinite(f: Option<Option<string>>) {
    f.Some? && f.value != Some("")
  }

  /** When an update names the completion flag and all three texts, and no
      identity field, the API and the fallback leave the review alike. */
  lemma BackendsAgreeOnFullUpdates(r: Review, n: int, p: DataService.ReviewPatch)
    requires r.id == n
    requires p.id.None? && p.title.None? && p.scheduledDate.None? && p.daysFromPrevious.None?
    requires p.isCompleted.Some?
    requires IsDefinite(p.observation) && IsDefinite(p.responsible) && IsDefinite(p.km)
    ensures Server.ApplyBody(n, BodyOf(p))(r) == DataService.Merge(r, p)
  {
  }

  /** An update that only marks a review done keeps its observation in the
      fallback but clears it through the API. */
  lemma BackendsDisagreeOnPartialUpdates(purchase: Date)
    ensures
      var r := DateUtils.CalculateReviews(purchase)[0].(observation := Some("ok"));
      var p := DataService.EmptyPatch.(isCompleted := Some(true));
      && DataService.Merge(r, p).observation == Some("ok")
      && Server.ApplyBody(1, BodyOf(p))(r).observation == None
  {
  }

  /** Marking review 2 of a vehicle done with a responsible and a km reading
      in the fallback sets exactly those fields of that review. */
  lemma FallbackCompletesSecondReview(q: Quadricycle)
    requires q.reviews == DateUtils.CalculateReviews(q.purchaseDate)
    ensures
      var p := DataService.EmptyPatch.(isCompleted := Some(true), responsible := Some(Some("Ana")), km := Some(Some("3.200 km")));
      var after := DataService.PatchQuads([q], q.id, 2, p)[0].reviews;
      && |after| == 3
      && after[0] == q.reviews[0]
      && after[2] == q.reviews[2]
      && after[1] == q.reviews[1].(isCompleted := true, responsible := Some("Ana"), km := Some("3.200 km"))
  {
  }
}
