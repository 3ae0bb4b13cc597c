/** The persistence facade's local fallback. Every operation first tries the
    HTTP API; when that call fails it rewrites a browser-local mirror of the
    vehicle list and still reports success. The API call's outcome is an
    input, and the mirror is the state. */
module DataService {
  import opened Types
  import Seqs

  /** The mirror under its storage key; None when the key was never written. */
  type Mirror = Option<seq<Quadricycle>>

  /** What a listing returns, and the mirror it leaves behind. */
  datatype Listing = Listing(quads: seq<Quadricycle>, mirror: Mirror)

  /** What a write returns, and the mirror it leaves behind. */
  datatype Outcome = Outcome(ok: bool, mirror: Mirror)

  /** The list held by the mirror, empty when nothing was ever saved. */
  function Saved(m: Mirror): (qs: seq<Quadricycle>)
    ensures m.None? ==> qs == []
    ensures m.Some? ==> qs == m.value
  {
    match m
    case None => []
    case Some(qs) => qs
  }

  /** Lists every vehicle. `fetched` is the API's answer (None when the call
      throws or the response is not ok). */
  function GetAll(fetched: Option<seq<Quadricycle>>, m: Mirror): (l: Listing)
    ensures fetched.Some? ==> l.quads == fetched.value && l.mirror == fetched
    ensures fetched.None? ==> l.quads == Saved(m) && l.mirror == m
  {
    match fetched
    case Some(data) => Listing(data, Some(data))
    case None => Listing(Saved(m), m)
  }

  /** The mirror caches the last successful listing: a later listing that
      cannot reach the API returns the same vehicles. */
  lemma LastGoodListingSurvivesOutage(data: seq<Quadricycle>, m: Mirror)
    ensures GetAll(None, GetAll(Some(data), m).mirror).quads == data
  {
  }

  /** Stores a new vehicle. `posted` says whether the API accepted it;
      `listing` is the API's answer to the listing the fallback performs. */
  function Save(quad: Quadricycle, posted: bool, listing: Option<seq<Quadricycle>>, m: Mirror): (o: Outcome)
    ensures o.ok
    ensures posted ==> o.mirror == m
    ensures !posted ==> o.mirror.Some? && |o.mirror.value| == |GetAll(listing, m).quads| + 1
    ensures !posted ==> o.mirror.value[0] == quad && o.mirror.value[1..] == GetAll(listing, m).quads
  {
    if posted then Outcome(true, m)
    else
      var current := GetAll(listing, m).quads;
      Outcome(true, Some([quad] + current))
  }

  /** The vehicle list with every vehicle whose id is `id` set to `status`. */
  function SetStatus(qs: seq<Quadricycle>, id: string, status: Status): (r: seq<Quadricycle>)
    ensures |r| == |qs|
    ensures forall i :: 0 <= i < |qs| ==> r[i] == qs[i].(status := r[i].status)
    ensures forall i :: 0 <= i < |qs| ==>
      r[i].status == if qs[i].id == id then Some(status) else qs[i].status
  {
    Seqs.Map((q: Quadricycle) => if q.id == id then q.(status := Some(status)) else q, qs)
  }

  /** Setting the status of an id nobody has changes nothing. */
  lemma SetStatusUnknownId(qs: seq<Quadricycle>, id: string, status: Status)
    requires forall q :: q in qs ==> q.id != id
    ensures SetStatus(qs, id, status) == qs
  {
    var r := SetStatus(qs, id, status);
    forall i | 0 <= i < |qs| ensures r[i] == qs[i] {
      assert qs[i] in qs;
    }
  }

  /** Setting the same status twice is setting it once. */
  lemma SetStatusIdempotent(qs: seq<Quadricycle>, id: string, status: Status)
    ensures SetStatus(SetStatus(qs, id, status), id, status) == SetStatus(qs, id, status)
  {
  }

  /** Changes a vehicle's status; `put` says whether the API accepted it. */
  function UpdateStatus(id: string, status: Status, put: bool, listing: Option<seq<Quadricycle>>, m: Mirror): (o: Outcome)
    ensures o.ok
    ensures put ==> o.mirror == m
    ensures !put ==> o.mirror == Some(SetStatus(GetAll(listing, m).quads, id, status))
  {
    if put then Outcome(true, m)
    else Outcome(true, Some(SetStatus(GetAll(listing, m).quads, id, status)))
  }

  /** The vehicle list without the vehicles whose id is `id`. */
  function Without(qs: seq<Quadricycle>, id: string): (r: seq<Quadricycle>)
    ensures forall q :: q in r <==> q in qs && q.id != id
  {
    Seqs.Filter((q: Quadricycle) => q.id != id, qs)
  }

  /** Removal works element by element, so the survivors keep their order. */
  lemma WithoutKeepsOrder(a: seq<Quadricycle>, b: seq<Quadricycle>, id: string)
    ensures Without(a + b, id) == Without(a, id) + Without(b, id)
  {
    Seqs.FilterConcat((q: Quadricycle) => q.id != id, a, b);
  }

  /** Removing twice is removing once. */
  lemma WithoutIdempotent(qs: seq<Quadricycle>, id: string)
    ensures Without(Without(qs, id), id) == Without(qs, id)
  {
    Seqs.FilterIdempotent((q: Quadricycle) => q.id != id, qs);
  }

  /** Removes a vehicle; `deleted` says whether the API accepted it. */
  function Delete(id: string, deleted: bool, listing: Option<seq<Quadricycle>>, m: Mirror): (o: Outcome)
    ensures o.ok
    ensures deleted ==> o.mirror == m
    ensures !deleted ==> o.mirror == Some(Without(GetAll(listing, m).quads, id))
  {
    if deleted then Outcome(true, m)
    else Outcome(true, Some(Without(GetAll(listing, m).quads, id)))
  }

  /** When the API is down for a save and the listing after it, the listing
      shows the new vehicle first, ahead of everything listed before. */
  lemma OfflineSaveListsVehicleFirst(quad: Quadricycle, listing: Option<seq<Quadricycle>>, m: Mirror)
    ensures Save(quad, false, listing, m).ok
    ensures GetAll(None, Save(quad, false, listing, m).mirror).quads == [quad] + GetAll(listing, m).quads
  {
    var after := Save(quad, false, listing, m).mirror.value;
    assert after == [quad] + after[1..];
  }

  /** When the API is down for a delete and the listing after it, the
      delete still succeeds, the vehicle is gone from the listing and every
      other vehicle the delete saw is still there. */
  lemma OfflineDeleteHidesVehicle(id: string, listing: Option<seq<Quadricycle>>, m: Mirror)
    ensures Delete(id, false, listing, m).ok
    ensures forall q :: q in GetAll(None, Delete(id, false, listing, m).mirror).quads ==> q.id != id
    ensures forall q :: q in GetAll(listing, m).quads && q.id != id ==>
      q in GetAll(None, Delete(id, false, listing, m).mirror).quads
  {
  }

  /** The fields a partial review update may carry. Some(v) means the key
      is present with value v; for the optional fields Some(None) means it
      is present but unset, which clears the stored value. */
  datatype ReviewPatch = ReviewPatch(
    id: Option<int>,
    title: Option<string>,
    scheduledDate: Option<Date>,
    isCompleted: Option<bool>,
    daysFromPrevious: Option<int>,
    observation: Option<Option<string>>,
    responsible: Option<Option<string>>,
    km: Option<Option<string>>)

  const EmptyPatch := ReviewPatch(None, None, None, None, None, None, None, None)

  function Pick<T>(patched: Option<T>, kept: T): T {
    match patched
    case Some(v) => v
    case None => kept
  }

  /** A review with the fields present in `p` overwritten. */
  function Merge(r: Review, p: ReviewPatch): (r': Review)
    ensures p.id.Some? ==> r'.id == p.id.value
    ensures p.id.None? ==> r'.id == r.id
    ensures p.title.Some? ==> r'.title == p.title.value
    ensures p.title.None? ==> r'.title == r.title
    ensures p.scheduledDate.Some? ==> r'.scheduledDate == p.scheduledDate.value
    ensures p.scheduledDate.None? ==> r'.scheduledDate == r.scheduledDate
    ensures p.isCompleted.Some? ==> r'.isCompleted == p.isCompleted.value
    ensures p.isCompleted.None? ==> r'.isCompleted == r.isCompleted
    ensures p.daysFromPrevious.Some? ==> r'.daysFromPrevious == p.daysFromPrevious.value
    ensures p.daysFromPrevious.None? ==> r'.daysFromPrevious == r.daysFromPrevious
    ensures p.observation.Some? ==> r'.observation == p.observation.value
    ensures p.observation.None? ==> r'.observation == r.observation
    ensures p.responsible.Some? ==> r'.responsible == p.responsible.value
    ensures p.responsible.None? ==> r'.responsible == r.responsible
    ensures p.km.Some? ==> r'.km == p.km.value
    ensures p.km.None? ==> r'.km == r.km
  {
    Review(
      Pick(p.id, r.id),
      Pick(p.title, r.title),
      Pick(p.scheduledDate, r.scheduledDate),
      Pick(p.isCompleted, r.isCompleted),
      Pick(p.daysFromPrevious, r.daysFromPrevious),
      Pick(p.observation, r.observation),
      Pick(p.responsible, r.responsible),
      Pick(p.km, r.km))
  }

  /** An empty patch changes nothing, and applying a patch twice is applying it once. */
  lemma MergeLaws(r: Review, p: ReviewPatch)
    ensures Merge(r, EmptyPatch) == r
    ensures Merge(Merge(r, p), p) == Merge(r, p)
  {
  }

  /** The reviews with every review numbered `n` patched. */
  function PatchReviews(rs: seq<Review>, n: int, p: ReviewPatch): (r: seq<Review>)
    ensures |r| == |rs|
    ensures forall j :: 0 <= j < |rs| ==> r[j] == if rs[j].id == n then Merge(rs[j], p) else rs[j]
  {
    Seqs.Map((x: Review) => if x.id == n then Merge(x, p) else x, rs)
  }

  /** The vehicle list with review `n` of vehicle `quadId` patched. */
  function PatchQuads(qs: seq<Quadricycle>, quadId: string, n: int, p: ReviewPatch): (r: seq<Quadricycle>)
    ensures |r| == |qs|
    ensures forall i :: 0 <= i < |qs| ==> r[i] == qs[i].(reviews := r[i].reviews)
    ensures forall i :: 0 <= i < |qs| && qs[i].id != quadId ==> r[i] == qs[i]
    ensures forall i :: 0 <= i < |qs| && qs[i].id == quadId ==>
      |r[i].reviews| == |qs[i].reviews|
      && forall j :: 0 <= j < |qs[i].reviews| ==>
        r[i].reviews[j] == if qs[i].reviews[j].id == n then Merge(qs[i].reviews[j], p) else qs[i].reviews[j]
  {
    Seqs.Map((q: Quadricycle) => if q.id == quadId then q.(reviews := PatchReviews(q.reviews, n, p)) else q, qs)
  }

  /** Patching a review twice is patching it once. */
  lemma PatchQuadsIdempotent(qs: seq<Quadricycle>, quadId: string, n: int, p: ReviewPatch)
    ensures PatchQuads(PatchQuads(qs, quadId, n, p), quadId, n, p) == PatchQuads(qs, quadId, n, p)
  {
    var once := PatchQuads(qs, quadId, n, p);
    var twice := PatchQuads(once, quadId, n, p);
    forall i | 0 <= i < |qs| ensures twice[i] == once[i] {
      if qs[i].id == quadId {
        forall j | 0 <= j < |qs[i].reviews| ensures twice[i].reviews[j] == once[i].reviews[j] {
          MergeLaws(qs[i].reviews[j], p);
        }
      }
    }
  }

  /** Applies a partial update to review `n` of vehicle `quadId`; `put` says
      whether the API accepted it. */
  function UpdateReview(quadId: string, n: int, p: ReviewPatch, put: bool, listing: Option<seq<Quadricycle>>, m: Mirror): (o: Outcome)
    ensures o.ok
    ensures put ==> o.mirror == m
    ensures !put ==> o.mirror == Some(PatchQuads(GetAll(listing, m).quads, quadId, n, p))
  {
    if put then Outcome(true, m)
    else Outcome(true, Some(PatchQuads(GetAll(listing, m).quads, quadId, n, p)))
  }
}
