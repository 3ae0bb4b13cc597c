/** The local HTTP API: five handlers over two relational tables, one row
    per vehicle and one row per review. Each table is a sequence of rows in
    insertion order. */
module Server {
  import opened Types
  import Seqs

  /** A row of the vehicle table. */
  datatype VehicleRow = VehicleRow(
    id: string,
    model: string,
    purchaseDate: Date,
    clientName: string,
    whatsapp: string,
    status: Option<Status>)

  /** A row of the review table. `isCompleted` is stored as an integer. */
  datatype ReviewRow = ReviewRow(
    quadId: string,
    reviewNumber: int,
    title: string,
    scheduledDate: Date,
    isCompleted: int,
    daysFromPrevious: int,
    observation: Option<string>,
    responsible: Option<string>,
    km: Option<string>)

  datatype Db = Db(vehicles: seq<VehicleRow>, reviews: seq<ReviewRow>)

  /** The HTTP status code and the JSON `status` field of a reply. */
  datatype Reply = Reply(code: int, status: string)

  datatype Response = Response(db: Db, reply: Reply)

  const OkReply: Reply := Reply(200, "ok")
  const CreatedReply: Reply := Reply(201, "ok")

  function VehicleIds(db: Db): set<string> {
    set v | v in db.vehicles :: v.id
  }

  /** Every review row belongs to a vehicle that exists, as the foreign key
      declares. */
  predicate NoOrphans(db: Db) {
    forall r :: r in db.reviews ==> r.quadId in VehicleIds(db)
  }

  // ---- GET /api/quadricycles ------------------------------------------

  function BelongsTo(quadId: string): ReviewRow -> bool {
    (r: ReviewRow) => r.quadId == quadId
  }

  /** The review rows of vehicle `quadId`, in table order. */
  function RowsFor(rows: seq<ReviewRow>, quadId: string): (r: seq<ReviewRow>)
    ensures forall x :: x in r <==> x in rows && x.quadId == quadId
  {
    Seqs.Filter(BelongsTo(quadId), rows)
  }

  predicate SortedByNumber(rs: seq<ReviewRow>) {
    forall j, k :: 0 <= j < k < |rs| ==> rs[j].reviewNumber <= rs[k].reviewNumber
  }

  /** Puts `x` in front of the first row whose number is not smaller. */
  function Insert(x: ReviewRow, rs: seq<ReviewRow>): seq<ReviewRow>
  {
    if rs == [] || x.reviewNumber <= rs[0].reviewNumber then [x] + rs
    else [rs[0]] + Insert(x, rs[1..])
  }

  /** Inserting adds exactly `x` to the rows. */
  lemma {:induction false} InsertAddsRow(x: ReviewRow, rs: seq<ReviewRow>)
    ensures multiset(Insert(x, rs)) == multiset(rs) + multiset{x}
  {
    if rs != [] && rs[0].reviewNumber < x.reviewNumber {
      InsertAddsRow(x, rs[1..]);
      assert rs == [rs[0]] + rs[1..];
    }
  }

  /** A lower bound on the numbers of `x` and of `rs` bounds the result too. */
  lemma {:induction false} InsertKeepsBound(x: ReviewRow, rs: seq<ReviewRow>, lo: int)
    requires lo <= x.reviewNumber
    requires forall k :: 0 <= k < |rs| ==> lo <= rs[k].reviewNumber
    ensures forall k :: 0 <= k < |Insert(x, rs)| ==> lo <= Insert(x, rs)[k].reviewNumber
  {
    if rs != [] && rs[0].reviewNumber < x.reviewNumber {
      InsertKeepsBound(x, rs[1..], lo);
    }
  }

  /** Inserting into ordered rows keeps them ordered. */
  lemma {:induction false} InsertKeepsOrder(x: ReviewRow, rs: seq<ReviewRow>)
    requires SortedByNumber(rs)
    ensures SortedByNumber(Insert(x, rs))
  {
    if rs != [] && rs[0].reviewNumber < x.reviewNumber {
      var head, tail := rs[0], rs[1..];
      InsertKeepsOrder(x, tail);
      InsertKeepsBound(x, tail, head.reviewNumber);
      var rest := Insert(x, tail);
      var r := [head] + rest;
      forall j, k | 0 <= j < k < |r| ensures r[j].reviewNumber <= r[k].reviewNumber {
        assert r[k] == rest[k - 1];
        if j > 0 {
          assert r[j] == rest[j - 1];
        }
      }
    }
  }

  /** The rows ordered by ascending review number; rows with equal numbers
      keep their table order. */
  function SortByNumber(rs: seq<ReviewRow>): (r: seq<ReviewRow>)
    ensures SortedByNumber(r)
    ensures multiset(r) == multiset(rs)
  {
    if rs == [] then []
    else
      var sortedTail := SortByNumber(rs[1..]);
      InsertAddsRow(rs[0], sortedTail);
      InsertKeepsOrder(rs[0], sortedTail);
      assert rs == [rs[0]] + rs[1..];
      Insert(rs[0], sortedTail)
  }

  /** Sorting rows that are already in order leaves them as they are. */
  lemma {:induction false} SortKeepsOrderedRows(rs: seq<ReviewRow>)
    requires SortedByNumber(rs)
    ensures SortByNumber(rs) == rs
  {
    if rs != [] {
      SortKeepsOrderedRows(rs[1..]);
    }
  }

  /** A review row as the client sees it: its number becomes its id and the
      stored integer becomes a boolean. */
  function ToReview(r: ReviewRow): (v: Review)
    ensures v.id == r.reviewNumber
    ensures v.isCompleted <==> r.isCompleted != 0
    ensures v.title == r.title && v.scheduledDate == r.scheduledDate && v.daysFromPrevious == r.daysFromPrevious
    ensures v.observation == r.observation && v.responsible == r.responsible && v.km == r.km
  {
    Review(r.reviewNumber, r.title, r.scheduledDate, r.isCompleted != 0, r.daysFromPrevious,
           r.observation, r.responsible, r.km)
  }

  /** The listing entry of one vehicle row. */
  function Entry(rows: seq<ReviewRow>, v: VehicleRow): (e: Quadricycle)
    ensures e.id == v.id && e.model == v.model && e.purchaseDate == v.purchaseDate
    ensures e.clientName == v.clientName && e.whatsapp == v.whatsapp && e.status == v.status
    ensures forall j, k :: 0 <= j < k < |e.reviews| ==> e.reviews[j].id <= e.reviews[k].id
    ensures multiset(e.reviews) == multiset(Seqs.Map(ToReview, RowsFor(rows, v.id)))
  {
    var sorted := SortByNumber(RowsFor(rows, v.id));
    Seqs.MapPermutation(ToReview, sorted, RowsFor(rows, v.id));
    Quadricycle(v.id, v.model, v.purchaseDate, v.clientName, v.whatsapp,
                Seqs.Map(ToReview, sorted), v.status)
  }

  function EntryIn(rows: seq<ReviewRow>): VehicleRow -> Quadricycle {
    (v: VehicleRow) => Entry(rows, v)
  }

  /** GET: every vehicle with its reviews. */
  function Get(db: Db): (es: seq<Quadricycle>)
    ensures |es| == |db.vehicles|
    ensures forall i :: 0 <= i < |es| ==> es[i] == Entry(db.reviews, db.vehicles[i])
  {
    Seqs.Map(EntryIn(db.reviews), db.vehicles)
  }

  // ---- POST /api/quadricycles -----------------------------------------

  /** The review row stored for review `r` of vehicle `quadId`; the
      observation, responsible and km columns are left unset. */
  function StoredRow(quadId: string, r: Review): (row: ReviewRow)
    ensures row.quadId == quadId && row.reviewNumber == r.id
    ensures row.isCompleted == (if r.isCompleted then 1 else 0)
    ensures row.observation.None? && row.responsible.None? && row.km.None?
    ensures row.title == r.title && row.scheduledDate == r.scheduledDate && row.daysFromPrevious == r.daysFromPrevious
  {
    ReviewRow(quadId, r.id, r.title, r.scheduledDate, if r.isCompleted then 1 else 0,
              r.daysFromPrevious, None, None, None)
  }

  function StoredIn(quadId: string): Review -> ReviewRow {
    (r: Review) => StoredRow(quadId, r)
  }

  function VehicleOf(q: Quadricycle): VehicleRow {
    VehicleRow(q.id, q.model, q.purchaseDate, q.clientName, q.whatsapp, q.status)
  }

  /** POST: inserts the vehicle row, then one review row per review. The
      vehicle id must be new (the table's primary key). */
  function Post(db: Db, q: Quadricycle): (r: Response)
    requires q.id !in VehicleIds(db)
    ensures r.reply == CreatedReply
    ensures r.db.vehicles == db.vehicles + [VehicleOf(q)]
    ensures |r.db.reviews| == |db.reviews| + |q.reviews|
    ensures r.db.reviews[..|db.reviews|] == db.reviews
    ensures forall k :: 0 <= k < |q.reviews| ==> r.db.reviews[|db.reviews| + k] == StoredRow(q.id, q.reviews[k])
  {
    var added := Seqs.Map(StoredIn(q.id), q.reviews);
    Response(Db(db.vehicles + [VehicleOf(q)], db.reviews + added), CreatedReply)
  }

  /** Posting a new vehicle keeps every review row attached to a vehicle. */
  lemma PostKeepsNoOrphans(db: Db, q: Quadricycle)
    requires NoOrphans(db)
    requires q.id !in VehicleIds(db)
    ensures NoOrphans(Post(db, q).db)
  {
    var db' := Post(db, q).db;
    assert VehicleOf(q) in db'.vehicles;
    forall r | r in db'.reviews ensures r.quadId in VehicleIds(db') {
      var k :| 0 <= k < |db'.reviews| && db'.reviews[k] == r;
      if k < |db.reviews| {
        assert r in db.reviews;
        var v :| v in db.vehicles && v.id == r.quadId;
        assert v in db'.vehicles;
      }
    }
  }

  /** A vehicle the listing gives back unchanged: its reviews are in
      number order and carry no observation, responsible or km. */
  predicate RoundTrips(q: Quadricycle) {
    && (forall j, k :: 0 <= j < k < |q.reviews| ==> q.reviews[j].id <= q.reviews[k].id)
    && forall j :: 0 <= j < |q.reviews| ==>
      q.reviews[j].observation.None? && q.reviews[j].responsible.None? && q.reviews[j].km.None?
  }

  lemma StoredRowsComeBack(q: Quadricycle)
    requires RoundTrips(q)
    ensures SortedByNumber(Seqs.Map(StoredIn(q.id), q.reviews))
    ensures Seqs.Map(ToReview, Seqs.Map(StoredIn(q.id), q.reviews)) == q.reviews
  {
    var added := Seqs.Map(StoredIn(q.id), q.reviews);
    var back := Seqs.Map(ToReview, added);
    forall j | 0 <= j < |q.reviews| ensures back[j] == q.reviews[j] {
      assert added[j] == StoredRow(q.id, q.reviews[j]);
    }
  }

  /** Rows of other vehicles do not show up under `id`. */
  lemma {:induction false} EntryIgnoresOtherRows(rows: seq<ReviewRow>, extra: seq<ReviewRow>, v: VehicleRow)
    requires forall r :: r in extra ==> r.quadId != v.id
    ensures Entry(rows + extra, v) == Entry(rows, v)
  {
    Seqs.FilterConcat(BelongsTo(v.id), rows, extra);
    Seqs.FilterDropsAll(BelongsTo(v.id), extra);
    assert RowsFor(rows + extra, v.id) == RowsFor(rows, v.id);
  }

  /** The posted vehicle's listing entry is the vehicle itself. */
  lemma PostedEntry(db: Db, q: Quadricycle)
    requires NoOrphans(db)
    requires q.id !in VehicleIds(db)
    requires RoundTrips(q)
    ensures Entry(Post(db, q).db.reviews, VehicleOf(q)) == q
  {
    var added := Seqs.Map(StoredIn(q.id), q.reviews);
    assert Post(db, q).db.reviews == db.reviews + added;
    forall r | r in db.reviews ensures !BelongsTo(q.id)(r) {
      assert r.quadId in VehicleIds(db);
    }
    Seqs.FilterConcat(BelongsTo(q.id), db.reviews, added);
    Seqs.FilterDropsAll(BelongsTo(q.id), db.reviews);
    Seqs.FilterKeepsAll(BelongsTo(q.id), added);
    assert RowsFor(db.reviews + added, q.id) == added;
    StoredRowsComeBack(q);
    SortKeepsOrderedRows(added);
  }

  /** Posting leaves the entries of the vehicles already there alone. */
  lemma PostKeepsOtherEntries(db: Db, q: Quadricycle, i: int)
    requires q.id !in VehicleIds(db)
    requires 0 <= i < |db.vehicles|
    ensures Entry(Post(db, q).db.reviews, db.vehicles[i]) == Entry(db.reviews, db.vehicles[i])
  {
    var added := Seqs.Map(StoredIn(q.id), q.reviews);
    assert Post(db, q).db.reviews == db.reviews + added;
    assert db.vehicles[i].id in VehicleIds(db);
    EntryIgnoresOtherRows(db.reviews, added, db.vehicles[i]);
  }

  /** A vehicle posted to a database without orphan rows is listed last,
      exactly as it was posted, and the entries before it do not change. */
  lemma PostThenGet(db: Db, q: Quadricycle)
    requires NoOrphans(db)
    requires q.id !in VehicleIds(db)
    requires RoundTrips(q)
    ensures Get(Post(db, q).db) == Get(db) + [q]
  {
    var db' := Post(db, q).db;
    var entry := EntryIn(db'.reviews);
    assert Seqs.Map(entry, db.vehicles) == Get(db) by {
      forall i | 0 <= i < |db.vehicles| ensures entry(db.vehicles[i]) == Get(db)[i] {
        PostKeepsOtherEntries(db, q, i);
      }
    }
    assert Seqs.Map(entry, [VehicleOf(q)]) == [q] by {
      PostedEntry(db, q);
    }
    Seqs.MapConcat(entry, db.vehicles, [VehicleOf(q)]);
  }

  // ---- PUT /api/quadricycles/:id --------------------------------------

  /** PUT on a vehicle: sets the status column of the rows with that id. */
  function PutStatus(db: Db, id: string, status: Option<Status>): (r: Response)
    ensures r.reply == OkReply
    ensures r.db.reviews == db.reviews
    ensures |r.db.vehicles| == |db.vehicles|
    ensures forall i :: 0 <= i < |db.vehicles| ==>
      r.db.vehicles[i] == if db.vehicles[i].id == id then db.vehicles[i].(status := status) else db.vehicles[i]
  {
    var vs := Seqs.Map((v: VehicleRow) => if v.id == id then v.(status := status) else v, db.vehicles);
    Response(Db(vs, db.reviews), OkReply)
  }

  /** A status change keeps every vehicle id, so it creates no orphan rows. */
  lemma PutStatusKeepsNoOrphans(db: Db, id: string, status: Option<Status>)
    requires NoOrphans(db)
    ensures NoOrphans(PutStatus(db, id, status).db)
  {
    var db' := PutStatus(db, id, status).db;
    forall r | r in db'.reviews ensures r.quadId in VehicleIds(db') {
      var v :| v in db.vehicles && v.id == r.quadId;
      var i :| 0 <= i < |db.vehicles| && db.vehicles[i] == v;
      assert db'.vehicles[i].id == v.id;
    }
  }

  /** After a status change the listing differs only in that vehicle's status. */
  lemma GetAfterPutStatus(db: Db, id: string, status: Option<Status>)
    ensures |Get(PutStatus(db, id, status).db)| == |Get(db)|
    ensures forall i :: 0 <= i < |Get(db)| ==>
      Get(PutStatus(db, id, status).db)[i] ==
        if Get(db)[i].id == id then Get(db)[i].(status := status) else Get(db)[i]
  {
  }

  // ---- DELETE /api/quadricycles/:id -----------------------------------

  function NotBelongsTo(quadId: string): ReviewRow -> bool {
    (r: ReviewRow) => r.quadId != quadId
  }

  function IsNot(id: string): VehicleRow -> bool {
    (v: VehicleRow) => v.id != id
  }

  function EntryIsNot(id: string): Quadricycle -> bool {
    (e: Quadricycle) => e.id != id
  }

  /** DELETE: removes the vehicle row; `cascade` says whether the declared
      cascade removes its review rows too. */
  function Delete(db: Db, id: string, cascade: bool): (r: Response)
    ensures r.reply == OkReply
    ensures forall v :: v in r.db.vehicles <==> v in db.vehicles && v.id != id
    ensures cascade ==> forall x :: x in r.db.reviews <==> x in db.reviews && x.quadId != id
    ensures !cascade ==> r.db.reviews == db.reviews
  {
    var rows := if cascade then Seqs.Filter(NotBelongsTo(id), db.reviews) else db.reviews;
    Response(Db(Seqs.Filter(IsNot(id), db.vehicles), rows), OkReply)
  }

  /** With the cascade, deleting keeps every review row attached to a vehicle. */
  lemma DeleteKeepsNoOrphans(db: Db, id: string)
    requires NoOrphans(db)
    ensures NoOrphans(Delete(db, id, true).db)
  {
    var db' := Delete(db, id, true).db;
    forall r | r in db'.reviews ensures r.quadId in VehicleIds(db') {
      var v :| v in db.vehicles && v.id == r.quadId;
      assert v in db'.vehicles;
    }
  }

  lemma {:induction false} ListingWithout(rows: seq<ReviewRow>, rows': seq<ReviewRow>, vs: seq<VehicleRow>, id: string)
    requires forall v :: v in vs && v.id != id ==> Entry(rows', v) == Entry(rows, v)
    ensures Seqs.Map(EntryIn(rows'), Seqs.Filter(IsNot(id), vs))
         == Seqs.Filter(EntryIsNot(id), Seqs.Map(EntryIn(rows), vs))
  {
    if vs != [] {
      var v, t := vs[0], vs[1..];
      assert forall w :: w in t ==> w in vs;
      ListingWithout(rows, rows', t, id);
      var es := Seqs.Map(EntryIn(rows), vs);
      assert es == [Entry(rows, v)] + Seqs.Map(EntryIn(rows), t);
      assert es[1..] == Seqs.Map(EntryIn(rows), t);
      if v.id != id {
        assert Seqs.Filter(IsNot(id), vs) == [v] + Seqs.Filter(IsNot(id), t);
        Seqs.MapConcat(EntryIn(rows'), [v], Seqs.Filter(IsNot(id), t));
        assert [v][1..] == [];
      } else {
        assert Seqs.Filter(IsNot(id), vs) == Seqs.Filter(IsNot(id), t);
      }
    }
  }

  /** After a delete the listing is the old listing without that vehicle,
      whether or not the cascade removed its review rows. */
  lemma GetAfterDelete(db: Db, id: string, cascade: bool)
    ensures Get(Delete(db, id, cascade).db) == Seqs.Filter(EntryIsNot(id), Get(db))
    ensures forall e :: e in Get(Delete(db, id, cascade).db) ==> e.id != id
  {
    var db' := Delete(db, id, cascade).db;
    forall v | v in db.vehicles && v.id != id
      ensures Entry(db'.reviews, v) == Entry(db.reviews, v)
    {
      if cascade {
        Seqs.FilterNarrower(NotBelongsTo(id), BelongsTo(v.id), db.reviews);
      }
    }
    ListingWithout(db.reviews, db'.reviews, db.vehicles, id);
  }

  // ---- PUT /api/quadricycles/:quadId/reviews/:reviewNumber ------------

  /** The fields of a review update request; absent fields are None and an
      absent `isCompleted` reads as false. */
  datatype ReviewBody = ReviewBody(
    isCompleted: bool,
    observation: Option<string>,
    responsible: Option<string>,
    km: Option<string>)

  /** An absent or empty text is stored as NULL. */
  function NullIfEmpty(s: Option<string>): (r: Option<string>)
    ensures r.None? <==> s.None? || s == Some("")
    ensures r.Some? ==> r == s
  {
    if s.None? || s.value == "" then None else s
  }

  /** A review row with its four writable columns overwritten. */
  function Overwrite(r: ReviewRow, b: ReviewBody): ReviewRow {
    r.(isCompleted := if b.isCompleted then 1 else 0,
       observation := NullIfEmpty(b.observation),
       responsible := NullIfEmpty(b.responsible),
       km := NullIfEmpty(b.km))
  }

  function OverwriteAt(quadId: string, n: int, b: ReviewBody): ReviewRow -> ReviewRow {
    (r: ReviewRow) => if r.quadId == quadId && r.reviewNumber == n then Overwrite(r, b) else r
  }

  /** PUT on a review: overwrites all four writable columns of every row of
      vehicle `quadId` numbered `n`. */
  function PutReview(db: Db, quadId: string, n: int, b: ReviewBody): (r: Response)
    ensures r.reply == OkReply
    ensures r.db.vehicles == db.vehicles
    ensures |r.db.reviews| == |db.reviews|
    ensures forall k :: 0 <= k < |db.reviews| && (db.reviews[k].quadId != quadId || db.reviews[k].reviewNumber != n) ==>
      r.db.reviews[k] == db.reviews[k]
    ensures forall k :: 0 <= k < |db.reviews| && db.reviews[k].quadId == quadId && db.reviews[k].reviewNumber == n ==>
      && r.db.reviews[k].quadId == quadId && r.db.reviews[k].reviewNumber == n
      && r.db.reviews[k].title == db.reviews[k].title
      && r.db.reviews[k].scheduledDate == db.reviews[k].scheduledDate
      && r.db.reviews[k].daysFromPrevious == db.reviews[k].daysFromPrevious
      && (r.db.reviews[k].isCompleted == 1 <==> b.isCompleted)
      && (r.db.reviews[k].isCompleted == 0 <==> !b.isCompleted)
      && r.db.reviews[k].observation == NullIfEmpty(b.observation)
      && r.db.reviews[k].responsible == NullIfEmpty(b.responsible)
      && r.db.reviews[k].km == NullIfEmpty(b.km)
  {
    Response(Db(db.vehicles, Seqs.Map(OverwriteAt(quadId, n, b), db.reviews)), OkReply)
  }

  /** A review update keeps the vehicles and every row's vehicle id, so it
      creates no orphan rows. */
  lemma PutReviewKeepsNoOrphans(db: Db, quadId: string, n: int, b: ReviewBody)
    requires NoOrphans(db)
    ensures NoOrphans(PutReview(db, quadId, n, b).db)
  {
    var db' := PutReview(db, quadId, n, b).db;
    forall r | r in db'.reviews ensures r.quadId in VehicleIds(db') {
      var k :| 0 <= k < |db'.reviews| && db'.reviews[k] == r;
      assert db.reviews[k] in db.reviews;
      assert r.quadId == db.reviews[k].quadId;
    }
  }

  /** Repeating a review update changes nothing further. */
  lemma PutReviewIdempotent(db: Db, quadId: string, n: int, b: ReviewBody)
    ensures PutReview(PutReview(db, quadId, n, b).db, quadId, n, b) == PutReview(db, quadId, n, b)
  {
  }

  /** The effect of a review update on the review as the client sees it. */
  function ApplyBody(n: int, b: ReviewBody): Review -> Review {
    (r: Review) =>
      if r.id == n then
        r.(isCompleted := b.isCompleted,
           observation := NullIfEmpty(b.observation),
           responsible := NullIfEmpty(b.responsible),
           km := NullIfEmpty(b.km))
      else r
  }

  lemma {:induction false} InsertCommutes(g: ReviewRow -> ReviewRow, x: ReviewRow, rs: seq<ReviewRow>)
    requires forall y :: g(y).reviewNumber == y.reviewNumber
    ensures Insert(g(x), Seqs.Map(g, rs)) == Seqs.Map(g, Insert(x, rs))
  {
    if rs != [] && rs[0].reviewNumber < x.reviewNumber {
      InsertCommutes(g, x, rs[1..]);
      assert Seqs.Map(g, rs)[1..] == Seqs.Map(g, rs[1..]);
      Seqs.MapConcat(g, [rs[0]], Insert(x, rs[1..]));
      assert [rs[0]][1..] == [];
    } else {
      Seqs.MapConcat(g, [x], rs);
      assert [x][1..] == [];
    }
  }

  /** Sorting commutes with a rewrite that keeps review numbers. */
  lemma {:induction false} SortCommutes(g: ReviewRow -> ReviewRow, rs: seq<ReviewRow>)
    requires forall y :: g(y).reviewNumber == y.reviewNumber
    ensures SortByNumber(Seqs.Map(g, rs)) == Seqs.Map(g, SortByNumber(rs))
  {
    if rs != [] {
      SortCommutes(g, rs[1..]);
      assert Seqs.Map(g, rs)[1..] == Seqs.Map(g, rs[1..]);
      InsertCommutes(g, rs[0], SortByNumber(rs[1..]));
    }
  }

  /** A review update touches no entry but that of vehicle `quadId`. */
  lemma PutReviewOtherEntry(db: Db, quadId: string, n: int, b: ReviewBody, v: VehicleRow)
    requires v.id != quadId
    ensures Entry(PutReview(db, quadId, n, b).db.reviews, v) == Entry(db.reviews, v)
  {
    var g := OverwriteAt(quadId, n, b);
    Seqs.MapFilterCommute(g, BelongsTo(v.id), db.reviews);
    var f := RowsFor(db.reviews, v.id);
    assert Seqs.Map(g, f) == f by {
      forall k | 0 <= k < |f| ensures g(f[k]) == f[k] {
        assert f[k] in f;
      }
    }
  }

  /** For a row of vehicle `quadId`, overwriting the row and then reading it
      is reading it and then applying the update. */
  lemma RowUpdateSeen(x: ReviewRow, quadId: string, n: int, b: ReviewBody)
    requires x.quadId == quadId
    ensures ToReview(OverwriteAt(quadId, n, b)(x)) == ApplyBody(n, b)(ToReview(x))
  {
  }

  lemma RowsUpdateSeen(rs: seq<ReviewRow>, quadId: string, n: int, b: ReviewBody)
    requires forall x :: x in rs ==> x.quadId == quadId
    ensures Seqs.Map(ToReview, Seqs.Map(OverwriteAt(quadId, n, b), rs))
         == Seqs.Map(ApplyBody(n, b), Seqs.Map(ToReview, rs))
  {
    var lhs := Seqs.Map(ToReview, Seqs.Map(OverwriteAt(quadId, n, b), rs));
    var rhs := Seqs.Map(ApplyBody(n, b), Seqs.Map(ToReview, rs));
    forall k | 0 <= k < |rs| ensures lhs[k] == rhs[k] {
      assert rs[k] in rs;
      RowUpdateSeen(rs[k], quadId, n, b);
    }
  }

  /** Inside the entry of vehicle `quadId`, a review update applies
      `ApplyBody` to the review numbered `n` and nothing else. */
  lemma PutReviewOwnEntry(db: Db, quadId: string, n: int, b: ReviewBody, v: VehicleRow)
    requires v.id == quadId
    ensures Entry(PutReview(db, quadId, n, b).db.reviews, v)
         == Entry(db.reviews, v).(reviews := Seqs.Map(ApplyBody(n, b), Entry(db.reviews, v).reviews))
  {
    var g := OverwriteAt(quadId, n, b);
    Seqs.MapFilterCommute(g, BelongsTo(v.id), db.reviews);
    var f := RowsFor(db.reviews, v.id);
    SortCommutes(g, f);
    var sorted := SortByNumber(f);
    forall x | x in sorted ensures x.quadId == quadId {
      assert x in multiset(f);
    }
    RowsUpdateSeen(sorted, quadId, n, b);
  }

  /** After a review update the listing differs only in the reviews numbered
      `n` of vehicle `quadId`, each overwritten as the request says. */
  lemma GetAfterPutReview(db: Db, quadId: string, n: int, b: ReviewBody)
    ensures |Get(PutReview(db, quadId, n, b).db)| == |Get(db)|
    ensures forall i :: 0 <= i < |Get(db)| ==>
      Get(PutReview(db, quadId, n, b).db)[i] ==
        if Get(db)[i].id == quadId then Get(db)[i].(reviews := Seqs.Map(ApplyBody(n, b), Get(db)[i].reviews))
        else Get(db)[i]
  {
    forall i | 0 <= i < |db.vehicles|
      ensures Get(PutReview(db, quadId, n, b).db)[i] ==
        if Get(db)[i].id == quadId then Get(db)[i].(reviews := Seqs.Map(ApplyBody(n, b), Get(db)[i].reviews))
        else Get(db)[i]
    {
      if db.vehicles[i].id == quadId {
        PutReviewOwnEntry(db, quadId, n, b, db.vehicles[i]);
      } else {
        PutReviewOtherEntry(db, quadId, n, b, db.vehicles[i]);
      }
    }
  }
}
