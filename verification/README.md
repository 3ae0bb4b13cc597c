# Quadricycle review tracker: a Dafny model

The tracker records small vehicles ("quadricycles") sold to clients. It derives
three maintenance reviews from each purchase date and lets staff tick reviews
off and contact the client through a WhatsApp deep link. This project models
four pieces of its logic as pure functions over immutable records, and proves
what each one changes and what it leaves alone.

- `types.dfy` (`Types`): the vehicle and review records of `src/types.ts`.
  Dates are day numbers, so adding n days is `+ n`. A review's `label` is
  called `title` because `label` is a Dafny keyword. A vehicle's `status` is
  optional, because the form handler builds records without one.
- `seqs.dfy` (`Seqs`): the element-wise map and the order-keeping filter that
  every layer uses, with their algebra.
- `date_utils.dfy` (`DateUtils`): the three-review schedule and the display
  status of a review. The current day is a parameter.
- `data_service.dfy` (`DataService`): the persistence facade's local fallback.
  Each operation's API outcome is an input. The browser-local mirror is state:
  `None` means the storage key was never written. When the API call fails,
  the fallback first lists the vehicles again, which is a second API call.
  Each operation therefore also takes that listing's outcome.
- `app.dfy` (`App`): the single-page app's in-memory actions. These are adding
  a vehicle from the form, toggling a review, deleting with confirmation, and
  building the contact message and link. The random id, the user's
  confirmation, the date formatter and the URL encoder are parameters.
- `server.dfy` (`Server`): the five `/api/quadricycles` handlers
  over two tables, each a sequence of rows in insertion order. The delete
  handler takes a flag saying whether the declared cascade removes the
  vehicle's review rows, and the listing after a delete is proved either way.
- `backends.dfy` (`Backends`): how these pieces meet. The record the form
  builds survives a trip through the API into a database without orphan
  review rows. The API and the fallback agree on a review update that names
  the completion flag and all three texts, with each text unset or non-empty,
  and that carries no identity field. An empty text is stored as NULL by the
  API but kept by the fallback, and an identity field would be overwritten
  by the fallback but ignored by the API. They disagree on a partial update:
  the API clears the fields the request leaves out, while the fallback keeps
  them.

Only a successful listing refreshes the mirror; a successful write leaves it
alone (src/services/dataService.ts:41-48).

The app component keeps its own list and never calls the persistence facade.
It also uses a different storage key. The two are therefore modelled as
independent state.

## Model

| member | source | states |
|---|---|---|
| DateUtils.CalculateReviews | src/utils/dateUtils.ts:5-35 | exactly three pending reviews numbered 1, 2, 3 with the labels "1ª/2ª/3ª Revisão"; gaps 90, 180, 180; each date is the previous date (the purchase date for the first) plus its gap; dates are purchase + 90, + 270, + 450 and strictly increasing |
| DateUtils.ScheduleRecoversPurchaseDate | src/utils/dateUtils.ts:8-10 | the purchase date can be read back from the first review (its date minus its gap) |
| DateUtils.ScheduleInjective | src/utils/dateUtils.ts:8-10 | two purchase dates give the same schedule if and only if they are equal |
| DateUtils.ScheduleIsUnique | src/utils/dateUtils.ts:12-34 | any three pending reviews with these numbers, labels, gaps and chained dates are exactly the generated schedule |
| DateUtils.GetStatus | src/utils/dateUtils.ts:41-47 | completed exactly when the review is completed, whatever the date; otherwise overdue exactly when the date is before today, and upcoming when it is today or later |
| DateUtils.OverdueStaysOverdue | src/utils/dateUtils.ts:45 | an incomplete review that is overdue stays overdue on every later day |
| DateUtils.DoneIgnoresClock | src/utils/dateUtils.ts:42 | a completed review reads completed on any day |
| DateUtils.GeneratedReviewsStartUpcoming | src/utils/dateUtils.ts:43-46 | every generated review is upcoming on the purchase day, and overdue on every day after its date |
| DataService.Saved | src/services/dataService.ts:30-31 | the mirror's list, or the empty list when nothing was saved |
| DataService.GetAll | src/services/dataService.ts:19-32 | a successful fetch is returned and becomes the mirror; otherwise the saved mirror is returned unchanged |
| DataService.LastGoodListingSurvivesOutage | src/services/dataService.ts:22-31 | after a successful listing, a listing during an outage returns the same vehicles |
| DataService.Save | src/services/dataService.ts:34-49 | always reports success; on fallback the mirror is one longer, holds the new vehicle first and then the listed vehicles unchanged |
| DataService.SetStatus | src/services/dataService.ts:63 | same length; vehicles with the id get the new status, and no other field or vehicle changes |
| DataService.SetStatusUnknownId | src/services/dataService.ts:63 | an id no vehicle has leaves the list unchanged |
| DataService.SetStatusIdempotent | src/services/dataService.ts:63 | setting the same status twice equals setting it once |
| DataService.UpdateStatus | src/services/dataService.ts:51-66 | always reports success; the mirror is untouched when the API accepts, and holds the relabelled listing when it does not |
| DataService.Without | src/services/dataService.ts:78 | a vehicle survives exactly when it was there and has a different id |
| DataService.WithoutKeepsOrder | src/services/dataService.ts:78 | removal distributes over concatenation, so survivors keep their order |
| DataService.WithoutIdempotent | src/services/dataService.ts:78 | removing twice equals removing once |
| DataService.Delete | src/services/dataService.ts:68-81 | always reports success; on fallback the mirror is the listing without that id |
| DataService.OfflineDeleteHidesVehicle | src/services/dataService.ts:77-79 | a delete during an outage reports success; a following offline listing holds no vehicle with that id and every other vehicle the delete listed |
| DataService.OfflineSaveListsVehicleFirst | src/services/dataService.ts:46-48 | a save during an outage reports success, and a following offline listing is the new vehicle followed by the vehicles listed before the save |
| DataService.Merge | src/services/dataService.ts:99 | every field present in the patch overwrites the review's field; every absent one is kept; an explicitly unset text clears it |
| DataService.MergeLaws | src/services/dataService.ts:99 | the empty patch is the identity, and merging a patch twice equals merging once |
| DataService.PatchReviews | src/services/dataService.ts:99 | same length; reviews with the number are merged with the patch and the others are unchanged |
| DataService.PatchQuads | src/services/dataService.ts:95-103 | same length; vehicles with another id are unchanged; the matching vehicle keeps every field but its reviews, which keep their count and change only where the number matches |
| DataService.PatchQuadsIdempotent | src/services/dataService.ts:95-103 | applying the same review update twice equals applying it once |
| DataService.UpdateReview | src/services/dataService.ts:83-106 | always reports success; on fallback the mirror is the patched listing |
| App.StripNonDigits | src/App.tsx:37 | the stored phone number holds only digits, is no longer than the input, and holds exactly the digits the input holds |
| App.StripKeepsDigitsInOrder | src/App.tsx:37 | stripping works character by character: it distributes over concatenation, keeps a digit and drops anything else |
| App.StripFixesDigitStrings | src/App.tsx:37 | stripping leaves a string unchanged if and only if it is all digits, and stripping twice equals stripping once |
| App.HandleAdd | src/App.tsx:28-47 | the state is unchanged exactly when a form field is empty; otherwise the new vehicle (given id, digits-only phone, generated schedule, no status) is prepended, the list grows by one, the form is cleared and the modal closes |
| App.ToggleIn | src/App.tsx:54-56 | same length; only the completion flag of reviews with the number flips |
| App.ToggleReview | src/App.tsx:49-61 | same length; only the reviews of the vehicle with the id change, and only as `ToggleIn` says |
| App.ToggleTwiceIsIdentity | src/App.tsx:49-61 | toggling the same review twice restores the list |
| App.DeleteQuad | src/App.tsx:63-67 | without confirmation nothing changes; with it a vehicle survives exactly when it has another id, the list never grows, and it keeps its length exactly when no vehicle had that id |
| App.DeleteQuadKeepsOrder | src/App.tsx:65 | a confirmed delete distributes over concatenation, so the survivors keep their order |
| App.DeleteQuadIdempotent | src/App.tsx:65 | deleting twice is deleting once, so no survivor appears twice |
| App.ActionsPreserveInvariant | src/App.tsx:28-67 | adding, toggling and deleting keep every record well formed: a digits-only phone number and the generated schedule, where only completion flags may differ |
| App.Message | src/App.tsx:69-77 | the message opens with the intro naming the client and the model; with a review it continues with the reminder lead and ends with the review's label and formatted date, otherwise it ends with the generic closing question, and its length is exactly that of these parts |
| App.Intro | src/App.tsx:71 | the intro greets the client by name and ends with the model in bold |
| App.Reminder | src/App.tsx:74 | the reminder opens with the review's label in bold and ends with its formatted date in bold |
| App.WhatsappUrl | src/App.tsx:79-80 | the link is the wa.me prefix with country code 55, the phone number and "?text=", followed by the encoded message and nothing else |
| App.UrlRoundTrip | src/App.tsx:80 | for a digits-only phone number the link splits back into exactly that number and the encoded message |
| App.StoredRecordsHaveWorkingLinks | src/App.tsx:37-80 | every record the app holds yields a link that parses back to its own phone number |
| Server.RowsFor | server.ts:45 | a row is selected exactly when it belongs to the vehicle |
| Server.SortByNumber | server.ts:45 | the rows come out ordered by ascending review number, as a permutation of the input |
| Server.SortKeepsOrderedRows | server.ts:45 | rows already in number order are left as they are |
| Server.ToReview | server.ts:48-52 | a row's review number becomes the review id, and its stored integer becomes a boolean that is true exactly when it is non-zero; the label, date, gap and three texts are copied |
| Server.Entry | server.ts:44-53 | a vehicle's entry copies the vehicle row; its reviews are ordered by id and are a permutation of the converted rows that belong to it |
| Server.Get | server.ts:42-56 | the listing has one entry per vehicle row, in table order |
| Server.StoredRow | server.ts:64-66 | a stored review row belongs to the vehicle, keeps the review number, stores completion as 1 or 0, copies the label, date and gap, and leaves observation, responsible and km unset |
| Server.Post | server.ts:58-70 | replies 201 "ok"; appends one vehicle row and one review row per review, after the existing rows, which are unchanged |
| Server.PostKeepsNoOrphans | server.ts:58-70 | posting a new vehicle keeps every review row attached to an existing vehicle |
| Server.PostThenGet | server.ts:42-70 | posted under a fresh id into a database without orphan review rows (the foreign key at server.ts:31), a vehicle whose reviews are in order and carry no notes is listed last exactly as posted, and earlier entries do not change |
| Server.PutStatus | server.ts:72-76 | replies "ok"; only the status column of the matching vehicle rows changes; the review table is untouched |
| Server.PutStatusKeepsNoOrphans | server.ts:72-76 | a status change keeps every review row attached to an existing vehicle |
| Server.GetAfterPutStatus | server.ts:72-76 | after a status change the listing differs only in that vehicle's status |
| Server.Delete | server.ts:78-81 | replies "ok"; a vehicle row survives exactly when it has another id; with the cascade a review row survives exactly when it belongs to another vehicle |
| Server.DeleteKeepsNoOrphans | server.ts:31 | with the cascade, deleting keeps every review row attached to an existing vehicle |
| Server.GetAfterDelete | server.ts:78-81 | with or without the cascade, the listing after a delete is the earlier listing without that vehicle, so no entry or review is reachable under its id |
| Server.NullIfEmpty | server.ts:89 | an absent or empty text becomes NULL, and any other text is kept |
| Server.PutReview | server.ts:83-91 | replies "ok"; rows of other vehicles or numbers are unchanged; matching rows keep their identity columns and get all four writable columns overwritten, with absent or empty texts set to NULL |
| Server.PutReviewKeepsNoOrphans | server.ts:83-91 | a review update keeps every review row attached to an existing vehicle |
| Server.PutReviewIdempotent | server.ts:83-91 | repeating a review update changes nothing further |
| Server.SortCommutes | server.ts:45 | ordering by review number commutes with any rewrite that keeps review numbers |
| Server.GetAfterPutReview | server.ts:83-91 | after a review update the listing differs only in the reviews with that number of that vehicle, each overwritten as the request says |
| Backends.ScheduleRoundTrips | server.ts:64-66 | a freshly generated schedule is in number order and carries no notes; with Server.PostThenGet this means a vehicle carrying it, posted under a fresh id into a database without orphan review rows (the foreign key at server.ts:31), is listed back unchanged |
| Backends.FormRecordSurvivesServer | src/App.tsx:32-41 | the record the form builds, posted under its new id into a database without orphan review rows (the foreign key at server.ts:31), comes back from the listing exactly as built |
| Backends.BodyOf | server.ts:84 | the API reads completion as true exactly when the request says true; a text the request carries is read as sent (a cleared text as none), and a text it leaves out is read as none |
| Backends.BackendsAgreeOnFullUpdates | server.ts:84-89 | an update that names the completion flag and all three texts, none of them empty, and no identity field, leaves the review the same through the API as through the fallback |
| Backends.BackendsDisagreeOnPartialUpdates | src/services/dataService.ts:99 | an update that only marks a review done keeps its observation in the fallback, but the API clears it |
| Backends.FallbackCompletesSecondReview | src/services/dataService.ts:94-104 | marking review 2 done with a responsible and a km reading in the fallback leaves reviews 1 and 3 untouched and sets exactly those fields on review 2 |

## Left out

- DateUtils.GetStatus: compares day numbers. A review scheduled for today therefore counts as upcoming all day, whereas the source compares instants.
- `formatDate`, the date library's parsing and day arithmetic, time zones and `toISOString`: these are calendar and locale behaviour. Dates are day numbers, and the message builder takes the formatter as a parameter.
- `encodeURIComponent`: it becomes a parameter of the link builder.
- `window.open`: the link is built, but its side effect is not modelled.
- `crypto.randomUUID` and `confirm`: they become inputs (a fresh id and a boolean).
- `fetch`, `isApiAvailable` and JSON (de)serialisation (src/services/dataService.ts:6-13): network and serialisation. Each API call's outcome is an input.
- Loading and saving the app's list in local storage (src/App.tsx:16-26): browser I/O.
- Express routing, the Vite middleware, static file serving and `listen` (server.ts:93-112): server plumbing.
- The SQL engine itself: tables are sequences of rows.
- Server.PostThenGet: the round trip is promised only for a database without orphan review rows. Every handler keeps that condition when the delete cascades. A delete without the cascade can leave orphans under the deleted id, and a later POST reusing that id would list them too.
- The primary-key failure on a duplicate POST id: it is a precondition of `Server.Post`.
- The autoincrement id of review rows: the listing replaces it with the review number, and no handler addresses rows by it.
- The extra `quadId` and `reviewNumber` keys that the listing leaves in each review object: they are not part of the review record.
- `SELECT` without `ORDER BY`: it is modelled as insertion order.
- Ties in `ORDER BY reviewNumber`: they keep table order.
- Request bodies that miss fields other than `status` (which would store NULL), and JavaScript truthiness of arbitrary JSON values: the request's `isCompleted` is a boolean, false when absent.
- The text `:reviewNumber` route parameter: it is compared with the integer column as a number.
- `src/lib/supabase.ts`: it only constructs a third-party client.
- DataService operations are each one atomic step: the source awaits the inner listing before writing the mirror, so two interleaved calls can lose an update. Concurrency is not modelled.
- React rendering, animations and styling (src/App.tsx:83-331): UI.
