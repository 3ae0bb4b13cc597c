/** The in-memory state of the single-page app: the vehicle list, the
    new-vehicle form, and the actions that rewrite them. */
module App {
  import opened Types
  import Seqs
  import DateUtils

  /** The new-vehicle form. The date input is either empty (None) or a date. */
  datatype Form = Form(model: string, date: Option<Date>, clientName: string, whatsapp: string)

  /** Everything the app keeps in memory. */
  datatype State = State(quads: seq<Quadricycle>, isAdding: bool, form: Form)

  const EmptyForm: Form := Form("", None, "", "")

  predicate IsDigit(c: char) {
    '0' <= c <= '9'
  }

  predicate AllDigits(s: string) {
    forall i :: 0 <= i < |s| ==> IsDigit(s[i])
  }

  /** The phone number with every character other than 0-9 removed. */
  function StripNonDigits(s: string): (d: string)
    ensures AllDigits(d)
    ensures |d| <= |s|
    ensures forall c :: IsDigit(c) ==> (c in d <==> c in s)
  {
    Seqs.Filter(IsDigit, s)
  }

  /** Stripping works character by character: digits survive in their
      order, everything else disappears. */
  lemma StripKeepsDigitsInOrder(a: string, b: string, c: char)
    ensures StripNonDigits(a + b) == StripNonDigits(a) + StripNonDigits(b)
    ensures StripNonDigits([c]) == if IsDigit(c) then [c] else []
  {
    Seqs.FilterConcat(IsDigit, a, b);
    assert [c][1..] == [];
  }

  /** A string is left alone by stripping exactly when it is all digits;
      hence stripping twice is stripping once. */
  lemma StripFixesDigitStrings(s: string)
    ensures StripNonDigits(s) == s <==> AllDigits(s)
    ensures StripNonDigits(StripNonDigits(s)) == StripNonDigits(s)
  {
    if AllDigits(s) {
      Seqs.FilterKeepsAll(IsDigit, s);
    }
    Seqs.FilterKeepsAll(IsDigit, StripNonDigits(s));
  }

  /** The form may be submitted only when every field is filled in. */
  predicate IsFilled(f: Form) {
    f.model != "" && f.date.Some? && f.clientName != "" && f.whatsapp != ""
  }

  /** Submits the form; `newId` is the fresh random id for the new record. */
  function HandleAdd(st: State, newId: string): (st': State)
    ensures st' == st <==> !IsFilled(st.form)
    ensures IsFilled(st.form) ==>
      && |st'.quads| == |st.quads| + 1
      && st'.quads[1..] == st.quads
      && st'.quads[0].id == newId
      && st'.quads[0].model == st.form.model
      && st'.quads[0].clientName == st.form.clientName
      && st'.quads[0].purchaseDate == st.form.date.value
      && st'.quads[0].reviews == DateUtils.CalculateReviews(st.form.date.value)
      && st'.quads[0].whatsapp == StripNonDigits(st.form.whatsapp)
      && st'.quads[0].status.None?
      && st'.form == EmptyForm
      && !st'.isAdding
  {
    if !IsFilled(st.form) then st
    else
      var f := st.form;
      var quad := Quadricycle(newId, f.model, f.date.value, f.clientName,
                              StripNonDigits(f.whatsapp), DateUtils.CalculateReviews(f.date.value), None);
      State([quad] + st.quads, false, EmptyForm)
  }

  /** Review `reviewId` with its completion flag flipped, other reviews as they are. */
  function ToggleIn(rs: seq<Review>, reviewId: int): (r: seq<Review>)
    ensures |r| == |rs|
    ensures forall j :: 0 <= j < |rs| ==> r[j] == rs[j].(isCompleted := r[j].isCompleted)
    ensures forall j :: 0 <= j < |rs| ==>
      r[j].isCompleted == if rs[j].id == reviewId then !rs[j].isCompleted else rs[j].isCompleted
  {
    Seqs.Map((x: Review) => if x.id == reviewId then x.(isCompleted := !x.isCompleted) else x, rs)
  }

  /** Flips the completion flag of review `reviewId` of vehicle `quadId`. */
  function ToggleReview(qs: seq<Quadricycle>, quadId: string, reviewId: int): (r: seq<Quadricycle>)
    ensures |r| == |qs|
    ensures forall i :: 0 <= i < |qs| ==> r[i] == qs[i].(reviews := r[i].reviews)
    ensures forall i :: 0 <= i < |qs| ==>
      r[i].reviews == if qs[i].id == quadId then ToggleIn(qs[i].reviews, reviewId) else qs[i].reviews
  {
    Seqs.Map((q: Quadricycle) => if q.id == quadId then q.(reviews := ToggleIn(q.reviews, reviewId)) else q, qs)
  }

  lemma ToggleInTwice(rs: seq<Review>, reviewId: int)
    ensures ToggleIn(ToggleIn(rs, reviewId), reviewId) == rs
  {
    var twice := ToggleIn(ToggleIn(rs, reviewId), reviewId);
    assert forall j :: 0 <= j < |rs| ==> twice[j] == rs[j];
  }

  /** Toggling the same review twice restores the list. */
  lemma ToggleTwiceIsIdentity(qs: seq<Quadricycle>, quadId: string, reviewId: int)
    ensures ToggleReview(ToggleReview(qs, quadId, reviewId), quadId, reviewId) == qs
  {
    var once := ToggleReview(qs, quadId, reviewId);
    var twice := ToggleReview(once, quadId, reviewId);
    forall i | 0 <= i < |qs| ensures twice[i] == qs[i] {
      if qs[i].id == quadId {
        ToggleInTwice(qs[i].reviews, reviewId);
      }
    }
  }

  /** Removes vehicle `id` if the user confirms. */
  function DeleteQuad(qs: seq<Quadricycle>, id: string, confirmed: bool): (r: seq<Quadricycle>)
    ensures !confirmed ==> r == qs
    ensures confirmed ==> forall q :: q in r <==> q in qs && q.id != id
    ensures confirmed ==> (|r| == |qs| <==> forall q :: q in qs ==> q.id != id)
    ensures confirmed ==> |r| <= |qs|
  {
    if confirmed then
      Seqs.FilterShrinks((q: Quadricycle) => q.id != id, qs);
      Seqs.Filter((q: Quadricycle) => q.id != id, qs)
    else qs
  }

  /** Deleting works vehicle by vehicle, so the survivors keep their order. */
  lemma DeleteQuadKeepsOrder(a: seq<Quadricycle>, b: seq<Quadricycle>, id: string)
    ensures DeleteQuad(a + b, id, true) == DeleteQuad(a, id, true) + DeleteQuad(b, id, true)
  {
    Seqs.FilterConcat((q: Quadricycle) => q.id != id, a, b);
  }

  /** Deleting twice is deleting once, so no survivor is duplicated. */
  lemma DeleteQuadIdempotent(qs: seq<Quadricycle>, id: string)
    ensures DeleteQuad(DeleteQuad(qs, id, true), id, true) == DeleteQuad(qs, id, true)
  {
    Seqs.FilterIdempotent((q: Quadricycle) => q.id != id, qs);
  }

  /** A record as the form builds it: a digits-only phone number and the
      generated schedule, where only the completion flags may have moved. */
  predicate WellFormed(q: Quadricycle) {
    var plan := DateUtils.CalculateReviews(q.purchaseDate);
    && AllDigits(q.whatsapp)
    && |q.reviews| == 3
    && forall j :: 0 <= j < 3 ==> q.reviews[j] == plan[j].(isCompleted := q.reviews[j].isCompleted)
  }

  predicate Invariant(st: State) {
    forall q :: q in st.quads ==> WellFormed(q)
  }

  /** Every action of the app keeps every record well formed. */
  lemma ActionsPreserveInvariant(st: State, newId: string, quadId: string, reviewId: int, id: string, confirmed: bool)
    requires Invariant(st)
    ensures Invariant(HandleAdd(st, newId))
    ensures Invariant(st.(quads := ToggleReview(st.quads, quadId, reviewId)))
    ensures Invariant(st.(quads := DeleteQuad(st.quads, id, confirmed)))
  {
    var added := HandleAdd(st, newId);
    if IsFilled(st.form) {
      forall q | q in added.quads ensures WellFormed(q) {
        if q != added.quads[0] {
          assert q in added.quads[1..];
        }
      }
    }
    var toggled := ToggleReview(st.quads, quadId, reviewId);
    forall q | q in toggled ensures WellFormed(q) {
      var i :| 0 <= i < |toggled| && toggled[i] == q;
      assert st.quads[i] in st.quads;
    }
  }

  // ---- contacting the client -------------------------------------------

  const UrlPrefix: string := "https://wa.me/55"
  const TextKey: string := "?text="
  const Greeting: string := "Ol\U{E1} "
  const HelpClosing: string := "\n\nComo podemos ajudar hoje?"

  predicate StartsWith(s: string, prefix: string) {
    |prefix| <= |s| && s[..|prefix|] == prefix
  }

  predicate EndsWith(s: string, suffix: string) {
    |suffix| <= |s| && s[|s| - |suffix|..] == suffix
  }

  /** The opening of every message: it greets the client by name and names
      the vehicle's model. */
  function Intro(q: Quadricycle): (s: string)
    ensures StartsWith(s, Greeting + q.clientName)
    ensures EndsWith(s, "*" + q.model + "*.")
  {
    var head := Greeting + q.clientName + "! \U{1F44B}\n\nEstamos entrando em contato sobre o seu quadriciclo ";
    var named := "*" + q.model + "*.";
    assert (head + named)[|head|..] == named;
    assert (head + named)[..|Greeting + q.clientName|] == (Greeting + q.clientName + "! \U{1F44B}\n\nEstamos entrando em contato sobre o seu quadriciclo ")[..|Greeting + q.clientName|];
    head + named
  }

  /** The reminder of one review: its label and its formatted date. */
  function Reminder(r: Review, formatDate: Date -> string): (s: string)
    ensures StartsWith(s, "*" + r.title + "*")
    ensures EndsWith(s, "*" + formatDate(r.scheduledDate) + "*.")
  {
    var named := "*" + r.title + "*";
    var middle := " est\U{E1} agendada para o dia ";
    var when := "*" + formatDate(r.scheduledDate) + "*.";
    assert (named + middle + when)[|named + middle|..] == when;
    assert (named + middle + when)[..|named|] == named;
    named + middle + when
  }

  const ReminderLead: string := "\n\nLembramos que a sua "

  /** The pre-filled message: the intro, then either the reminder of the
      given review or the generic closing question. `formatDate` renders a
      date for display. */
  function Message(q: Quadricycle, review: Option<Review>, formatDate: Date -> string): (msg: string)
    ensures StartsWith(msg, Greeting + q.clientName)
    ensures StartsWith(msg, Intro(q))
    ensures review.None? ==> EndsWith(msg, HelpClosing) && |msg| == |Intro(q)| + |HelpClosing|
    ensures review.Some? ==>
      && StartsWith(msg, Intro(q) + ReminderLead)
      && EndsWith(msg, Reminder(review.value, formatDate))
      && EndsWith(msg, "*" + formatDate(review.value.scheduledDate) + "*.")
      && |msg| == |Intro(q) + ReminderLead| + |Reminder(review.value, formatDate)|
  {
    var intro := Intro(q);
    match review
    case Some(r) =>
      var head, tail := intro + ReminderLead, Reminder(r, formatDate);
      assert (head + tail)[|head|..] == tail;
      assert (head + tail)[..|head|] == head;
      assert (head + tail)[..|intro|] == intro;
      assert (head + tail)[..|Greeting + q.clientName|] == intro[..|Greeting + q.clientName|];
      var when := "*" + formatDate(r.scheduledDate) + "*.";
      assert (head + tail)[|head + tail| - |when|..] == tail[|tail| - |when|..];
      head + tail
    case None =>
      assert (intro + HelpClosing)[|intro|..] == HelpClosing;
      assert (intro + HelpClosing)[..|intro|] == intro;
      assert (intro + HelpClosing)[..|Greeting + q.clientName|] == intro[..|Greeting + q.clientName|];
      intro + HelpClosing
  }

  /** The messaging deep link opened in a new window; `encode` is the URL
      component encoder. */
  function WhatsappUrl(q: Quadricycle, review: Option<Review>, formatDate: Date -> string, encode: string -> string): (url: string)
    ensures StartsWith(url, UrlPrefix + q.whatsapp + TextKey)
    ensures EndsWith(url, encode(Message(q, review, formatDate)))
    ensures |url| == |UrlPrefix + q.whatsapp + TextKey| + |encode(Message(q, review, formatDate))|
  {
    var head, text := UrlPrefix + q.whatsapp + TextKey, encode(Message(q, review, formatDate));
    assert (head + text)[..|head|] == head && (head + text)[|head|..] == text;
    head + text
  }

  /** The longest all-digit prefix of `s`. */
  function LeadingDigits(s: string): (d: string)
    ensures |d| <= |s| && d == s[..|d|]
    ensures AllDigits(d)
  {
    if s != [] && IsDigit(s[0]) then [s[0]] + LeadingDigits(s[1..]) else []
  }

  lemma {:induction false} LeadingDigitsOf(p: string, t: string)
    requires AllDigits(p)
    requires t == [] || !IsDigit(t[0])
    ensures LeadingDigits(p + t) == p
  {
    if p != [] {
      assert (p + t)[1..] == p[1..] + t;
      LeadingDigitsOf(p[1..], t);
    }
  }

  /** The two parts a deep link carries: the phone number and the encoded text. */
  datatype Contact = Contact(phone: string, text: string)

  /** Reads the phone number and encoded text back out of a deep link. */
  function ParseUrl(url: string): Option<Contact>
  {
    if |url| < |UrlPrefix| || url[..|UrlPrefix|] != UrlPrefix then None
    else
      var rest := url[|UrlPrefix|..];
      var phone := LeadingDigits(rest);
      var tail := rest[|phone|..];
      if |tail| < |TextKey| || tail[..|TextKey|] != TextKey then None
      else Some(Contact(phone, tail[|TextKey|..]))
  }

  /** For a digits-only phone number the deep link splits back into exactly
      that number and the encoded message. */
  lemma UrlRoundTrip(q: Quadricycle, review: Option<Review>, formatDate: Date -> string, encode: string -> string)
    requires AllDigits(q.whatsapp)
    ensures ParseUrl(WhatsappUrl(q, review, formatDate, encode)) == Some(Contact(q.whatsapp, encode(Message(q, review, formatDate))))
  {
    var text := encode(Message(q, review, formatDate));
    var url := WhatsappUrl(q, review, formatDate, encode);
    assert url == UrlPrefix + (q.whatsapp + (TextKey + text));
    var rest := url[|UrlPrefix|..];
    assert rest == q.whatsapp + (TextKey + text);
    LeadingDigitsOf(q.whatsapp, TextKey + text);
    assert rest[|q.whatsapp|..] == TextKey + text;
  }

  /** Every record the app holds yields a deep link that parses back to its
      own phone number. */
  lemma StoredRecordsHaveWorkingLinks(st: State, q: Quadricycle, review: Option<Review>, formatDate: Date -> string, encode: string -> string)
    requires Invariant(st)
    requires q in st.quads
    ensures ParseUrl(WhatsappUrl(q, review, formatDate, encode)).Some?
    ensures ParseUrl(WhatsappUrl(q, review, formatDate, encode)).value.phone == q.whatsapp
  {
    UrlRoundTrip(q, review, formatDate, encode);
  }
}
