/**
 * The Booking schema: the `email` setters and shape validator, the
 * `pre('save')` check that the referenced event exists, and the unique
 * index on `(eventId, email)`.
 */
module BookingModel {
  import opened Wrappers
  import opened JsText
  import EventModel

  type EventId = EventModel.EventId

  // ------------------------------------------------------------ email shape

  /** A character of the regex class `[^\s@]`. */
  predicate Plain(c: char) {
    c != '@' && !IsSpace(c)
  }

  predicate AllPlain(s: string) {
    forall k | 0 <= k < |s| :: Plain(s[k])
  }

  /**
   * `/^[^\s@]+@[^\s@]+\.[^\s@]+$/.test(s)` as written: a non-empty plain run,
   * an '@' at `i`, a non-empty plain run, a '.' at `j`, a non-empty plain run.
   * The middle run may itself hold dots; the regex backtracks to any of them.
   */
  ghost predicate MatchesEmailPattern(s: string) {
    exists i, j | 0 < i && i + 1 < j && j + 1 < |s| ::
      s[i] == '@' && s[j] == '.' && AllPlain(s[..i]) && AllPlain(s[i + 1..j]) && AllPlain(s[j + 1..])
  }

  /**
   * The email check, character by character: no whitespace, a first '@'
   * that is not the first character, no second '@', and a '.' after it with
   * at least one character on each side.
   */
  predicate ValidEmail(s: string) {
    var at := IndexOf(s, '@');
    && NoSpace(s)
    && 0 < at < |s|
    && (forall k | at < k < |s| :: s[k] != '@')
    && (exists j | at + 1 < j < |s| - 1 :: s[j] == '.')
  }

  /** `s[lo..hi]` is a plain run when each of its characters is plain. */
  lemma PlainRun(s: string, lo: nat, hi: nat)
    requires lo <= hi <= |s|
    requires forall k | lo <= k < hi :: Plain(s[k])
    ensures AllPlain(s[lo..hi])
  {
    var run := s[lo..hi];
    forall k | 0 <= k < |run| ensures Plain(run[k]) {
      assert run[k] == s[lo + k];
    }
  }

  /** Each character of a plain run `s[lo..hi]` is plain. */
  lemma PlainRunChars(s: string, lo: nat, hi: nat)
    requires lo <= hi <= |s|
    requires AllPlain(s[lo..hi])
    ensures forall k | lo <= k < hi :: Plain(s[k])
  {
    var run := s[lo..hi];
    forall k | lo <= k < hi ensures Plain(s[k]) {
      assert run[k - lo] == s[k];
    }
  }

  lemma ValidEmailMatches(s: string)
    requires ValidEmail(s)
    ensures MatchesEmailPattern(s)
  {
    var i := IndexOf(s, '@');
    var j :| i + 1 < j < |s| - 1 && s[j] == '.';
    PlainRuns(s, i, j);
    assert 0 < i && i + 1 < j && j + 1 < |s| && s[i] == '@' && s[j] == '.';
  }

  /** Around the only '@' of a text without whitespace, each run is plain. */
  lemma PlainRuns(s: string, i: nat, j: nat)
    requires i < j < |s| && NoSpace(s)
    requires forall k | 0 <= k < |s| && k != i :: s[k] != '@'
    ensures AllPlain(s[..i]) && AllPlain(s[i + 1..j]) && AllPlain(s[j + 1..])
  {
    PlainRun(s, 0, i);
    PlainRun(s, i + 1, j);
    PlainRun(s, j + 1, |s|);
    assert s[0..i] == s[..i] && s[j + 1..|s|] == s[j + 1..];
  }

  lemma MatchingIsValid(s: string, i: nat, j: nat)
    requires 0 < i && i + 1 < j && j + 1 < |s|
    requires s[i] == '@' && s[j] == '.' && AllPlain(s[..i]) && AllPlain(s[i + 1..j]) && AllPlain(s[j + 1..])
    ensures ValidEmail(s)
  {
    assert s[0..i] == s[..i] && s[j + 1..|s|] == s[j + 1..];
    PlainRunChars(s, 0, i);
    PlainRunChars(s, i + 1, j);
    PlainRunChars(s, j + 1, |s|);
    assert IndexOf(s, '@') == i;
    PlainApartFrom(s, i, j);
  }

  /** A text whose characters are plain except an '@' and a '.' holds no whitespace. */
  lemma PlainApartFrom(s: string, i: nat, j: nat)
    requires i < |s| && j < |s| && s[i] == '@' && s[j] == '.'
    requires forall k | 0 <= k < |s| && k != i && k != j :: Plain(s[k])
    ensures NoSpace(s)
  {
    SpaceOutsidePrintable('@');
    SpaceOutsidePrintable('.');
    forall k | 0 <= k < |s| ensures !IsSpace(s[k]) {
      if k != i && k != j {
        assert Plain(s[k]);
      }
    }
  }

  /** The character-level check accepts exactly the texts the regex accepts. */
  lemma ValidEmailIffPattern(s: string)
    ensures ValidEmail(s) <==> MatchesEmailPattern(s)
  {
    if ValidEmail(s) {
      ValidEmailMatches(s);
    }
    if MatchesEmailPattern(s) {
      var i, j :| 0 < i && i + 1 < j && j + 1 < |s| &&
        s[i] == '@' && s[j] == '.' && AllPlain(s[..i]) && AllPlain(s[i + 1..j]) && AllPlain(s[j + 1..]);
      MatchingIsValid(s, i, j);
    }
  }

  /** The number of occurrences of `c` in `s`. */
  function Occurrences(s: string, c: char): nat {
    if s == [] then 0 else (if s[0] == c then 1 else 0) + Occurrences(s[1..], c)
  }

  lemma {:induction false} OccurrencesAppend(a: string, b: string, c: char)
    ensures Occurrences(a + b, c) == Occurrences(a, c) + Occurrences(b, c)
  {
    if a == [] {
      assert a + b == b;
    } else {
      assert (a + b)[1..] == a[1..] + b;
      OccurrencesAppend(a[1..], b, c);
    }
  }

  lemma {:induction false} OccurrencesNone(s: string, c: char)
    requires forall k | 0 <= k < |s| :: s[k] != c
    ensures Occurrences(s, c) == 0
  {
    if s != [] {
      OccurrencesNone(s[1..], c);
    }
  }

  lemma SplitAround(s: string, i: nat)
    requires i < |s|
    ensures s[..i] + [s[i]] + s[i + 1..] == s
  {
  }

  /** A text whose only `c` is at `at` holds exactly one `c`. */
  lemma SingleOccurrence(s: string, c: char, at: nat)
    requires at < |s| && s[at] == c
    requires forall k | 0 <= k < |s| && k != at :: s[k] != c
    ensures Occurrences(s, c) == 1
  {
    var before, after := s[..at], s[at + 1..];
    forall k | 0 <= k < |after| ensures after[k] != c {
      assert after[k] == s[at + 1 + k];
    }
    OccurrencesNone(before, c);
    OccurrencesNone(after, c);
    assert Occurrences([s[at]], c) == 1;
    OccurrencesAppend(before, [s[at]], c);
    OccurrencesAppend(before + [s[at]], after, c);
    SplitAround(s, at);
  }

  /** An accepted email has exactly one '@' and no whitespace. */
  lemma AcceptedEmailHasOneAt(s: string)
    requires ValidEmail(s)
    ensures Occurrences(s, '@') == 1
    ensures forall k | 0 <= k < |s| :: !IsSpace(s[k])
  {
    SingleOccurrence(s, '@', IndexOf(s, '@'));
  }

  // ------------------------------------------------------------- normalising

  // The `email` path's `trim: true` and `lowercase: true` setters are
  // JsText.TrimLowercase.

  // ------------------------------------------------------------------ schema

  datatype BookingField = EventIdPath | EmailPath

  /** The paths a booking document is built from; `None` is a missing path. */
  datatype BookingRecord = BookingRecord(eventId: Option<EventId>, email: Option<string>)

  /** A stored booking. */
  datatype Booking = Booking(eventId: EventId, email: string)

  datatype BookingError =
    | ValidationFailed(paths: set<BookingField>)   // required or email-shape failure
    | UnknownEvent                                 // "Referenced event does not exist"
    | DuplicateBooking                             // the unique index `uniq_event_email`

  function ApplyBookingSetters(rec: BookingRecord): (r: BookingRecord)
    ensures r.eventId == rec.eventId
    ensures r.email.Some? <==> rec.email.Some?
    ensures r.email.Some? ==> r.email.value == TrimLowercase(rec.email.value)
  {
    rec.(email := match rec.email case Some(e) => Some(TrimLowercase(e)) case None => None)
  }

  /** `eventId` required; `email` required (not empty) and of email shape. */
  function BookingViolations(rec: BookingRecord): (v: set<BookingField>)
    ensures EventIdPath in v <==> rec.eventId.None?
    ensures EmailPath in v <==> rec.email.None? || !ValidEmail(rec.email.value)
  {
    (if rec.eventId.None? then {EventIdPath} else {})
      + (if rec.email.None? || rec.email.value == "" || !ValidEmail(rec.email.value) then {EmailPath} else {})
  }

  /**
   * The `pre('save')` hook: when `eventId` is modified it must name an
   * existing event, otherwise the check is skipped.
   */
  function ReferenceCheck(modified: bool, eventId: EventId, eventIds: set<EventId>): (r: Option<BookingError>)
    ensures !modified ==> r.None?
    ensures modified ==> (r.None? <==> eventId in eventIds)
    ensures r.Some? ==> r.value == UnknownEvent
  {
    if modified && eventId !in eventIds then Some(UnknownEvent) else None
  }

  /**
   * `doc.save()` up to the insert: setters, validation, then the hook. On a
   * new document a present `eventId` is a modified one.
   */
  function PrepareBooking(rec: BookingRecord, eventIds: set<EventId>): Result<Booking, BookingError> {
    CheckBooking(ApplyBookingSetters(rec), eventIds)
  }

  /** Validation, then the hook, on a document whose setters have run. */
  function CheckBooking(doc: BookingRecord, eventIds: set<EventId>): Result<Booking, BookingError> {
    var v := BookingViolations(doc);
    if v != {} then Failure(ValidationFailed(v))
    else match ReferenceCheck(true, doc.eventId.value, eventIds)
      case Some(e) => Failure(e)
      case None => Success(Booking(doc.eventId.value, doc.email.value))
  }

  /** `Booking.create(rec)` against the stored bookings: prepare, then the unique index. */
  function SaveOutcome(bookings: seq<Booking>, eventIds: set<EventId>, rec: BookingRecord): Result<Booking, BookingError> {
    match PrepareBooking(rec, eventIds)
    case Failure(e) => Failure(e)
    case Success(b) => if b in bookings then Failure(DuplicateBooking) else Success(b)
  }

  /** A booking as the schema lets it be stored: a normalised email of valid shape. */
  predicate StoredBooking(b: Booking) {
    ValidEmail(b.email) && NoUpper(b.email) && IsTrimmed(b.email)
  }

  /**
   * What the collection keeps: every booking holds a normalised email of
   * valid shape, and no `(eventId, email)` pair occurs twice. Whether the
   * event exists is checked when a booking is saved (`SavedIsStorable`).
   */
  predicate BookingInvariant(bookings: seq<Booking>) {
    && (forall i | 0 <= i < |bookings| :: StoredBooking(bookings[i]))
    && (forall i, j | 0 <= i < j < |bookings| :: bookings[i] != bookings[j])
  }

  /**
   * A save succeeds exactly when both paths are present, the normalised
   * email has the regex shape, the event exists and the pair is new; the
   * stored email is the normalised one.
   */
  lemma SaveOutcomeMeans(bookings: seq<Booking>, eventIds: set<EventId>, rec: BookingRecord)
    ensures SaveOutcome(bookings, eventIds, rec).Success? <==>
              && rec.eventId.Some? && rec.email.Some?
              && MatchesEmailPattern(TrimLowercase(rec.email.value))
              && rec.eventId.value in eventIds
              && Booking(rec.eventId.value, TrimLowercase(rec.email.value)) !in bookings
    ensures SaveOutcome(bookings, eventIds, rec).Success? ==>
              SaveOutcome(bookings, eventIds, rec).value == Booking(rec.eventId.value, TrimLowercase(rec.email.value))
  {
    PrepareBookingMeans(rec, eventIds);
    if rec.email.Some? {
      ValidEmailIffPattern(TrimLowercase(rec.email.value));
    }
  }

  lemma PrepareBookingMeans(rec: BookingRecord, eventIds: set<EventId>)
    ensures PrepareBooking(rec, eventIds).Success? <==>
              rec.eventId.Some? && rec.email.Some? && ValidEmail(TrimLowercase(rec.email.value)) && rec.eventId.value in eventIds
    ensures PrepareBooking(rec, eventIds).Success? ==>
              PrepareBooking(rec, eventIds).value == Booking(rec.eventId.value, TrimLowercase(rec.email.value))
  {
    var doc := ApplyBookingSetters(rec);
    var v := BookingViolations(doc);
    assert v == {} <==> doc.eventId.Some? && doc.email.Some? && ValidEmail(doc.email.value) by {
      assert EventIdPath in v <==> doc.eventId.None?;
      assert EmailPath in v <==> doc.email.None? || !ValidEmail(doc.email.value);
    }
  }

  /** What a successful save returns references an existing event, is storable and is not yet stored. */
  lemma SavedIsStorable(bookings: seq<Booking>, eventIds: set<EventId>, rec: BookingRecord)
    requires SaveOutcome(bookings, eventIds, rec).Success?
    ensures SaveOutcome(bookings, eventIds, rec).value.eventId in eventIds
    ensures StoredBooking(SaveOutcome(bookings, eventIds, rec).value)
    ensures SaveOutcome(bookings, eventIds, rec).value !in bookings
  {
  }

  /** Appending a storable booking that is not yet stored keeps the collection's invariant. */
  lemma AppendKeepsBookingInvariant(bookings: seq<Booking>, b: Booking)
    requires BookingInvariant(bookings)
    requires StoredBooking(b) && b !in bookings
    ensures BookingInvariant(bookings + [b])
  {
    var all := bookings + [b];
    forall i | 0 <= i < |all| ensures StoredBooking(all[i]) {
      if i < |bookings| {
        assert all[i] == bookings[i];
      }
    }
    forall i, j | 0 <= i < j < |all| ensures all[i] != all[j] {
      assert all[i] == bookings[i];
      if j < |bookings| {
        assert all[j] == bookings[j];
      }
    }
  }

  /** A successful save keeps the collection's invariant. */
  lemma SaveKeepsInvariant(bookings: seq<Booking>, eventIds: set<EventId>, rec: BookingRecord)
    requires BookingInvariant(bookings)
    requires SaveOutcome(bookings, eventIds, rec).Success?
    ensures BookingInvariant(bookings + [SaveOutcome(bookings, eventIds, rec).value])
  {
    SavedIsStorable(bookings, eventIds, rec);
    AppendKeepsBookingInvariant(bookings, SaveOutcome(bookings, eventIds, rec).value);
  }
}
