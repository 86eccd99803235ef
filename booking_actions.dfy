/**
 * The booking server actions `createBooking`, `countBooking` and
 * `isUserBookedBefore`, as methods on the booking collection. The ids of
 * the stored events are an argument of the operations that check them.
 * Each action's `try/catch` becomes its fallback result; the database being
 * unreachable is the `Connection` argument.
 */
module BookingActions {
  import opened Wrappers
  import opened JsText
  import opened Platform
  import opened BookingModel

  /** What `createBooking` resolves to: `{ success }` and, for a repeat booking, a `message`. */
  datatype CreateResult = CreateResult(success: bool, message: Option<string>)

  const AlreadyBookedMessage := "You have already booked this event"

  /**
   * `Booking.findOne({ eventId, email })` finds a document. Mongoose casts an
   * equality filter through the path's setters, so the email is compared
   * trimmed and lower-cased, as it is stored.
   */
  predicate HasBooking(bookings: seq<Booking>, eventId: EventId, email: string) {
    Booking(eventId, TrimLowercase(email)) in bookings
  }

  /** The result `createBooking` gives against the stored bookings and the ids of the stored events. */
  function CreateBookingOutcome(bookings: seq<Booking>, eventIds: set<EventId>, eventId: EventId, email: string, db: Connection): CreateResult {
    if db.ConnectFailed? then CreateResult(false, None)
    else if HasBooking(bookings, eventId, email) then CreateResult(false, Some(AlreadyBookedMessage))
    else match SaveOutcome(bookings, eventIds, BookingRecord(Some(eventId), Some(email)))
      case Failure(_) => CreateResult(false, None)
      case Success(_) => CreateResult(true, None)
  }

  /**
   * `createBooking` succeeds exactly when the database is reachable, the
   * pair is not yet booked, the normalised email has the regex shape and the
   * event exists. A message is given exactly for a pair already booked;
   * every other failure has none.
   */
  lemma CreateBookingMeans(bookings: seq<Booking>, eventIds: set<EventId>, eventId: EventId, email: string, db: Connection)
    ensures CreateBookingOutcome(bookings, eventIds, eventId, email, db).success <==>
              && db.Connected?
              && !HasBooking(bookings, eventId, email)
              && MatchesEmailPattern(TrimLowercase(email))
              && eventId in eventIds
    ensures CreateBookingOutcome(bookings, eventIds, eventId, email, db).message.Some? <==>
              db.Connected? && HasBooking(bookings, eventId, email)
    ensures CreateBookingOutcome(bookings, eventIds, eventId, email, db).message.Some? ==>
              CreateBookingOutcome(bookings, eventIds, eventId, email, db).message.value == AlreadyBookedMessage
  {
    SaveOutcomeMeans(bookings, eventIds, BookingRecord(Some(eventId), Some(email)));
  }

  /** The bookings of one event, in stored order: `Booking.countDocuments({ eventId })` counts them. */
  function BookingsFor(bookings: seq<Booking>, eventId: EventId): (r: seq<Booking>)
    ensures |r| <= |bookings|
  {
    if bookings == [] then []
    else (if bookings[0].eventId == eventId then [bookings[0]] else []) + BookingsFor(bookings[1..], eventId)
  }

  /** A booking is counted for an event exactly when it is stored and references that event. */
  lemma {:induction false} BookingsForMembership(bookings: seq<Booking>, eventId: EventId, b: Booking)
    ensures b in BookingsFor(bookings, eventId) <==> b in bookings && b.eventId == eventId
  {
    if bookings != [] {
      BookingsForMembership(bookings[1..], eventId, b);
      assert bookings == [bookings[0]] + bookings[1..];
    }
  }

  /** Appending a booking adds it to its own event's list and leaves every other event's list as it was. */
  lemma {:induction false} BookingsForAppend(bookings: seq<Booking>, b: Booking, eventId: EventId)
    ensures BookingsFor(bookings + [b], eventId) ==
              BookingsFor(bookings, eventId) + (if b.eventId == eventId then [b] else [])
  {
    var all := bookings + [b];
    if bookings == [] {
      assert all == [b];
    } else {
      assert all[0] == bookings[0] && all[1..] == bookings[1..] + [b];
      BookingsForAppend(bookings[1..], b, eventId);
      assert BookingsFor(all, eventId) ==
        (if bookings[0].eventId == eventId then [bookings[0]] else []) + BookingsFor(bookings[1..] + [b], eventId);
    }
  }

  /**
   * A successful `createBooking` is followed by `isUserBookedBefore`
   * answering true, and a repeat `createBooking` with the same address,
   * whatever its casing or surrounding blanks, answering "You have already
   * booked this event"; the booking count of that event grows by one and no
   * other count changes.
   */
  lemma RepeatBookingRejected(bookings: seq<Booking>, eventIds: set<EventId>, eventId: EventId, email: string, again: string, other: EventId)
    requires CreateBookingOutcome(bookings, eventIds, eventId, email, Connected).success
    requires TrimLowercase(again) == TrimLowercase(email)
    ensures HasBooking(bookings + [Booking(eventId, TrimLowercase(email))], eventId, email)
    ensures CreateBookingOutcome(bookings + [Booking(eventId, TrimLowercase(email))], eventIds, eventId, again, Connected) ==
              CreateResult(false, Some(AlreadyBookedMessage))
    ensures |BookingsFor(bookings + [Booking(eventId, TrimLowercase(email))], other)| ==
              |BookingsFor(bookings, other)| + (if other == eventId then 1 else 0)
  {
    BookingsForAppend(bookings, Booking(eventId, TrimLowercase(email)), other);
  }

  /** The bookings collection. */
  class BookingStore {
    var bookings: seq<Booking>

    ghost predicate Valid()
      reads this
    {
      BookingInvariant(bookings)
    }

    constructor ()
      ensures Valid() && bookings == []
    {
      bookings := [];
    }

    /** `Booking.create(rec)`, given the ids of the stored events: the booking is appended, or nothing changes. */
    method Save(rec: BookingRecord, eventIds: set<EventId>) returns (r: Result<Booking, BookingError>)
      requires Valid()
      modifies this
      ensures Valid()
      ensures r == SaveOutcome(old(bookings), eventIds, rec)
      ensures bookings == if r.Success? then old(bookings) + [r.value] else old(bookings)
    {
      var doc := ApplyBookingSetters(rec);
      var violations := BookingViolations(doc);
      if violations != {} {
        return Failure(ValidationFailed(violations));
      }
      var refused := ReferenceCheck(true, doc.eventId.value, eventIds);
      if refused.Some? {
        return Failure(refused.value);
      }
      var booking := Booking(doc.eventId.value, doc.email.value);
      if booking in bookings {
        return Failure(DuplicateBooking);
      }
      r := Success(booking);
      SaveKeepsInvariant(bookings, eventIds, rec);
      bookings := bookings + [booking];
    }

    /**
     * `createBooking({ eventId, slug, email })`. The `slug` argument is not a
     * schema path, so the document built from it never holds it.
     */
    method CreateBooking(eventIds: set<EventId>, eventId: EventId, slug: string, email: string, db: Connection) returns (result: CreateResult)
      requires Valid()
      modifies this
      ensures Valid()
      ensures result == CreateBookingOutcome(old(bookings), eventIds, eventId, email, db)
      ensures bookings == if result.success then old(bookings) + [Booking(eventId, TrimLowercase(email))] else old(bookings)
    {
      if db.ConnectFailed? {
        return CreateResult(false, None);
      }
      if Booking(eventId, TrimLowercase(email)) in bookings {
        return CreateResult(false, Some(AlreadyBookedMessage));
      }
      ghost var before := bookings;
      var saved := Save(BookingRecord(Some(eventId), Some(email)), eventIds);
      if saved.Failure? {
        return CreateResult(false, None);
      }
      SaveOutcomeMeans(before, eventIds, BookingRecord(Some(eventId), Some(email)));
      result := CreateResult(true, None);
    }

    /** `countBooking(eventId)`: the number of bookings of the event, or 0 when the database fails. */
    method CountBooking(eventId: EventId, db: Connection) returns (count: nat)
      ensures count == if db.Connected? then |BookingsFor(bookings, eventId)| else 0
    {
      if db.ConnectFailed? {
        return 0;
      }
      count := |BookingsFor(bookings, eventId)|;
    }

    /** `isUserBookedBefore(eventId, email)`: a booking matches the pair, the email cast as stored; false when the database fails. */
    method IsUserBookedBefore(eventId: EventId, email: string, db: Connection) returns (booked: bool)
      ensures booked <==> db.Connected? && HasBooking(bookings, eventId, email)
    {
      if db.ConnectFailed? {
        return false;
      }
      booked := Booking(eventId, TrimLowercase(email)) in bookings;
    }
  }
}
