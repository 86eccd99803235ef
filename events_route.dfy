/**
 * The `POST /api/events` handler: connect, read the form, check the four
 * required fields, trim them, check the date, then `Event.create`. Each
 * early return and the surrounding `catch` become a `Response`.
 */
module EventsRoute {
  import opened Wrappers
  import opened JsText
  import opened Platform
  import opened EventModel

  /** The request body: its text entries in order, or what `req.formData()` throws. */
  datatype FormBody = Entries(entries: seq<(string, string)>) | Unreadable(thrown: Thrown)

  /** A JSON response: status, `message`, and the optional `fields`, `error` and `event` members. */
  datatype Response = Response(status: int, message: string, fields: seq<string>, error: Option<string>, event: Option<StoredEvent>)

  /** `Object.fromEntries(formData.entries())`: one key per name, a later entry replacing an earlier one. */
  function FromEntries(entries: seq<(string, string)>): (form: map<string, string>)
    ensures forall k :: k in form <==> exists i | 0 <= i < |entries| :: entries[i].0 == k
  {
    if entries == [] then map[]
    else
      var last := entries[|entries| - 1];
      var rest := FromEntries(entries[..|entries| - 1]);
      assert forall i | 0 <= i < |entries| - 1 :: entries[..|entries| - 1][i] == entries[i];
      rest[last.0 := last.1]
  }

  /** The value a name ends up with is the one its last entry carries. */
  lemma {:induction false} FromEntriesLastWins(entries: seq<(string, string)>, i: nat)
    requires i < |entries|
    requires forall j | i < j < |entries| :: entries[j].0 != entries[i].0
    ensures FromEntries(entries)[entries[i].0] == entries[i].1
  {
    if i < |entries| - 1 {
      var prefix := entries[..|entries| - 1];
      assert prefix[i] == entries[i];
      forall j | i < j < |prefix| ensures prefix[j].0 != prefix[i].0 {
        assert prefix[j] == entries[j];
      }
      FromEntriesLastWins(prefix, i);
    }
  }

  const RequiredFields: seq<string> := ["title", "description", "date", "location"]

  /** `!event[field]`: the field is absent or the empty text (a blank text is present). */
  predicate IsMissing(form: map<string, string>, field: string) {
    field !in form || form[field] == ""
  }

  /** `fields.filter(field => !event[field])`. */
  function FilterMissing(form: map<string, string>, fields: seq<string>): (r: seq<string>)
    ensures |r| <= |fields|
  {
    if fields == [] then []
    else (if IsMissing(form, fields[0]) then [fields[0]] else []) + FilterMissing(form, fields[1..])
  }

  function MissingFields(form: map<string, string>): seq<string> {
    FilterMissing(form, RequiredFields)
  }

  /** The missing fields are exactly the absent or empty ones among the four, in the order listed. */
  lemma MissingFieldsExact(form: map<string, string>)
    ensures MissingFields(form) ==
              (if IsMissing(form, "title") then ["title"] else [])
              + (if IsMissing(form, "description") then ["description"] else [])
              + (if IsMissing(form, "date") then ["date"] else [])
              + (if IsMissing(form, "location") then ["location"] else [])
  {
    FilterMissingCons(form, "location", []);
    FilterMissingCons(form, "date", ["location"]);
    FilterMissingCons(form, "description", ["date", "location"]);
    FilterMissingCons(form, "title", ["description", "date", "location"]);
    assert RequiredFields == ["title"] + ["description", "date", "location"];
  }

  lemma FilterMissingCons(form: map<string, string>, field: string, rest: seq<string>)
    ensures FilterMissing(form, [field] + rest) == (if IsMissing(form, field) then [field] else []) + FilterMissing(form, rest)
  {
    assert ([field] + rest)[1..] == rest;
  }

  /** With nothing missing, the four fields hold non-empty texts. */
  lemma NothingMissing(form: map<string, string>)
    requires MissingFields(form) == []
    ensures "title" in form && "description" in form && "date" in form && "location" in form
    ensures form["title"] != "" && form["description"] != "" && form["date"] != "" && form["location"] != ""
  {
    MissingFieldsExact(form);
  }

  /** `sanitizedEvent`: three trimmed texts and the date, as `Event.create` receives them. */
  function Payload(form: map<string, string>, rt: Runtime): (payload: EventRecord)
    requires "title" in form && "description" in form && "date" in form && "location" in form
  {
    EmptyRecord.(
      title := Some(Trim(form["title"])),
      description := Some(Trim(form["description"])),
      date := Some(rt.dateText(form["date"])),
      location := Some(Trim(form["location"])))
  }

  /**
   * Only `title`, `description`, `date` and `location` are passed, the
   * three texts trimmed; so the schema always rejects the document, naming
   * at least the nine required paths the handler never fills.
   */
  lemma PayloadNeverConforms(form: map<string, string>, rt: Runtime)
    requires "title" in form && "description" in form && "date" in form && "location" in form
    ensures Prepare(Payload(form, rt), rt).Failure?
    ensures Prepare(Payload(form, rt), rt).error.ValidationFailed?
    ensures {Overview, Image, Venue, Time, Mode, Audience, Agenda, Organizer, Tags} <= Prepare(Payload(form, rt), rt).error.paths
  {
    UnfilledPathsRejected(Payload(form, rt), rt);
  }

  /** The payload holds the three trimmed texts and the date, and no other path. */
  lemma PayloadShape(form: map<string, string>, rt: Runtime)
    requires "title" in form && "description" in form && "date" in form && "location" in form
    ensures var p := Payload(form, rt);
      && p.title == Some(Trim(form["title"])) && p.description == Some(Trim(form["description"]))
      && p.location == Some(Trim(form["location"])) && p.date == Some(rt.dateText(form["date"]))
      && PresentFields(p) == {Title, Description, Date, Location}
  {
    var p := Payload(form, rt);
    forall f ensures f in PresentFields(p) <==> f in {Title, Description, Date, Location} {
      match f
      case Title => case Slug => case Description => case Overview => case Image => case Venue => case Location =>
      case Date => case Time => case Mode => case Audience => case Agenda => case Organizer => case Tags =>
    }
  }

  /** The text of a thrown error, as `e.message` gives it. */
  function ErrorMessage(e: SaveError): string {
    match e
    case ValidationFailed(_) => "Event validation failed"
    case InvalidDate => "Invalid time value"
    case DuplicateSlug => "E11000 duplicate key error"
  }

  /** `e instanceof Error ? e.message : 'Unknown'`. */
  function ThrownText(e: Thrown): string {
    match e
    case ErrorObject(message) => message
    case OtherValue => "Unknown"
  }

  function Failed(message: string): Response {
    Response(500, "Event creation failed", [], Some(message), None)
  }

  function BadRequest(message: string, fields: seq<string>): Response {
    Response(400, message, fields, None, None)
  }

  /** The response the handler gives, against the stored events. */
  function PostOutcome(events: seq<StoredEvent>, nextId: EventId, db: Connection, body: FormBody, rt: Runtime): Response {
    if db.ConnectFailed? then Failed(ThrownText(db.thrown))
    else if body.Unreadable? then Failed(ThrownText(body.thrown))
    else
      var form := FromEntries(body.entries);
      var missing := MissingFields(form);
      if |missing| > 0 then BadRequest("Missing required fields", missing)
      else
        NothingMissing(form);
        if !rt.dateIsValid(form["date"]) then BadRequest("Invalid date format", [])
        else match CreateOutcome(events, nextId, Payload(form, rt), rt)
          case Success(created) => Response(201, "Event created successfully", [], None, Some(created))
          case Failure(e) => Failed(ErrorMessage(e))
  }

  /**
   * The handler's outcomes in order: a database or body failure is a 500; a
   * missing field is a 400 listing them, whatever the date; otherwise an
   * invalid date is a 400; otherwise the create fails validation, so the
   * answer is a 500 carrying the validation error and never a 201.
   */
  lemma PostOutcomeMeans(events: seq<StoredEvent>, nextId: EventId, db: Connection, body: FormBody, rt: Runtime)
    ensures var r := PostOutcome(events, nextId, db, body, rt);
      && r.status != 201
      && (r.status == 500 <==>
            (|| db.ConnectFailed? || body.Unreadable?
             || (MissingFields(FromEntries(body.entries)) == [] && "date" in FromEntries(body.entries) &&
                 rt.dateIsValid(FromEntries(body.entries)["date"]))))
      && (r.status == 500 ==> r.message == "Event creation failed" && r.error.Some?)
      && (db.Connected? && body.Entries? && MissingFields(FromEntries(body.entries)) != [] ==>
            r == BadRequest("Missing required fields", MissingFields(FromEntries(body.entries))))
      && (db.Connected? && body.Entries? && MissingFields(FromEntries(body.entries)) == [] &&
            "date" in FromEntries(body.entries) && !rt.dateIsValid(FromEntries(body.entries)["date"]) ==>
            r == BadRequest("Invalid date format", []))
      && (db.Connected? && body.Entries? && MissingFields(FromEntries(body.entries)) == [] &&
            "date" in FromEntries(body.entries) && rt.dateIsValid(FromEntries(body.entries)["date"]) ==>
            r == Failed("Event validation failed"))
  {
    var r := PostOutcome(events, nextId, db, body, rt);
    if db.ConnectFailed? {
      assert r == Failed(ThrownText(db.thrown));
    } else if body.Unreadable? {
      assert r == Failed(ThrownText(body.thrown));
    } else {
      var form := FromEntries(body.entries);
      if MissingFields(form) != [] {
        assert r == BadRequest("Missing required fields", MissingFields(form));
      } else {
        NothingMissing(form);
        if !rt.dateIsValid(form["date"]) {
          assert r == BadRequest("Invalid date format", []);
        } else {
          CreateRefused(events, nextId, form, rt);
          assert r == Failed("Event validation failed");
        }
      }
    }
  }

  /** The create the handler attempts is always refused by validation. */
  lemma CreateRefused(events: seq<StoredEvent>, nextId: EventId, form: map<string, string>, rt: Runtime)
    requires "title" in form && "description" in form && "date" in form && "location" in form
    ensures CreateOutcome(events, nextId, Payload(form, rt), rt).Failure?
    ensures CreateOutcome(events, nextId, Payload(form, rt), rt).error.ValidationFailed?
  {
    PayloadNeverConforms(form, rt);
  }

  /**
   * A connection or body failure reaches the outer `catch`: the response
   * carries the `Error`'s message, or "Unknown" for any other thrown value.
   */
  lemma PostReportsThrown(events: seq<StoredEvent>, nextId: EventId, db: Connection, body: FormBody, rt: Runtime)
    ensures db.ConnectFailed? ==>
              PostOutcome(events, nextId, db, body, rt).error ==
              Some(if db.thrown.ErrorObject? then db.thrown.message else "Unknown")
    ensures db.Connected? && body.Unreadable? ==>
              PostOutcome(events, nextId, db, body, rt).error ==
              Some(if body.thrown.ErrorObject? then body.thrown.message else "Unknown")
  {
  }

  /**
   * `POST(req)` against the events collection. Every path leaves the
   * collection as it was, since the create it attempts is always refused.
   */
  method Post(store: EventStore, db: Connection, body: FormBody, rt: Runtime) returns (response: Response)
    requires store.Valid()
    modifies store
    ensures store.Valid()
    ensures response == PostOutcome(old(store.events), old(store.nextId), db, body, rt)
    ensures store.events == old(store.events) && store.nextId == old(store.nextId)
  {
    if db.ConnectFailed? {
      return Failed(ThrownText(db.thrown));
    }
    if body.Unreadable? {
      return Failed(ThrownText(body.thrown));
    }
    var form := FromEntries(body.entries);
    var missing := MissingFields(form);
    if |missing| > 0 {
      return BadRequest("Missing required fields", missing);
    }
    NothingMissing(form);
    var payload := Payload(form, rt);
    if !rt.dateIsValid(form["date"]) {
      return BadRequest("Invalid date format", []);
    }
    PayloadNeverConforms(form, rt);
    var created := store.Create(payload, rt);
    response := match created
      case Success(e) => Response(201, "Event created successfully", [], None, Some(e))
      case Failure(err) => Failed(ErrorMessage(err));
  }
}
