/**
 * The Event schema: its field rules, its setters, the `pre('save')` hook
 * that derives `slug`, `date` and `time`, and the collection with its unique
 * index on `slug`.
 */
module EventModel {
  import opened Wrappers
  import opened JsText
  import opened Platform

  type EventId = nat

  /** The schema's paths. */
  datatype Field =
    | Title | Slug | Description | Overview | Image | Venue | Location
    | Date | Time | Mode | Audience | Agenda | Organizer | Tags

  const AllFields: set<Field> :=
    {Title, Slug, Description, Overview, Image, Venue, Location, Date, Time, Mode, Audience, Agenda, Organizer, Tags}

  /** An event document; `None` is a path that holds no value. */
  datatype EventRecord = EventRecord(
    title: Option<string>,
    slug: Option<string>,
    description: Option<string>,
    overview: Option<string>,
    image: Option<string>,
    venue: Option<string>,
    location: Option<string>,
    date: Option<string>,
    time: Option<string>,
    mode: Option<string>,
    audience: Option<string>,
    agenda: Option<seq<string>>,
    organizer: Option<string>,
    tags: Option<seq<string>>)

  /** A document with no path set. */
  const EmptyRecord := EventRecord(None, None, None, None, None, None, None, None, None, None, None, None, None, None)

  /** Whether a path holds a value; on a new document these are the paths `isModified` reports. */
  predicate Present(rec: EventRecord, f: Field) {
    match f
    case Title => rec.title.Some?
    case Slug => rec.slug.Some?
    case Description => rec.description.Some?
    case Overview => rec.overview.Some?
    case Image => rec.image.Some?
    case Venue => rec.venue.Some?
    case Location => rec.location.Some?
    case Date => rec.date.Some?
    case Time => rec.time.Some?
    case Mode => rec.mode.Some?
    case Audience => rec.audience.Some?
    case Agenda => rec.agenda.Some?
    case Organizer => rec.organizer.Some?
    case Tags => rec.tags.Some?
  }

  function PresentFields(rec: EventRecord): (paths: set<Field>)
    ensures forall f :: f in paths <==> Present(rec, f)
  {
    set f | f in AllFields && Present(rec, f)
  }

  // ---------------------------------------------------------------- setters

  /** The `trim: true` setter. */
  function TrimmedOpt(v: Option<string>): (r: Option<string>)
    ensures r.Some? <==> v.Some?
    ensures r.Some? ==> IsTrimmed(r.value)
  {
    match v
    case Some(s) => Some(Trim(s))
    case None => None
  }

  /**
   * The casts Mongoose applies when a document is built: the eight `trim: true`
   * text paths hold their trimmed text, the slug its trimmed lower-case text,
   * and the other paths are left as given.
   */
  function ApplySetters(rec: EventRecord): (r: EventRecord)
    ensures r.title == TrimmedOpt(rec.title) && r.description == TrimmedOpt(rec.description)
    ensures r.overview == TrimmedOpt(rec.overview) && r.image == TrimmedOpt(rec.image)
    ensures r.venue == TrimmedOpt(rec.venue) && r.location == TrimmedOpt(rec.location)
    ensures r.audience == TrimmedOpt(rec.audience) && r.organizer == TrimmedOpt(rec.organizer)
    ensures rec.slug.Some? ==> r.slug == Some(TrimLowercase(rec.slug.value))
    ensures r.date == rec.date && r.time == rec.time && r.mode == rec.mode
    ensures r.agenda == rec.agenda && r.tags == rec.tags
  {
    rec.(
      title := TrimmedOpt(rec.title),
      slug := match rec.slug case Some(s) => Some(TrimLowercase(s)) case None => None,
      description := TrimmedOpt(rec.description),
      overview := TrimmedOpt(rec.overview),
      image := TrimmedOpt(rec.image),
      venue := TrimmedOpt(rec.venue),
      location := TrimmedOpt(rec.location),
      audience := TrimmedOpt(rec.audience),
      organizer := TrimmedOpt(rec.organizer))
  }

  // ----------------------------------------------------------------- schema

  /** `required` on a `String` path: a value, and not the empty text. */
  predicate RequiredText(v: Option<string>) {
    v.Some? && |v.value| > 0
  }

  /** `maxlength`, counted in UTF-16 code units as JavaScript's `length` is. */
  predicate WithinLength(v: Option<string>, max: nat) {
    v.None? || Utf16Length(v.value) <= max
  }

  /** `required` plus the validator `v.length > 0` on an array path. */
  predicate NonEmptyList(v: Option<seq<string>>) {
    v.Some? && |v.value| > 0
  }

  const Modes: set<string> := {"online", "offline", "hybrid"}

  /** The rule the schema puts on one path. */
  predicate FieldOk(rec: EventRecord, f: Field) {
    match f
    case Title => RequiredText(rec.title) && WithinLength(rec.title, 100)
    case Slug => true
    case Description => RequiredText(rec.description) && WithinLength(rec.description, 1000)
    case Overview => RequiredText(rec.overview) && WithinLength(rec.overview, 500)
    case Image => RequiredText(rec.image)
    case Venue => RequiredText(rec.venue)
    case Location => RequiredText(rec.location)
    case Date => RequiredText(rec.date)
    case Time => RequiredText(rec.time)
    case Mode => rec.mode.Some? && rec.mode.value in Modes
    case Audience => RequiredText(rec.audience)
    case Agenda => NonEmptyList(rec.agenda)
    case Organizer => RequiredText(rec.organizer)
    case Tags => NonEmptyList(rec.tags)
  }

  /** The document passes schema validation. */
  predicate Conforms(rec: EventRecord) {
    forall f: Field :: FieldOk(rec, f)
  }

  /** The paths a `ValidationError` names. */
  function Violations(rec: EventRecord): (v: set<Field>)
    ensures v == {} <==> Conforms(rec)
    ensures forall f :: f in v <==> !FieldOk(rec, f)
  {
    NoViolationsIffConforms(rec);
    set f | f in AllFields && !FieldOk(rec, f)
  }

  lemma NoViolationsIffConforms(rec: EventRecord)
    ensures (set f | f in AllFields && !FieldOk(rec, f)) == {} <==> Conforms(rec)
  {
    EveryFieldListed();
    var v := set f | f in AllFields && !FieldOk(rec, f);
    if v == {} {
      forall f ensures FieldOk(rec, f) {
        assert f !in v;
      }
    } else {
      var f :| f in v;
    }
  }

  lemma EveryFieldListed()
    ensures forall f :: f in AllFields
  {
    forall f ensures f in AllFields {
      match f
      case Title => case Slug => case Description => case Overview => case Image => case Venue => case Location =>
      case Date => case Time => case Mode => case Audience => case Agenda => case Organizer => case Tags =>
    }
  }

  /** A conforming document has every required path, non-empty lists, a known mode and the length limits. */
  lemma ConformsMeans(rec: EventRecord)
    requires Conforms(rec)
    ensures rec.title.Some? && 0 < |rec.title.value| && Utf16Length(rec.title.value) <= 100
    ensures rec.description.Some? && 0 < |rec.description.value| && Utf16Length(rec.description.value) <= 1000
    ensures rec.overview.Some? && 0 < |rec.overview.value| && Utf16Length(rec.overview.value) <= 500
    ensures rec.image.Some? && rec.image.value != "" && rec.venue.Some? && rec.venue.value != ""
    ensures rec.location.Some? && rec.location.value != ""
    ensures rec.date.Some? && rec.date.value != "" && rec.time.Some? && rec.time.value != ""
    ensures rec.audience.Some? && rec.audience.value != "" && rec.organizer.Some? && rec.organizer.value != ""
    ensures rec.mode == Some("online") || rec.mode == Some("offline") || rec.mode == Some("hybrid")
    ensures rec.agenda.Some? && rec.agenda.value != [] && rec.tags.Some? && rec.tags.value != []
  {
    assert FieldOk(rec, Title) && FieldOk(rec, Description) && FieldOk(rec, Overview);
    assert FieldOk(rec, Image) && FieldOk(rec, Venue) && FieldOk(rec, Location);
    assert FieldOk(rec, Date) && FieldOk(rec, Time) && FieldOk(rec, Mode);
    assert FieldOk(rec, Audience) && FieldOk(rec, Organizer) && FieldOk(rec, Agenda) && FieldOk(rec, Tags);
  }

  /** A text path given no value, or only whitespace. */
  predicate Blank(v: Option<string>) {
    v.None? || AllSpace(v.value)
  }

  /** The verdict on a `required`, `trim: true` text path with a `maxlength`. */
  predicate RefusedText(v: Option<string>, max: nat) {
    Blank(v) || Utf16Length(Trim(v.value)) > max
  }

  /** A `trim: true` text path with a limit is refused exactly when the input is missing, blank or, trimmed, over the limit. */
  lemma TrimmedTextJudged(doc: EventRecord, f: Field, stored: Option<string>, raw: Option<string>, max: nat)
    requires FieldOk(doc, f) == (RequiredText(stored) && WithinLength(stored, max)) && stored == TrimmedOpt(raw)
    ensures f in Violations(doc) <==> RefusedText(raw, max)
  {
    if raw.Some? {
      TrimEmptyIffAllSpace(raw.value);
    }
  }

  /** A `trim: true` text path without a limit is refused exactly when the input is missing or blank. */
  lemma TrimmedRequiredJudged(doc: EventRecord, f: Field, stored: Option<string>, raw: Option<string>)
    requires FieldOk(doc, f) == RequiredText(stored) && stored == TrimmedOpt(raw)
    ensures f in Violations(doc) <==> Blank(raw)
  {
    if raw.Some? {
      TrimEmptyIffAllSpace(raw.value);
    }
  }

  /**
   * Validation judges the trimmed text: `title`, `description` and
   * `overview` are refused exactly when missing, whitespace only, or over
   * 100, 1000 and 500 UTF-16 units once trimmed.
   */
  lemma LimitedTextsJudgedTrimmed(input: EventRecord)
    ensures Title in Violations(ApplySetters(input)) <==> RefusedText(input.title, 100)
    ensures Description in Violations(ApplySetters(input)) <==> RefusedText(input.description, 1000)
    ensures Overview in Violations(ApplySetters(input)) <==> RefusedText(input.overview, 500)
  {
    var doc := ApplySetters(input);
    TrimmedTextJudged(doc, Title, doc.title, input.title, 100);
    TrimmedTextJudged(doc, Description, doc.description, input.description, 1000);
    TrimmedTextJudged(doc, Overview, doc.overview, input.overview, 500);
  }

  /**
   * `image`, `venue`, `location`, `audience` and `organizer` are refused
   * exactly when missing or whitespace only: `required` sees the trimmed text.
   */
  lemma RequiredTextsJudgedTrimmed(input: EventRecord)
    ensures Image in Violations(ApplySetters(input)) <==> Blank(input.image)
    ensures Venue in Violations(ApplySetters(input)) <==> Blank(input.venue)
    ensures Location in Violations(ApplySetters(input)) <==> Blank(input.location)
    ensures Audience in Violations(ApplySetters(input)) <==> Blank(input.audience)
    ensures Organizer in Violations(ApplySetters(input)) <==> Blank(input.organizer)
  {
    RequiredTextsJudged(ApplySetters(input), input);
  }

  lemma RequiredTextsJudged(doc: EventRecord, input: EventRecord)
    requires doc.image == TrimmedOpt(input.image) && doc.venue == TrimmedOpt(input.venue)
    requires doc.location == TrimmedOpt(input.location) && doc.audience == TrimmedOpt(input.audience)
    requires doc.organizer == TrimmedOpt(input.organizer)
    ensures Image in Violations(doc) <==> Blank(input.image)
    ensures Venue in Violations(doc) <==> Blank(input.venue)
    ensures Location in Violations(doc) <==> Blank(input.location)
    ensures Audience in Violations(doc) <==> Blank(input.audience)
    ensures Organizer in Violations(doc) <==> Blank(input.organizer)
  {
    TrimmedRequiredJudged(doc, Image, doc.image, input.image);
    TrimmedRequiredJudged(doc, Venue, doc.venue, input.venue);
    TrimmedRequiredJudged(doc, Location, doc.location, input.location);
    TrimmedRequiredJudged(doc, Audience, doc.audience, input.audience);
    TrimmedRequiredJudged(doc, Organizer, doc.organizer, input.organizer);
  }

  // ---------------------------------------------------------------- pre-save

  datatype SaveError =
    | ValidationFailed(paths: set<Field>)   // the schema rejected these paths
    | InvalidDate                           // `toISOString` threw a RangeError
    | DuplicateSlug                         // the unique index on `slug` (E11000)

  /**
   * What the `pre('save')` hook makes of a validated document, given which
   * paths are modified: `slug` from the title, `date` in ISO day form and
   * `time` in 24-hour form, each only when its source path is modified.
   */
  function PreSaveHook(rec: EventRecord, modified: set<Field>, rt: Runtime): Result<EventRecord, SaveError>
    requires Conforms(rec)
  {
    ConformsMeans(rec);
    var slug := if Title in modified then Some(TrimLowercase(rt.slugify(rec.title.value))) else rec.slug;
    if Date in modified && rt.isoDay(rec.date.value).None? then
      Failure(InvalidDate)
    else
      var date := if Date in modified then Some(rt.isoDay(rec.date.value).value) else rec.date;
      var time := if Time in modified then Some(rt.clockTime(rec.time.value)) else rec.time;
      Success(rec.(slug := slug, date := date, time := time))
  }

  /**
   * The hook keeps a document valid and changes only `slug`, `date` and
   * `time`; the slug it derives is trimmed and has no upper-case letter.
   */
  lemma PreSaveKeepsConformance(rec: EventRecord, modified: set<Field>, rt: Runtime)
    requires Conforms(rec)
    requires PreSaveHook(rec, modified, rt).Success?
    ensures Conforms(PreSaveHook(rec, modified, rt).value)
    ensures PreSaveHook(rec, modified, rt).value == rec.(
              slug := PreSaveHook(rec, modified, rt).value.slug,
              date := PreSaveHook(rec, modified, rt).value.date,
              time := PreSaveHook(rec, modified, rt).value.time)
    ensures Title in modified ==>
              (PreSaveHook(rec, modified, rt).value.slug.Some? &&
               IsTrimmed(PreSaveHook(rec, modified, rt).value.slug.value) &&
               NoUpper(PreSaveHook(rec, modified, rt).value.slug.value))
  {
    var out := PreSaveHook(rec, modified, rt).value;
    forall f: Field ensures FieldOk(out, f) {
      assert FieldOk(rec, f);
    }
  }

  /** A document as the hook sees it: its paths and which of them are modified. */
  class EventDocument {
    var data: EventRecord
    const modified: set<Field>

    constructor (data: EventRecord, modified: set<Field>)
      ensures this.data == data && this.modified == modified
    {
      this.data := data;
      this.modified := modified;
    }

    /** `eventSchema.pre('save', ...)`: `None` is the call to `next()`, `Some` the error it throws. */
    method PreSave(rt: Runtime) returns (failure: Option<SaveError>)
      requires Conforms(data)
      modifies this
      ensures failure.None? <==> PreSaveHook(old(data), modified, rt).Success?
      ensures failure.None? ==> data == PreSaveHook(old(data), modified, rt).value
      ensures failure.Some? ==> failure.value == InvalidDate
      ensures data == old(data).(slug := data.slug, date := data.date, time := data.time)
      ensures Title in modified && old(data).title.Some? ==> data.slug == Some(TrimLowercase(rt.slugify(old(data).title.value)))
      ensures Title !in modified ==> data.slug == old(data).slug
      ensures Date !in modified ==> data.date == old(data).date
      ensures Time !in modified || failure.Some? ==> data.time == old(data).time
    {
      ConformsMeans(data);
      if Title in modified {
        data := data.(slug := Some(TrimLowercase(rt.slugify(data.title.value))));
      }
      if Date in modified {
        var day := rt.isoDay(data.date.value);
        if day.None? {
          return Some(InvalidDate);
        }
        data := data.(date := Some(day.value));
      }
      if Time in modified {
        data := data.(time := Some(rt.clockTime(data.time.value)));
      }
      failure := None;
    }
  }

  /**
   * `doc.save()` up to the insert: the document is built through the
   * setters, validated, and handed to the pre-save hook with the paths that
   * hold a value marked modified, as on a new document.
   */
  method Save(input: EventRecord, rt: Runtime) returns (r: Result<EventRecord, SaveError>)
    ensures r == Prepare(input, rt)
  {
    var rec := ApplySetters(input);
    if !Conforms(rec) {
      return Failure(ValidationFailed(Violations(rec)));
    }
    var doc := new EventDocument(rec, PresentFields(rec));
    var failure := doc.PreSave(rt);
    if failure.Some? {
      return Failure(failure.value);
    }
    r := Success(doc.data);
  }

  /**
   * A prepared document holds the trimmed texts of the input, and those
   * texts are not blank and keep to the length limits.
   */
  lemma PrepareTrims(input: EventRecord, rt: Runtime)
    requires Prepare(input, rt).Success?
    ensures var out := Prepare(input, rt).value;
      && input.title.Some? && out.title == Some(Trim(input.title.value))
      && input.description.Some? && out.description == Some(Trim(input.description.value))
      && input.overview.Some? && out.overview == Some(Trim(input.overview.value))
      && input.image.Some? && out.image == Some(Trim(input.image.value))
      && input.venue.Some? && out.venue == Some(Trim(input.venue.value))
      && input.location.Some? && out.location == Some(Trim(input.location.value))
      && input.audience.Some? && out.audience == Some(Trim(input.audience.value))
      && input.organizer.Some? && out.organizer == Some(Trim(input.organizer.value))
    ensures !RefusedText(input.title, 100) && !RefusedText(input.description, 1000) && !RefusedText(input.overview, 500)
  {
    var doc := ApplySetters(input);
    ConformsMeans(doc);
    PreSaveKeepsConformance(doc, PresentFields(doc), rt);
    LimitedTextsJudgedTrimmed(input);
  }

  // ------------------------------------------------------------- collection

  /** A saved event with the `_id` the database gave it. */
  datatype StoredEvent = StoredEvent(id: EventId, event: EventRecord)

  /** What a stored event satisfies: it passed validation and its slug went through the setters. */
  predicate StoredShape(rec: EventRecord) {
    Conforms(rec) && rec.slug.Some? && IsTrimmed(rec.slug.value) && NoUpper(rec.slug.value)
  }

  /** The unique index on `slug`: no two stored events share one (a missing slug counts as a value). */
  predicate SlugsDistinct(events: seq<StoredEvent>) {
    forall i, j | 0 <= i < j < |events| :: events[i].event.slug != events[j].event.slug
  }

  predicate SlugTaken(events: seq<StoredEvent>, slug: Option<string>) {
    exists i | 0 <= i < |events| :: events[i].event.slug == slug
  }

  /** Building the document, validating it and running the hook, in the order Mongoose does on `save`. */
  function Prepare(input: EventRecord, rt: Runtime): Result<EventRecord, SaveError> {
    var doc := ApplySetters(input);
    if !Conforms(doc) then Failure(ValidationFailed(Violations(doc)))
    else PreSaveHook(doc, PresentFields(doc), rt)
  }

  /** `Event.create(input)` against the stored events: prepare, then the unique index, then insert. */
  function CreateOutcome(events: seq<StoredEvent>, nextId: EventId, input: EventRecord, rt: Runtime): Result<StoredEvent, SaveError> {
    match Prepare(input, rt)
    case Failure(e) => Failure(e)
    case Success(rec) => if SlugTaken(events, rec.slug) then Failure(DuplicateSlug) else Success(StoredEvent(nextId, rec))
  }

  /**
   * A successful create yields a document of stored shape whose slug is new,
   * so the collection keeps its slugs pairwise distinct; the slug is derived
   * from the title exactly once, with no retry or suffix.
   */
  lemma CreateKeepsSlugsDistinct(events: seq<StoredEvent>, nextId: EventId, input: EventRecord, rt: Runtime)
    requires SlugsDistinct(events)
    requires CreateOutcome(events, nextId, input, rt).Success?
    ensures StoredShape(CreateOutcome(events, nextId, input, rt).value.event)
    ensures CreateOutcome(events, nextId, input, rt).value.id == nextId
    ensures !SlugTaken(events, CreateOutcome(events, nextId, input, rt).value.event.slug)
    ensures SlugsDistinct(events + [CreateOutcome(events, nextId, input, rt).value])
    ensures input.title.Some? &&
              CreateOutcome(events, nextId, input, rt).value.event.slug == Some(TrimLowercase(rt.slugify(Trim(input.title.value))))
  {
    var doc := ApplySetters(input);
    ConformsMeans(doc);
    PreSaveKeepsConformance(doc, PresentFields(doc), rt);
    var stored := CreateOutcome(events, nextId, input, rt).value;
    var all := events + [stored];
    forall i, j | 0 <= i < j < |all| ensures all[i].event.slug != all[j].event.slug {
      if j == |events| {
        assert all[i] == events[i];
      } else {
        assert all[i] == events[i] && all[j] == events[j];
      }
    }
  }

  /**
   * A document missing any of `overview`, `image`, `venue`, `time`, `mode`,
   * `audience`, `agenda`, `organizer` and `tags` is refused by validation,
   * and the error names every one of them that is missing.
   */
  lemma UnfilledPathsRejected(input: EventRecord, rt: Runtime)
    requires input.overview.None? && input.image.None? && input.venue.None? && input.time.None? && input.mode.None?
    requires input.audience.None? && input.agenda.None? && input.organizer.None? && input.tags.None?
    ensures Prepare(input, rt).Failure? && Prepare(input, rt).error.ValidationFailed?
    ensures {Overview, Image, Venue, Time, Mode, Audience, Agenda, Organizer, Tags} <= Prepare(input, rt).error.paths
  {
    var doc := ApplySetters(input);
    UnfilledPathsViolate(doc);
    PrepareRejects(input, rt);
  }

  lemma UnfilledPathsViolate(doc: EventRecord)
    requires doc.overview.None? && doc.image.None? && doc.venue.None? && doc.time.None? && doc.mode.None?
    requires doc.audience.None? && doc.agenda.None? && doc.organizer.None? && doc.tags.None?
    ensures !Conforms(doc)
    ensures {Overview, Image, Venue, Time, Mode, Audience, Agenda, Organizer, Tags} <= Violations(doc)
  {
    assert !FieldOk(doc, Overview) && !FieldOk(doc, Image) && !FieldOk(doc, Venue);
    assert !FieldOk(doc, Time) && !FieldOk(doc, Mode) && !FieldOk(doc, Audience);
    assert !FieldOk(doc, Agenda) && !FieldOk(doc, Organizer) && !FieldOk(doc, Tags);
  }

  /** A document the schema rejects is refused with the paths it violates, before the hook runs. */
  lemma PrepareRejects(input: EventRecord, rt: Runtime)
    requires !Conforms(ApplySetters(input))
    ensures Prepare(input, rt) == Failure(ValidationFailed(Violations(ApplySetters(input))))
  {
  }

  /** A create whose derived slug is already stored is rejected. */
  lemma CreateRejectsTakenSlug(events: seq<StoredEvent>, nextId: EventId, input: EventRecord, rt: Runtime, i: nat)
    requires Prepare(input, rt).Success?
    requires i < |events| && events[i].event.slug == Prepare(input, rt).value.slug
    ensures CreateOutcome(events, nextId, input, rt) == Failure(DuplicateSlug)
  {
  }

  /**
   * What the collection keeps: every stored event has stored shape, slugs
   * are pairwise distinct, and ids are issued in increasing order below the
   * next one to hand out.
   */
  predicate StoreInvariant(events: seq<StoredEvent>, nextId: EventId) {
    && SlugsDistinct(events)
    && (forall i | 0 <= i < |events| :: events[i].id < nextId && StoredShape(events[i].event))
    && (forall i, j | 0 <= i < j < |events| :: events[i].id < events[j].id)
  }

  /** Appending an event of stored shape, with a new slug and the next id, keeps the collection's invariant. */
  lemma AppendKeepsInvariant(events: seq<StoredEvent>, nextId: EventId, stored: StoredEvent)
    requires StoreInvariant(events, nextId)
    requires stored.id == nextId && StoredShape(stored.event) && !SlugTaken(events, stored.event.slug)
    ensures StoreInvariant(events + [stored], nextId + 1)
  {
    var all := events + [stored];
    forall i, j | 0 <= i < j < |all| ensures all[i].event.slug != all[j].event.slug {
      assert all[i] == events[i];
      if j < |events| {
        assert all[j] == events[j];
      }
    }
    forall i | 0 <= i < |all| ensures all[i].id < nextId + 1 && StoredShape(all[i].event) {
      if i < |events| {
        assert all[i] == events[i];
      }
    }
    forall i, j | 0 <= i < j < |all| ensures all[i].id < all[j].id {
      assert all[i] == events[i];
      if j < |events| {
        assert all[j] == events[j];
      }
    }
  }

  /** The events collection. */
  class EventStore {
    var events: seq<StoredEvent>
    var nextId: EventId

    ghost predicate Valid()
      reads this
    {
      StoreInvariant(events, nextId)
    }

    constructor ()
      ensures Valid() && events == [] && nextId == 0
    {
      events := [];
      nextId := 0;
    }

    /** `Event.create(input)`: the new event is appended, or the collection is left as it was. */
    method Create(input: EventRecord, rt: Runtime) returns (r: Result<StoredEvent, SaveError>)
      requires Valid()
      modifies this
      ensures Valid()
      ensures r == CreateOutcome(old(events), old(nextId), input, rt)
      ensures r.Success? ==> events == old(events) + [r.value] && nextId == old(nextId) + 1
      ensures r.Failure? ==> events == old(events) && nextId == old(nextId)
    {
      var prepared := Save(input, rt);
      if prepared.Failure? {
        return Failure(prepared.error);
      }
      if SlugTaken(events, prepared.value.slug) {
        return Failure(DuplicateSlug);
      }
      r := Success(StoredEvent(nextId, prepared.value));
      CreateKeepsSlugsDistinct(events, nextId, input, rt);
      AppendKeepsInvariant(events, nextId, r.value);
      events := events + [r.value];
      nextId := nextId + 1;
    }
  }
}
