# events-connect: a verified model of the event and booking rules

This project models, in Dafny, the logic behind the events-connect web
application, a Next.js and Mongoose site. Visitors browse events, open an
event page by its slug and book a seat with their email address. Organisers
create events through a form post. The model covers:

- **Input sanitising** (`lib/utils.ts`): `sanitizeString` and
  `safeParseArrayString`, over a model of JavaScript values and of `trim`.
  `JSON.parse` is an input: its outcome is a function argument.
- **The Event schema** (`database/event.model.ts`). This covers the setters
  (trimming; a lower-cased slug), the field rules (required paths, length
  limits, the `mode` enum, non-empty `agenda` and `tags`) and the
  `pre('save')` hook that derives `slug`, `date` and `time`. The hook is a
  method on a document object. The collection is an `EventStore` class whose
  invariant includes the unique slug index.
- **The Booking schema** (`database/booking.model.ts`). This covers email
  normalisation (trim, then lower-case), the email-shape regex (proved equal
  to a character-level check), the referential `pre('save')` check and the
  unique `(eventId, email)` index.
- **The booking actions** (`lib/actions/booking-actions.ts`):
  `createBooking`, `countBooking` and `isUserBookedBefore` are methods of a
  `BookingStore` class. Each `try/catch` becomes a fallback result.
- **Similar events** (`lib/actions/event.actions.ts`): a read-only
  lookup by slug, then a filter with a limit of 3.
- **The event-creation handler** (`app/api/events/route.ts`): the chain of
  early returns, as `Response` values. The handler passes only four fields to
  `Event.create`, and the schema requires nine more. So the create always
  fails validation and the handler can never answer 201. This is proved.
- **The event page's slug gate** (`components/EventContent.tsx`): the slug
  regex, proved equal to a character-level check, and the `notFound` exits.

The model treats these library calls as uninterpreted function parameters
(`Platform.Runtime`): `slugify`, `new Date(...)` with `toISOString` and
`toLocaleTimeString`, and the `Date`-to-text cast. Every property holds
whatever those functions do. The database connection is a `Connection`
argument: `Connected`, or a failure that carries the thrown value (an `Error`
with its message, or any other value).

Modules, one per source file plus shared helpers: `Wrappers` (Option,
Result), `Platform` (foreign calls), `JsText` (JavaScript whitespace, `trim`,
ASCII `toLowerCase`, UTF-16 length), `Utils`, `EventModel`, `BookingModel`,
`BookingActions`, `EventActions`, `EventsRoute` and `EventContent`.

Facts about the code that shape the model:

- `pre('save')` computes `slugify(title)` once, with no retry
  (database/event.model.ts:123). A clashing slug is refused by the unique
  index (database/event.model.ts:148).
- Mongoose casts an equality filter through the path's setters. So
  `Booking.findOne({ eventId, email })` (lib/actions/booking-actions.ts:18)
  looks for the trimmed, lower-cased email, and `Event.findOne({ slug })`
  (lib/actions/event.actions.ts:11) looks for the trimmed, lower-cased slug.
- The creation handler checks four fields and the date's validity. It does
  not handle an image, refuse past dates or choose a slug. It then writes a
  record with only those four paths, which the schema refuses.
- `getSimilarEventsBySlug` has no `sort`, so MongoDB does not fix which three
  matching events it returns. The model reads the collection in stored
  (insertion) order.

## Model

| member | source | states |
|---|---|---|
| JsText.Trim | lib/utils.ts:10 | `trim` leaves no whitespace at either end and never lengthens the text |
| JsText.TrimIdempotent | lib/utils.ts:10 | trimming twice is trimming once |
| JsText.TrimEmptyIffAllSpace | lib/utils.ts:16 | `input.trim().length === 0` exactly when every character is whitespace |
| JsText.LowerTrimCommute | database/booking.model.ts:23-24 | the order of the `trim` and `lowercase` setters does not matter |
| Utils.SanitizeString | lib/utils.ts:9-11 | the result is trimmed; every falsy value gives the empty text |
| Utils.SanitizeStringOfString | lib/utils.ts:10 | on a string, `sanitizeString` is exactly `trim` |
| Utils.SanitizeStringIdempotent | lib/utils.ts:10 | sanitising a sanitised value changes nothing |
| Utils.Clean | lib/utils.ts:27-29 | `.map(sanitizeString).filter(...)` keeps only non-empty trimmed texts and never grows the list |
| Utils.CleanSelects | lib/utils.ts:27-29 | the output is the order-preserving selection of sanitised elements; every element left out sanitises to the empty text |
| Utils.CleanMembership | lib/utils.ts:27-29 | a text is in the output exactly when it is non-empty and the sanitised form of some element |
| Utils.CleanAppend | lib/utils.ts:27-29 | cleaning distributes over concatenation of the parsed array |
| Utils.SafeParseArrayString | lib/utils.ts:15-38 | a non-string or blank input, a failed parse and a non-array parse all give `[]`; an array gives its cleaned elements; every output element is non-empty and trimmed |
| JsText.TrimLowercase | database/event.model.ts:35-36 | the `trim` and `lowercase` setters of the slug (and of the booking email) give a trimmed text with no upper-case letter, never longer than the input |
| EventModel.ApplySetters | database/event.model.ts:26-112 | each of the eight `trim: true` text paths holds its trimmed text, the slug its trimmed lower-case text, and `date`, `time`, `mode`, `agenda` and `tags` are left as given |
| EventModel.Violations | database/event.model.ts:26-112 | a path is reported exactly when its rule fails; no path is reported exactly when the document conforms |
| EventModel.ConformsMeans | database/event.model.ts:26-112 | a conforming document has every required path with a non-empty text, the limits 100/1000/500 in UTF-16 units, a mode among online/offline/hybrid, and non-empty agenda and tags |
| EventModel.LimitedTextsJudgedTrimmed | database/event.model.ts:26-55 | after the setters, `title`, `description` and `overview` are reported exactly when the input is absent, all whitespace, or longer than 100/1000/500 UTF-16 units once trimmed |
| EventModel.RequiredTextsJudgedTrimmed | database/event.model.ts:56-104 | after the setters, `image`, `venue`, `location`, `audience` and `organizer` are reported exactly when the input is absent or all whitespace |
| EventModel.PrepareTrims | database/event.model.ts:26-112 | a document ready to insert holds the trimmed input of the eight trimmed paths, and its title, description and overview inputs were neither blank nor over their limits once trimmed |
| EventModel.UnfilledPathsRejected | database/event.model.ts:47-112 | a document lacking overview, image, venue, time, mode, audience, agenda, organizer and tags fails validation naming all nine |
| EventModel.EventDocument.PreSave | database/event.model.ts:120-145 | the hook sets `slug` from `slugify(title)` only when `title` is modified, rewrites `date` only when `date` is modified (failing on an invalid date) and `time` only when `time` is modified, and changes no other path |
| EventModel.PreSaveKeepsConformance | database/event.model.ts:120-145 | after the hook the document still conforms, only slug, date and time differ, and a derived slug is trimmed and lower-case |
| EventModel.Save | database/event.model.ts:120-145 | building, validating and running the hook gives the result of the save specification |
| EventModel.CreateKeepsSlugsDistinct | database/event.model.ts:122-148 | a successful create stores a valid document whose slug is `slugify` of the trimmed title, new to the collection, so slugs stay pairwise distinct |
| EventModel.CreateRejectsTakenSlug | database/event.model.ts:148 | a document whose slug is already stored is refused by the unique index |
| EventModel.AppendKeepsInvariant | database/event.model.ts:148 | appending a valid event with a new slug and the next id keeps the collection invariant |
| EventModel.EventStore.Create | database/event.model.ts:148 | `Event.create` appends exactly the prepared event or leaves the collection unchanged, and keeps the invariant |
| BookingModel.ValidEmailIffPattern | database/booking.model.ts:26-29 | the character-level email check accepts exactly what `^[^\s@]+@[^\s@]+\.[^\s@]+$` accepts |
| BookingModel.AcceptedEmailHasOneAt | database/booking.model.ts:27 | an accepted email has exactly one '@' and no whitespace |
| JsText.TrimLowercaseIdempotent | database/booking.model.ts:23-24 | normalising an email twice is normalising it once |
| JsText.TrimLowercaseOfNormal | database/booking.model.ts:23-24 | a trimmed email without upper-case letters is its own normal form |
| BookingModel.BookingViolations | database/booking.model.ts:14-33 | `eventId` is reported exactly when absent; `email` exactly when absent or not of email shape |
| BookingModel.ReferenceCheck | database/booking.model.ts:41-49 | an unmodified `eventId` skips the check; a modified one passes exactly when the event exists |
| BookingModel.PrepareBookingMeans | database/booking.model.ts:14-49 | a booking document is ready to insert exactly when both paths are present, the normalised email has the shape and the event exists |
| BookingModel.SaveOutcomeMeans | database/booking.model.ts:14-58 | a save succeeds exactly when the paths are present, the normalised email matches the regex, the event exists and the pair is new; it stores the normalised email |
| BookingModel.SavedIsStorable | database/booking.model.ts:41-58 | what a successful save returns references an existing event, has a valid, trimmed, lower-case email and is not yet stored |
| BookingModel.AppendKeepsBookingInvariant | database/booking.model.ts:58 | appending a booking with a valid normalised email and a new pair keeps every stored email valid and normalised and every pair unique |
| BookingModel.SaveKeepsInvariant | database/booking.model.ts:23-58 | a successful save keeps the collection invariant: valid normalised emails and unique `(eventId, email)` pairs |
| BookingActions.CreateBookingMeans | lib/actions/booking-actions.ts:6-38 | success exactly when the database is up, no booking of the event has the normalised email, the normalised email matches the regex and the event exists; a message exactly when the database is up and such a booking exists, and it is "You have already booked this event" |
| BookingActions.BookingsForMembership | lib/actions/booking-actions.ts:44 | a booking is counted for an event exactly when stored with that event id |
| BookingActions.BookingsForAppend | lib/actions/booking-actions.ts:44 | a new booking adds one to its own event's list and leaves other events' lists unchanged |
| BookingActions.RepeatBookingRejected | lib/actions/booking-actions.ts:18-33 | after a successful booking the pair is found, a repeat with the email in any casing or surrounding whitespace answers "already booked", and only that event's count grows, by one |
| BookingActions.BookingStore.Save | lib/actions/booking-actions.ts:27-31 | `Booking.create` appends exactly the saved booking or nothing, keeping the invariant |
| BookingActions.BookingStore.CreateBooking | lib/actions/booking-actions.ts:6-38 | the result is the specified outcome for the given ids of stored events; on success exactly one booking with the normalised email is appended, otherwise the bookings are unchanged; the invariant is kept |
| BookingActions.BookingStore.CountBooking | lib/actions/booking-actions.ts:40-51 | the count is the number of bookings of the event, 0 when the database fails |
| BookingActions.BookingStore.IsUserBookedBefore | lib/actions/booking-actions.ts:53-64 | true exactly when the database is up and the event has a booking with the trimmed, lower-cased email |
| EventActions.FindBySlug | lib/actions/event.actions.ts:11 | the event found is stored with that slug; none is found only when no stored event has it |
| EventActions.FindLimited | lib/actions/event.actions.ts:17-23 | at most `limit` events, each stored, not the source and sharing a tag |
| EventActions.FindLimitedTakesMatching | lib/actions/event.actions.ts:17-23 | the limited scan returns the first `limit` events that pass the filter |
| EventActions.MatchingMembership | lib/actions/event.actions.ts:17-20 | an event passes the filter exactly when it is stored, is not the source and shares a tag |
| EventActions.SimilarEvents | lib/actions/event.actions.ts:7-30 | a database failure, or a slug whose trimmed lower-case form no event has, gives `[]` |
| EventActions.SimilarEventsMeans | lib/actions/event.actions.ts:11-25 | for the event found by the trimmed lower-case slug: at most three events, none the source, each sharing a tag; they are the first three such in stored order, and all of them when fewer than three exist |
| EventsRoute.FromEntries | app/api/events/route.ts:13 | the keys are exactly the names of the entries |
| EventsRoute.FromEntriesLastWins | app/api/events/route.ts:13 | a name takes the value of its last entry |
| EventsRoute.MissingFieldsExact | app/api/events/route.ts:24-25 | the missing list is exactly those of title, description, date, location that are absent or empty, in that order |
| EventsRoute.NothingMissing | app/api/events/route.ts:24-34 | with nothing missing, the four fields hold non-empty texts |
| EventsRoute.PayloadShape | app/api/events/route.ts:37-43 | the payload holds the trimmed title, description and location and the date, and no other path |
| EventsRoute.PayloadNeverConforms | app/api/events/route.ts:37-53 | `Event.create` of the payload always fails validation, naming the nine paths the handler never fills |
| EventsRoute.PostOutcomeMeans | app/api/events/route.ts:5-75 | the status is never 201; 500 exactly for a database or body failure or after the refused create; missing fields give 400 with the list whatever the date; an invalid date gives 400 only after presence passes |
| EventsRoute.CreateRefused | app/api/events/route.ts:53 | `Event.create` of the handler's payload fails with a validation error |
| EventsRoute.PostReportsThrown | app/api/events/route.ts:62-73 | a connection or body failure answers with the thrown `Error`'s message, or "Unknown" for any other thrown value |
| EventsRoute.Post | app/api/events/route.ts:5-75 | the response is the specified one and the events collection is unchanged on every path |
| EventContent.SplitRunsJoin | components/EventContent.tsx:76 | a well-formed slug splits at its hyphens into runs that join back into it |
| EventContent.JoinRunsWellFormed | components/EventContent.tsx:76 | runs joined by single hyphens form a well-formed slug |
| EventContent.WellFormedIffPattern | components/EventContent.tsx:76 | the character-level slug check accepts exactly what `^[a-z0-9]+(?:-[a-z0-9]+)*$` accepts |
| EventContent.PatternRejects | components/EventContent.tsx:76 | the regex rejects the empty slug, upper case and other characters outside `[a-z0-9-]`, a leading or trailing hyphen, and `--` |
| EventContent.EventPage | components/EventContent.tsx:75-87 | a slug that fails the regex gives the not-found page |
| EventContent.EventPageMeans | components/EventContent.tsx:76-87 | an invalid slug gives not-found whatever the lookup returns, so no lookup matters; a valid slug shows the looked-up event, or not-found when there is none |

## Left out

- Library internals: `slugify`, `new Date` parsing, `toISOString`, `toLocaleTimeString` and the `Date`-to-text cast are uninterpreted parameters, as is `JSON.parse` (its outcome is an argument).
- Number-to-text conversion in `String(value)`: a number carries the text JavaScript would give it rather than deriving it.
- `toLowerCase` is modelled on ASCII letters only; Unicode case mapping is not modelled.
- `dbConnect` and database faults: each action takes one `Connection` value, whose failure carries the thrown value. A fault in an individual query (`findOne`, `countDocuments`, `Event.exists`) is not told apart from a connection failure, because each leads to the same `catch`.
- MongoDB `ObjectId`: event ids are natural numbers handed out by a counter. The cast of a client-supplied id string, and the `CastError` it can raise, are not modelled.
- The `slug` key passed to `Booking.create`: the strict schema drops it, so the model ignores it.
- The `createdAt`/`updatedAt` timestamps (they need a clock), the non-unique indexes and the model registries.
- Concurrency: the check-then-insert race in `createBooking` and parallel saves. Every operation runs sequentially, and the unique-index invariants stand in for the indexes.
- Next.js plumbing: `NextResponse`, the request object and the throwing `notFound()` become values (`Response`, `FormBody`, `Page`). File uploads in the form are not modelled; entries are texts.
- The "Invalid form data format" branch (app/api/events/route.ts:13-21): `Object.fromEntries` over form entries does not throw, so the branch is unreachable and not modelled.
- EventsRoute.ErrorMessage gives only the leading text of the error Mongoose or `Date` throws, not its full wording.
- `getEventBySlug` is not shown in the source: it is a lookup argument of `EventContent.EventPage`.
- The JSX of `EventContent`, the other UI components, `cn`, the seed script, the constant data and the analytics set-up.
- SimilarEventsMeans: "the first three" is in stored (insertion) order. The query has no `sort`, so MongoDB's actual order is unspecified and not modelled.
- Event deletion and a changing events collection inside the booking actions: the events that exist are a set argument of `BookingStore.Save` and `BookingStore.CreateBooking`, so a later call sees events created since. A booking's event is checked when it is saved, and the booking invariant does not mention events, since none are ever deleted.
- The `pre('save')` hook is modelled for any set of modified paths. Only new documents are created, and on them the modified paths are the ones that hold a value; updates to stored events are not modelled.
