/**
 * `getSimilarEventsBySlug`: a read-only lookup of the source event by slug,
 * then the first three other events that share a tag with it. The query has
 * no `sort`; the model reads the collection in stored (insertion) order.
 */
module EventActions {
  import opened Wrappers
  import opened JsText
  import opened Platform
  import opened EventModel

  /** `Event.findOne({ slug })` with the filter value already cast: the first stored event with that slug. */
  function FindBySlug(events: seq<StoredEvent>, slug: string): (r: Option<StoredEvent>)
    ensures r.Some? ==> r.value in events && r.value.event.slug == Some(slug)
    ensures r.None? ==> forall e | e in events :: e.event.slug != Some(slug)
  {
    if events == [] then None
    else if events[0].event.slug == Some(slug) then Some(events[0])
    else FindBySlug(events[1..], slug)
  }

  /** The tags of an event; a missing `tags` path matches nothing. */
  function TagsOf(e: StoredEvent): seq<string> {
    e.event.tags.GetOr([])
  }

  /** `tags: { $in: source.tags }`: some tag of `e` is a tag of the source. */
  predicate SharesTag(e: StoredEvent, source: StoredEvent) {
    exists t | t in TagsOf(e) :: t in TagsOf(source)
  }

  /** The filter `{ _id: { $ne: source._id }, tags: { $in: source.tags } }`. */
  predicate IsSimilar(e: StoredEvent, source: StoredEvent) {
    e.id != source.id && SharesTag(e, source)
  }

  /** Every stored event the filter accepts, in stored order. */
  function Matching(events: seq<StoredEvent>, source: StoredEvent): seq<StoredEvent> {
    if events == [] then []
    else (if IsSimilar(events[0], source) then [events[0]] else []) + Matching(events[1..], source)
  }

  function Take<T>(s: seq<T>, n: nat): seq<T> {
    if |s| <= n then s else s[..n]
  }

  /** `.find(filter).limit(limit)`: the scan stops once `limit` events are found. */
  function FindLimited(events: seq<StoredEvent>, source: StoredEvent, limit: nat): (r: seq<StoredEvent>)
    ensures |r| <= limit
    ensures forall k | 0 <= k < |r| :: r[k] in events && IsSimilar(r[k], source)
  {
    if events == [] || limit == 0 then []
    else if IsSimilar(events[0], source) then [events[0]] + FindLimited(events[1..], source, limit - 1)
    else FindLimited(events[1..], source, limit)
  }

  /** The limited scan returns the first `limit` matching events. */
  lemma {:induction false} FindLimitedTakesMatching(events: seq<StoredEvent>, source: StoredEvent, limit: nat)
    ensures FindLimited(events, source, limit) == Take(Matching(events, source), limit)
  {
    if events != [] && limit != 0 {
      var rest := Matching(events[1..], source);
      if IsSimilar(events[0], source) {
        FindLimitedTakesMatching(events[1..], source, limit - 1);
        assert Matching(events, source) == [events[0]] + rest;
        assert FindLimited(events, source, limit) == [events[0]] + Take(rest, limit - 1);
        if |rest| > limit - 1 {
          assert ([events[0]] + rest)[..limit] == [events[0]] + rest[..limit - 1];
        }
      } else {
        FindLimitedTakesMatching(events[1..], source, limit);
        assert Matching(events, source) == rest;
      }
    }
  }

  /**
   * `getSimilarEventsBySlug(slug)`; a database failure gives `[]`. The
   * `findOne` filter value is cast through the `slug` path's `trim` and
   * `lowercase` setters before it is compared.
   */
  function SimilarEvents(events: seq<StoredEvent>, slug: string, db: Connection): (r: seq<StoredEvent>)
    ensures db.ConnectFailed? ==> r == []
    ensures FindBySlug(events, TrimLowercase(slug)).None? ==> r == []
  {
    if db.ConnectFailed? then []
    else match FindBySlug(events, TrimLowercase(slug))
      case None => []
      case Some(source) => FindLimited(events, source, 3)
  }

  /**
   * At most three events come back, each stored, none of them the source
   * event, and each sharing a tag with it; they are the first three stored
   * events with that property, so fewer than three such events means all of
   * them.
   */
  lemma SimilarEventsMeans(events: seq<StoredEvent>, slug: string)
    requires FindBySlug(events, TrimLowercase(slug)).Some?
    ensures var source := FindBySlug(events, TrimLowercase(slug)).value;
      var r := SimilarEvents(events, slug, Connected);
      && |r| <= 3
      && (forall k | 0 <= k < |r| :: r[k] in events && r[k].id != source.id && SharesTag(r[k], source))
      && r == Take(Matching(events, source), 3)
      && (|Matching(events, source)| < 3 ==> r == Matching(events, source))
  {
    FindLimitedTakesMatching(events, FindBySlug(events, TrimLowercase(slug)).value, 3);
  }

  /** An event is matched exactly when it is stored and passes the filter. */
  lemma {:induction false} MatchingMembership(events: seq<StoredEvent>, source: StoredEvent, e: StoredEvent)
    ensures e in Matching(events, source) <==> e in events && IsSimilar(e, source)
  {
    if events != [] {
      MatchingMembership(events[1..], source, e);
      assert events == [events[0]] + events[1..];
    }
  }
}
