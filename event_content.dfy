/**
 * The event page's slug gate: the slug must match `^[a-z0-9]+(?:-[a-z0-9]+)*$`
 * before the event is looked up, and a slug that fails it, or that names no
 * event, ends in `notFound()`.
 */
module EventContent {
  import opened Wrappers
  import opened JsText
  import opened EventModel

  /** A character of the class `[a-z0-9]`. */
  predicate SlugChar(c: char) {
    'a' <= c <= 'z' || '0' <= c <= '9'
  }

  predicate IsRun(r: string) {
    |r| > 0 && forall k | 0 <= k < |r| :: SlugChar(r[k])
  }

  /** The runs joined by single hyphens. */
  function JoinRuns(runs: seq<string>): string
    requires |runs| > 0
  {
    if |runs| == 1 then runs[0] else runs[0] + "-" + JoinRuns(runs[1..])
  }

  /** The regex as written: one or more `[a-z0-9]` runs, joined by single hyphens. */
  ghost predicate MatchesSlugPattern(s: string) {
    exists runs: seq<string> | |runs| > 0 && (forall i | 0 <= i < |runs| :: IsRun(runs[i])) :: JoinRuns(runs) == s
  }

  /**
   * The same check, character by character: not empty, only `[a-z0-9-]`, no
   * hyphen at either end and no two hyphens in a row.
   */
  predicate WellFormedSlug(s: string) {
    && |s| > 0
    && (forall k | 0 <= k < |s| :: SlugChar(s[k]) || s[k] == '-')
    && s[0] != '-' && s[|s| - 1] != '-'
    && (forall k | 0 <= k < |s| - 1 :: s[k] == '-' ==> s[k + 1] != '-')
  }

  /** Splitting a slug at its hyphens. */
  function SplitRuns(s: string): (runs: seq<string>)
    ensures |runs| > 0
    decreases |s|
  {
    var i := IndexOf(s, '-');
    if i == |s| then [s] else [s[..i]] + SplitRuns(s[i + 1..])
  }

  /** A well-formed slug splits into runs that join back into it. */
  lemma {:induction false} SplitRunsJoin(s: string)
    requires WellFormedSlug(s)
    ensures forall i | 0 <= i < |SplitRuns(s)| :: IsRun(SplitRuns(s)[i])
    ensures JoinRuns(SplitRuns(s)) == s
    decreases |s|
  {
    var i := IndexOf(s, '-');
    if i == |s| {
      assert IsRun(s);
    } else {
      var head, tail := s[..i], s[i + 1..];
      assert 0 < i < |s| - 1;
      assert IsRun(head) by {
        forall k | 0 <= k < |head| ensures SlugChar(head[k]) {
          assert head[k] == s[k];
        }
      }
      assert WellFormedSlug(tail) by {
        forall k | 0 <= k < |tail| ensures SlugChar(tail[k]) || tail[k] == '-' {
          assert tail[k] == s[i + 1 + k];
        }
        forall k | 0 <= k < |tail| - 1 ensures tail[k] == '-' ==> tail[k + 1] != '-' {
          assert tail[k] == s[i + 1 + k] && tail[k + 1] == s[i + 2 + k];
        }
        assert tail[0] == s[i + 1] && tail[|tail| - 1] == s[|s| - 1];
      }
      SplitRunsJoin(tail);
      var runs := SplitRuns(s);
      assert runs == [head] + SplitRuns(tail);
      assert runs[1..] == SplitRuns(tail);
      forall j | 0 <= j < |runs| ensures IsRun(runs[j]) {
        if j > 0 {
          assert runs[j] == SplitRuns(tail)[j - 1];
        }
      }
      assert s == head + "-" + tail;
    }
  }

  /** Joining runs always gives a well-formed slug. */
  lemma {:induction false} JoinRunsWellFormed(runs: seq<string>)
    requires |runs| > 0 && forall i | 0 <= i < |runs| :: IsRun(runs[i])
    ensures WellFormedSlug(JoinRuns(runs))
  {
    if |runs| > 1 {
      var head, rest := runs[0], runs[1..];
      assert forall i | 0 <= i < |rest| :: rest[i] == runs[i + 1];
      JoinRunsWellFormed(rest);
      var tail := JoinRuns(rest);
      var s := head + "-" + tail;
      var n := |head|;
      assert IsRun(head);
      forall k | 0 <= k < |s| ensures SlugChar(s[k]) || s[k] == '-' {
        if k < n {
          assert s[k] == head[k];
        } else if k > n {
          assert s[k] == tail[k - n - 1];
        }
      }
      forall k | 0 <= k < |s| - 1 ensures s[k] == '-' ==> s[k + 1] != '-' {
        if k < n - 1 {
          assert s[k] == head[k];
        } else if k == n - 1 {
          assert s[k] == head[k] && s[k + 1] == '-';
        } else if k == n {
          assert s[k + 1] == tail[0];
        } else {
          assert s[k] == tail[k - n - 1] && s[k + 1] == tail[k - n];
        }
      }
      assert s[0] == head[0] && s[|s| - 1] == tail[|tail| - 1];
    } else {
      assert IsRun(runs[0]);
    }
  }

  /** The character-level check accepts exactly the slugs the regex accepts. */
  lemma WellFormedIffPattern(s: string)
    ensures WellFormedSlug(s) <==> MatchesSlugPattern(s)
  {
    if WellFormedSlug(s) {
      SplitRunsJoin(s);
      var runs := SplitRuns(s);
      assert |runs| > 0 && (forall i | 0 <= i < |runs| :: IsRun(runs[i])) && JoinRuns(runs) == s;
    }
    if MatchesSlugPattern(s) {
      var runs: seq<string> :| |runs| > 0 && (forall i | 0 <= i < |runs| :: IsRun(runs[i])) && JoinRuns(runs) == s;
      JoinRunsWellFormed(runs);
    }
  }

  /**
   * The regex rejects the empty slug, any character outside `[a-z0-9-]`
   * (an upper-case letter among them), a hyphen at either end and two
   * hyphens in a row.
   */
  lemma PatternRejects(s: string)
    ensures s == "" ==> !MatchesSlugPattern(s)
    ensures (exists k | 0 <= k < |s| :: IsUpper(s[k]) || !(SlugChar(s[k]) || s[k] == '-')) ==> !MatchesSlugPattern(s)
    ensures |s| > 0 && (s[0] == '-' || s[|s| - 1] == '-') ==> !MatchesSlugPattern(s)
    ensures (exists k | 0 <= k < |s| - 1 :: s[k] == '-' && s[k + 1] == '-') ==> !MatchesSlugPattern(s)
  {
    WellFormedIffPattern(s);
  }

  /** What the page renders: the `notFound()` page, or the event. */
  datatype Page = NotFound | Show(event: StoredEvent)

  /** `EventContent`: the slug gate, then `getEventBySlug(slug)`, then the not-found check. */
  function EventPage(slug: string, getEventBySlug: string -> Option<StoredEvent>): (page: Page)
    ensures !MatchesSlugPattern(slug) ==> page == NotFound
  {
    WellFormedIffPattern(slug);
    if !WellFormedSlug(slug) then NotFound
    else match getEventBySlug(slug)
      case None => NotFound
      case Some(e) => Show(e)
  }

  /**
   * An invalid slug ends in `notFound()` before any lookup: the page is the
   * same whatever `getEventBySlug` would return. A valid slug shows exactly
   * the event the lookup returns, and `notFound()` when it returns none.
   */
  lemma EventPageMeans(slug: string, lookup: string -> Option<StoredEvent>, other: string -> Option<StoredEvent>)
    ensures !MatchesSlugPattern(slug) ==> EventPage(slug, lookup) == EventPage(slug, other) == NotFound
    ensures MatchesSlugPattern(slug) ==>
              EventPage(slug, lookup) == (if lookup(slug).None? then NotFound else Show(lookup(slug).value))
  {
    WellFormedIffPattern(slug);
  }
}
