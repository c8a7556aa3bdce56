/**
 * The in-memory question cache: two module globals, the cached list and
 * the time it was fetched, refreshed from the database when the list is
 * missing or older than five minutes.
 *
 * The database read is not modelled; the list it would return is a
 * parameter, used only on a miss.
 */
module Cache {
  import opened Wrappers
  import opened Time
  import opened Scoring

  /** CACHE_TTL, 300 seconds. */
  const CACHE_TTL_SECONDS: nat := 300

  /** The two globals: `_questions_cache` (None until the first fetch) and `_last_cache_update` (0 at start). */
  datatype CacheState = CacheState(questions: Option<seq<Question>>, lastUpdate: Instant)

  const INITIAL: CacheState := CacheState(None, 0)

  /** A miss: nothing cached yet, or strictly more than the TTL since the last update. */
  predicate Expired(c: CacheState, now: Instant) {
    c.questions.None? || now - c.lastUpdate > Seconds(CACHE_TTL_SECONDS)
  }

  /** get_cached_questions: the list returned and the globals afterwards; `fetched` is what the query returns. */
  function GetCachedSpec(c: CacheState, now: Instant, fetched: seq<Question>): (seq<Question>, CacheState) {
    if Expired(c, now) then (fetched, CacheState(Some(fetched), now))
    else (c.questions.value, c)
  }

  /**
   * A cached list is served, and neither global changes, for every call
   * no later than the TTL after the update, whatever the database holds.
   */
  lemma HitWithinTtl(c: CacheState, now: Instant, fetched: seq<Question>)
    requires c.questions.Some? && now <= c.lastUpdate + Seconds(CACHE_TTL_SECONDS)
    ensures GetCachedSpec(c, now, fetched) == (c.questions.value, c)
  {
  }

  /** The first call always fetches, and a fetch stores the list with the current time. */
  lemma FirstCallFetches(now: Instant, fetched: seq<Question>)
    ensures GetCachedSpec(INITIAL, now, fetched) == (fetched, CacheState(Some(fetched), now))
  {
  }

  /**
   * After a call, the list it returned is served again by every call
   * within the TTL of the stored update time; exactly at the TTL is still
   * a hit, one microsecond later is a fetch.
   */
  lemma ServedUntilTtl(c: CacheState, now: Instant, fetched: seq<Question>, later: Instant, refetched: seq<Question>)
    requires var after := GetCachedSpec(c, now, fetched).1;
      after.lastUpdate <= later <= after.lastUpdate + Seconds(CACHE_TTL_SECONDS)
    ensures var (r, after) := GetCachedSpec(c, now, fetched);
      && after.questions == Some(r)
      && GetCachedSpec(after, later, refetched) == (r, after)
      && GetCachedSpec(after, after.lastUpdate + Seconds(CACHE_TTL_SECONDS) + 1, refetched)
           == (refetched, CacheState(Some(refetched), after.lastUpdate + Seconds(CACHE_TTL_SECONDS) + 1))
  {
    var (r, after) := GetCachedSpec(c, now, fetched);
    HitWithinTtl(after, later, refetched);
  }

  /** An empty list is cached like any other: it is served without a new fetch until the TTL expires. */
  lemma EmptyListCached(now: Instant, later: Instant, refetched: seq<Question>)
    requires now <= later <= now + Seconds(CACHE_TTL_SECONDS)
    ensures var after := GetCachedSpec(INITIAL, now, []).1;
      GetCachedSpec(after, later, refetched) == ([], after)
  {
    FirstCallFetches(now, []);
    HitWithinTtl(CacheState(Some([]), now), later, refetched);
  }

  /** The module globals, overwritten on a miss. */
  class QuestionCache {
    var questions: Option<seq<Question>>
    var lastUpdate: Instant

    function State(): CacheState
      reads this
    {
      CacheState(questions, lastUpdate)
    }

    constructor ()
      ensures State() == INITIAL
    {
      questions, lastUpdate := None, 0;
    }

    method GetCachedQuestions(now: Instant, fetched: seq<Question>) returns (r: seq<Question>)
      modifies this
      ensures (r, State()) == GetCachedSpec(old(State()), now, fetched)
    {
      if questions.None? || now - lastUpdate > Seconds(CACHE_TTL_SECONDS) {
        questions := Some(fetched);
        lastUpdate := now;
      }
      r := questions.value;
    }
  }
}
