/**
 * src/middleware.ts: the per-IP sliding-window rate limiter in front of the
 * API routes. The module-level `hits` map and `lastCleanup` are the fields of
 * a `RateLimiter`; each `Date.now()` reading is a parameter.
 */
module RateLimit {
  import opened Wrappers
  import opened Text

  const WindowMs := 60000
  const MaxRequests := 30
  const TooManyStatus := 429
  const RetryAfter := "60"
  const LocalIp := "127.0.0.1"

  datatype Outcome = RateLimited(status: int, retryAfter: string) | PassThrough

  /** `.filter(t => now - t < WINDOW_MS)`: the timestamps still inside the window, in order. */
  function Recent(ts: seq<int>, now: int): (r: seq<int>)
    ensures |r| <= |ts|
    ensures forall t :: t in r <==> t in ts && now - t < WindowMs
    ensures forall i :: 0 <= i < |r| ==> now - r[i] < WindowMs
  {
    if ts == [] then []
    else
      var rest := Recent(ts[1..], now);
      assert forall t :: t in ts[1..] ==> t in ts;
      assert forall t :: t in ts ==> t == ts[0] || t in ts[1..];
      if now - ts[0] < WindowMs then [ts[0]] + rest else rest
  }

  /** One timestamp is kept exactly when it is inside the window. */
  lemma RecentSingle(t: int, now: int)
    ensures Recent([t], now) == if now - t < WindowMs then [t] else []
  {
    assert [t][1..] == [];
  }

  /** The filter keeps order: the timestamps of `a + b` filter to those of `a` followed by those of `b`. */
  lemma {:induction false} RecentAppend(a: seq<int>, b: seq<int>, now: int)
    ensures Recent(a + b, now) == Recent(a, now) + Recent(b, now)
  {
    if a == [] {
      assert a + b == b;
    } else {
      assert (a + b)[0] == a[0];
      assert (a + b)[1..] == a[1..] + b;
      RecentAppend(a[1..], b, now);
    }
  }

  /** A list already inside the window passes the filter unchanged. */
  lemma {:induction false} RecentAllFresh(ts: seq<int>, now: int)
    requires forall i :: 0 <= i < |ts| ==> now - ts[i] < WindowMs
    ensures Recent(ts, now) == ts
  {
    if ts != [] {
      RecentAllFresh(ts[1..], now);
      assert [ts[0]] + ts[1..] == ts;
    }
  }

  /**
   * Filtering with a clock reading no later than an earlier filter's keeps
   * everything that filter kept; with equal readings the filter is idempotent.
   */
  lemma FilterAfterLaterFilter(ts: seq<int>, cleanupNow: int, now: int)
    requires now <= cleanupNow
    ensures Recent(Recent(ts, cleanupNow), now) == Recent(ts, cleanupNow)
  {
    RecentAllFresh(Recent(ts, cleanupNow), now);
  }

  /**
   * The client IP: the first comma-separated entry of `x-forwarded-for`,
   * trimmed, whenever that header is present (even if the entry is empty);
   * otherwise `x-real-ip`; otherwise the loopback address.
   */
  function ClientIp(forwardedFor: Option<string>, realIp: Option<string>): (ip: string)
    ensures forwardedFor.Some? ==> IsTrimmed(ip) && ',' !in ip && |ip| <= |forwardedFor.value|
    ensures forwardedFor.Some? && IndexOf(forwardedFor.value, ',').Some? ==>
              ip == Trim(forwardedFor.value[..IndexOf(forwardedFor.value, ',').value])
    ensures forwardedFor.Some? && IndexOf(forwardedFor.value, ',').None? ==> ip == Trim(forwardedFor.value)
    ensures forwardedFor.None? && realIp.Some? ==> ip == realIp.value
    ensures forwardedFor.None? && realIp.None? ==> ip == LocalIp
  {
    if forwardedFor.Some? then
      var first := Split(forwardedFor.value, ',')[0];
      TrimAbsent(first, ',');
      FirstPieceShorter(forwardedFor.value, ',');
      Trim(first)
    else if realIp.Some? then realIp.value
    else LocalIp
  }

  lemma FirstPieceShorter(s: string, c: char)
    ensures |Split(s, c)[0]| <= |s|
  {
    match IndexOf(s, c)
    case None =>
    case Some(i) =>
  }

  /**
   * The proxy's client address comes first in `x-forwarded-for`: later hops
   * are ignored and the padding around the first entry is trimmed off.
   */
  lemma FirstForwardedEntry(client: string, rest: string, realIp: Option<string>)
    requires ',' !in client
    ensures ClientIp(Some(client + "," + rest), realIp) == Trim(client)
  {
    IndexOfAt(client + "," + rest, ',', |client|);
    assert (client + "," + rest)[..|client|] == client;
  }

  /** A header with a single entry gives that entry, trimmed. */
  lemma SingleForwardedEntry(header: string, realIp: Option<string>)
    requires ',' !in header
    ensures ClientIp(Some(header), realIp) == Trim(header)
  {
  }

  /** An already trimmed first entry is the IP as it stands. */
  lemma TrimmedForwardedEntry(client: string, rest: string, realIp: Option<string>)
    requires IsTrimmed(client) && ',' !in client
    ensures ClientIp(Some(client + "," + rest), realIp) == client
  {
    FirstForwardedEntry(client, rest, realIp);
    TrimPadded([], client, []);
    assert [] + client + [] == client;
  }

  /**
   * A present but empty `x-forwarded-for` gives the empty IP; `x-real-ip` is
   * not consulted. The fact follows by evaluation, so the lemma has no body.
   */
  lemma EmptyForwardedForShadowsRealIp(realIp: Option<string>)
    ensures ClientIp(Some(""), realIp) == ""
  {
  }

  /** The stored timestamps of `ip`, `hits.get(ip) ?? []`. */
  function Lookup(hits: map<string, seq<int>>, ip: string): seq<int> {
    if ip in hits then hits[ip] else []
  }

  /** What a cleanup pass leaves: each list filtered, and keys left empty deleted. */
  function Cleaned(hits: map<string, seq<int>>, now: int): (r: map<string, seq<int>>)
    ensures r.Keys <= hits.Keys
    ensures forall ip :: ip in hits ==> Lookup(r, ip) == Recent(hits[ip], now)
  {
    map ip | ip in hits && Recent(hits[ip], now) != [] :: Recent(hits[ip], now)
  }

  /** A map that agrees with the filtered lists on every key and stores no empty list is the cleaned map. */
  lemma CleanedExactly(r: map<string, seq<int>>, hits: map<string, seq<int>>, now: int)
    requires r.Keys <= hits.Keys
    requires forall ip :: ip in r ==> r[ip] != []
    requires forall ip :: ip in hits ==> Lookup(r, ip) == Recent(hits[ip], now)
    ensures r == Cleaned(hits, now)
  {
    var c := Cleaned(hits, now);
    assert forall ip :: ip in r <==> ip in c;
  }

  /** The map after `cleanup()` with clock reading `now`: untouched within a window of the last pass. */
  function AfterCleanup(hits: map<string, seq<int>>, lastCleanup: int, now: int): map<string, seq<int>> {
    if now - lastCleanup < WindowMs then hits else Cleaned(hits, now)
  }

  /**
   * When cleanup and the request read the clock alike, cleanup does not
   * change the count the request sees.
   */
  lemma CleanupKeepsCount(hits: map<string, seq<int>>, lastCleanup: int, now: int, ip: string)
    ensures Recent(Lookup(AfterCleanup(hits, lastCleanup, now), ip), now) == Recent(Lookup(hits, ip), now)
  {
    if now - lastCleanup >= WindowMs && ip in hits {
      FilterAfterLaterFilter(hits[ip], now, now);
    }
  }

  class RateLimiter {
    var hits: map<string, seq<int>>
    var lastCleanup: int

    /** Every stored list holds at least one and at most 30 timestamps. */
    ghost predicate Valid()
      reads this
    {
      forall ip :: ip in hits ==> 1 <= |hits[ip]| <= MaxRequests
    }

    /** Module load: no hits, and the cleanup clock starts at the load time. */
    constructor (loadTime: int)
      ensures Valid() && hits == map[] && lastCleanup == loadTime
    {
      hits := map[];
      lastCleanup := loadTime;
    }

    /** `cleanup()`: at most once per window, filter every list and delete the emptied keys. */
    method Cleanup(now: int)
      requires Valid()
      modifies this
      ensures Valid()
      ensures hits == AfterCleanup(old(hits), old(lastCleanup), now)
      ensures lastCleanup == if now - old(lastCleanup) < WindowMs then old(lastCleanup) else now
    {
      if now - lastCleanup < WindowMs {
        return;
      }
      lastCleanup := now;
      var pending := hits.Keys;
      ghost var visited: set<string> := {};
      while pending != {}
        invariant pending !! visited && pending + visited == old(hits).Keys
        invariant forall ip :: ip in pending ==> ip in hits && hits[ip] == old(hits)[ip]
        invariant forall ip :: ip in visited ==> Lookup(hits, ip) == Recent(old(hits)[ip], now)
        invariant hits.Keys <= old(hits).Keys && lastCleanup == now
        invariant Valid()
        decreases pending
      {
        var ip :| ip in pending;
        var valid := Recent(hits[ip], now);
        if valid == [] {
          hits := hits - {ip};
        } else {
          hits := hits[ip := valid];
        }
        pending := pending - {ip};
        visited := visited + {ip};
      }
      CleanedExactly(hits, old(hits), now);
    }

    /**
     * `middleware(request)`: `now` is its clock reading and `cleanupNow` the
     * one `cleanup()` takes. A request is refused, storing nothing, when the
     * IP already has 30 timestamps inside the window; otherwise those
     * timestamps plus `now` are stored.
     */
    method Handle(forwardedFor: Option<string>, realIp: Option<string>, now: int, cleanupNow: int)
      returns (ip: string, outcome: Outcome)
      requires Valid()
      modifies this
      ensures Valid()
      ensures ip == ClientIp(forwardedFor, realIp)
      ensures lastCleanup == if cleanupNow - old(lastCleanup) < WindowMs then old(lastCleanup) else cleanupNow
      ensures var cleaned := AfterCleanup(old(hits), old(lastCleanup), cleanupNow);
        var recent := Recent(Lookup(cleaned, ip), now);
        (outcome.RateLimited? <==> |recent| >= MaxRequests) &&
        (outcome.RateLimited? ==> outcome == RateLimited(TooManyStatus, RetryAfter) && hits == cleaned) &&
        (outcome.PassThrough? ==> hits == cleaned[ip := recent + [now]])
    {
      ip := ClientIp(forwardedFor, realIp);
      Cleanup(cleanupNow);
      var timestamps := Recent(Lookup(hits, ip), now);
      if |timestamps| >= MaxRequests {
        return ip, RateLimited(TooManyStatus, RetryAfter);
      }
      timestamps := timestamps + [now];
      hits := hits[ip := timestamps];
      outcome := PassThrough;
    }
  }
}
