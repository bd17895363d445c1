/**
 * The purchase endpoint's decision logic: identify the client from the
 * forwarding header, check its admission, record the purchase only when
 * admitted, and answer 200 or 429. A response is reduced to its status,
 * the limit and remaining-count headers, the reset instant in whole seconds
 * and, for a refusal, the Retry-After seconds.
 */
module BuyRoute {
  import opened BuyCornTypes
  import opened RateLimitConfig
  import opened RateLimiter

  /** The longest prefix of `s` that holds no comma: the first entry of a comma-separated list. */
  function FirstField(s: string): (r: string)
    ensures r <= s
    ensures ',' !in r
    ensures |r| < |s| ==> s[|r|] == ','
  {
    if s == [] || s[0] == ',' then [] else [s[0]] + FirstField(s[1..])
  }

  /**
   * The client behind a request, from its `x-forwarded-for` header: the first
   * entry of the header, untrimmed, or "unknown" when the header is missing or
   * empty. The identifier's kind is always `Ip`.
   */
  function ClientIdentifierOf(forwarded: Option<string>): (c: ClientIdentifier)
    ensures c.kind == Ip
    ensures forwarded.None? || forwarded.value == "" ==> c.id == "unknown"
    ensures forwarded.Some? && forwarded.value != "" ==>
              c.id <= forwarded.value && ',' !in c.id &&
              (|c.id| < |forwarded.value| ==> forwarded.value[|c.id|] == ',')
  {
    var ip := if forwarded.Some? && forwarded.value != "" then FirstField(forwarded.value) else "unknown";
    ClientIdentifier(ip, Ip)
  }

  /** Seconds to wait until `resetAt`: the least whole number of seconds covering the milliseconds left. */
  function RetryAfter(resetAt: int, now: int): (k: int)
    ensures 1000 * k >= resetAt - now
    ensures 1000 * (k - 1) < resetAt - now
  {
    var diffMs := resetAt - now;
    if diffMs % 1000 == 0 then diffMs / 1000 else diffMs / 1000 + 1
  }

  /** A millisecond instant rounded down to whole seconds, as the reset header carries it. */
  function ResetSeconds(resetAt: int): (s: int)
    ensures 1000 * s <= resetAt < 1000 * (s + 1)
  {
    resetAt / 1000
  }

  datatype BuyResponse =
    | Purchased(limit: int, remaining: int, resetSeconds: int)
    | RateLimited(limit: int, remaining: int, resetSeconds: int, retryAfter: int)
  {
    function Status(): int
    {
      if Purchased? then 200 else 429
    }
  }

  /** A response together with the store it leaves behind. */
  datatype PostOutcome = PostOutcome(response: BuyResponse, store: map<string, int>)

  /**
   * The purchase decision on a store value. A refused client gets 429 and the
   * store is untouched; an admitted client's attempt is recorded at `now` and
   * it gets 200 with nothing remaining. Both carry the limit and the check's
   * reset instant in whole seconds.
   */
  function HandlePost(store: map<string, int>, forwarded: Option<string>, now: int): (o: PostOutcome)
    ensures var client := ClientIdentifierOf(forwarded);
            var result := CheckRateLimit(store, client, now);
            && (o.response.Status() == 200 <==> result.allowed)
            && (o.response.Status() == 429 <==> !result.allowed)
            && (!result.allowed ==> o.store == store && o.response.retryAfter == RetryAfter(result.resetAt, now))
            && (result.allowed ==> o.store == AfterRecord(store, client.id, now))
            && o.response.remaining == 0
            && o.response.limit == MaxRequestPerWindow
            && o.response.resetSeconds == ResetSeconds(result.resetAt)
  {
    var client := ClientIdentifierOf(forwarded);
    var result := CheckRateLimit(store, client, now);
    if !result.allowed then
      PostOutcome(RateLimited(result.limit, result.remaining, ResetSeconds(result.resetAt),
                              RetryAfter(result.resetAt, now)), store)
    else
      PostOutcome(Purchased(result.limit, 0, ResetSeconds(result.resetAt)),
                  AfterRecord(store, client.id, now))
  }

  /** Handles one purchase request against the shared store. */
  method Post(limiter: MockStore, forwarded: Option<string>, now: int) returns (response: BuyResponse)
    modifies limiter
    ensures PostOutcome(response, limiter.entries) == HandlePost(old(limiter.entries), forwarded, now)
  {
    var client := ClientIdentifierOf(forwarded);
    var result := CheckRateLimit(limiter.entries, client, now);
    if !result.allowed {
      var retryAfter := RetryAfter(result.resetAt, now);
      response := RateLimited(result.limit, result.remaining, ResetSeconds(result.resetAt), retryAfter);
      return;
    }
    limiter.RecordAttempt(client, now);
    response := Purchased(result.limit, 0, ResetSeconds(result.resetAt));
  }

  /** A header without commas is the client id itself. */
  lemma FirstFieldOfSingleEntry(s: string)
    requires ',' !in s
    ensures FirstField(s) == s
  {
  }

  /** A whole number of seconds left is reported as exactly that many seconds. */
  lemma RetryAfterWholeSeconds(now: int, n: int)
    ensures RetryAfter(now + 1000 * n, now) == n
  {
  }

  /**
   * A refusal always asks the client to wait at least one second, and at most
   * one window when the last attempt is not in the future.
   */
  lemma DenialRetryAfterInRange(store: map<string, int>, client: ClientIdentifier, now: int)
    requires !CheckRateLimit(store, client, now).allowed
    ensures HasRecord(store, client.id)
    ensures RetryAfter(CheckRateLimit(store, client, now).resetAt, now) >= 1
    ensures now >= store[RedisKey(client.id)] ==>
              RetryAfter(CheckRateLimit(store, client, now).resetAt, now) <= WindowSeconds
  {
  }

  /**
   * From a clean slate, two purchases from the same header within one window
   * are answered 200 then 429, and the refusal records nothing.
   */
  lemma SecondPurchaseWithinWindowRefused(store: map<string, int>, forwarded: Option<string>, t1: int, t2: int)
    requires !HasRecord(store, ClientIdentifierOf(forwarded).id)
    requires t1 != 0 && t1 <= t2 < t1 + WindowMs
    ensures HandlePost(store, forwarded, t1).response.Status() == 200
    ensures HandlePost(HandlePost(store, forwarded, t1).store, forwarded, t2).response.Status() == 429
    ensures HandlePost(HandlePost(store, forwarded, t1).store, forwarded, t2).store
         == HandlePost(store, forwarded, t1).store
  {
  }

  /** From a clean slate, purchases from two different clients are both answered 200. */
  lemma DistinctClientsBothPurchase(store: map<string, int>, h1: Option<string>, h2: Option<string>, t1: int, t2: int)
    requires ClientIdentifierOf(h1).id != ClientIdentifierOf(h2).id
    requires !HasRecord(store, ClientIdentifierOf(h1).id) && !HasRecord(store, ClientIdentifierOf(h2).id)
    ensures HandlePost(store, h1, t1).response.Status() == 200
    ensures HandlePost(HandlePost(store, h1, t1).store, h2, t2).response.Status() == 200
  {
  }
}
