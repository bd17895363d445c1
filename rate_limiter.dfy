/**
 * The fixed-window, one-purchase-per-client rate limiter.
 *
 * The store maps a namespaced key to the timestamp (milliseconds) of the
 * client's last recorded attempt. Checking and inspecting only read the
 * store, so they are functions of its value; recording and resetting update
 * it in place, so they are methods of the class that owns it. The clock is
 * the explicit parameter `now`.
 */
module RateLimiter {
  import opened BuyCornTypes
  import opened RateLimitConfig

  /** The store key of a client: the namespace, a colon, then the raw id. */
  function RedisKey(clientId: string): (k: string)
    ensures |k| == |KeyPrefix| + 1 + |clientId|
    ensures k[..|KeyPrefix|] == KeyPrefix && k[|KeyPrefix|] == ':'
    ensures k[|KeyPrefix| + 1..] == clientId
  {
    KeyPrefix + ":" + clientId
  }

  /** The instant a window opened at `lastAttemptTime` closes. */
  function ResetTimestamp(lastAttemptTime: int): (r: int)
    ensures r - lastAttemptTime == WindowSeconds * 1000
  {
    lastAttemptTime + WindowMs
  }

  /** The store's value under `key`, `None` when the key is absent. */
  function Get(store: map<string, int>, key: string): Option<int>
  {
    if key in store then Some(store[key]) else None
  }

  /**
   * The client has a record the limiter honours: the key is present and its
   * timestamp is truthy. A stored 0 reads like an absent key.
   */
  predicate HasRecord(store: map<string, int>, clientId: string)
    ensures !HasRecord(store, clientId) <==> Get(store, RedisKey(clientId)) in {None, Some(0)}
  {
    RedisKey(clientId) in store && store[RedisKey(clientId)] != 0
  }

  /** The decision given to an admitted client at `now`. */
  function Admitted(now: int): RateLimitResult
  {
    RateLimitResult(true, MaxRequestPerWindow - 1, ResetTimestamp(now), MaxRequestPerWindow)
  }

  /**
   * The admission decision for `client` at `now`. Admitted exactly when there
   * is no record or the window of the last attempt has passed; an admitted
   * client's window restarts at `now`, a denied client waits for the window
   * of its last attempt. Either way the reset instant lies after `now`.
   */
  function CheckRateLimit(store: map<string, int>, client: ClientIdentifier, now: int): (r: RateLimitResult)
    ensures r.limit == MaxRequestPerWindow
    ensures r.allowed <==> !HasRecord(store, client.id) || now - store[RedisKey(client.id)] >= WindowMs
    ensures r.allowed ==> r.remaining == MaxRequestPerWindow - 1 && r.resetAt == now + WindowMs
    ensures !r.allowed ==> r.remaining == 0 && r.resetAt == store[RedisKey(client.id)] + WindowMs
    ensures r.resetAt > now
  {
    var lastAttempt := Get(store, RedisKey(client.id));
    if lastAttempt.None? || lastAttempt.value == 0 then
      Admitted(now)
    else
      var timeElapsed := now - lastAttempt.value;
      if timeElapsed >= WindowMs then
        Admitted(now)
      else
        RateLimitResult(false, 0, ResetTimestamp(lastAttempt.value), MaxRequestPerWindow)
  }

  /**
   * The debug snapshot for `client` at `now`: the window it is in (the one
   * opened by its last attempt, or one opened now), whether it is admitted,
   * and how many requests that window has used.
   */
  function RateLimitDebug(store: map<string, int>, client: ClientIdentifier, now: int): (d: RateLimitDebugInfo)
    ensures d.clientId == client.id && d.timestamp == now
    ensures d.windowStart == (if HasRecord(store, client.id) then store[RedisKey(client.id)] else now)
    ensures d.windowEnd - d.windowStart == WindowMs
    ensures d.isAllowed <==> !HasRecord(store, client.id) || now - store[RedisKey(client.id)] >= WindowMs
    ensures d.requestCount == (if d.isAllowed then 0 else 1)
  {
    var lastAttempt := Get(store, RedisKey(client.id));
    if lastAttempt.None? || lastAttempt.value == 0 then
      RateLimitDebugInfo(client.id, now, now, now + WindowMs, 0, true)
    else
      var timeElapsed := now - lastAttempt.value;
      var isAllowed := timeElapsed >= WindowMs;
      RateLimitDebugInfo(client.id, now, lastAttempt.value, lastAttempt.value + WindowMs,
                         if isAllowed then 0 else 1, isAllowed)
  }

  /** The store after an attempt by `clientId` is recorded at `now`. */
  function AfterRecord(store: map<string, int>, clientId: string, now: int): map<string, int>
  {
    store[RedisKey(clientId) := now]
  }

  /** The store after the record of `clientId` is deleted. */
  function AfterReset(store: map<string, int>, clientId: string): map<string, int>
  {
    store - {RedisKey(clientId)}
  }

  /** The process-wide in-memory store of last-attempt timestamps. */
  class MockStore {
    var entries: map<string, int>

    /** The store starts empty. */
    constructor ()
      ensures entries == map[]
    {
      entries := map[];
    }

    /** Overwrites the client's last-attempt timestamp with `now`. */
    method RecordAttempt(client: ClientIdentifier, now: int)
      modifies this
      ensures entries == AfterRecord(old(entries), client.id, now)
      ensures RedisKey(client.id) in entries && entries[RedisKey(client.id)] == now
      ensures forall key :: key != RedisKey(client.id) ==> Get(entries, key) == Get(old(entries), key)
    {
      entries := entries[RedisKey(client.id) := now];
    }

    /** Deletes the client's record; a client without one is left as it is. */
    method ResetRateLimit(client: ClientIdentifier)
      modifies this
      ensures entries == AfterReset(old(entries), client.id)
      ensures RedisKey(client.id) !in entries
      ensures forall key :: key != RedisKey(client.id) ==> Get(entries, key) == Get(old(entries), key)
    {
      entries := entries - {RedisKey(client.id)};
    }
  }

  /** Distinct client ids never share a store key. */
  lemma RedisKeyInjective(a: string, b: string)
    ensures RedisKey(a) == RedisKey(b) <==> a == b
  {
  }

  /** A client with no record is admitted with the whole window ahead. */
  lemma FreshClientAdmitted(store: map<string, int>, client: ClientIdentifier, now: int)
    requires !HasRecord(store, client.id)
    ensures CheckRateLimit(store, client, now) == RateLimitResult(true, 0, now + 60000, 1)
  {
  }

  /** After an attempt at `t`, a check before the window closes is denied until `t + window`. */
  lemma DeniedWithinWindow(store: map<string, int>, client: ClientIdentifier, t: int, later: int)
    requires t != 0 && later - t < WindowMs
    ensures CheckRateLimit(AfterRecord(store, client.id, t), client, later)
         == RateLimitResult(false, 0, t + WindowMs, MaxRequestPerWindow)
  {
  }

  /** After an attempt at `t`, any check once the window has closed is admitted afresh. */
  lemma AdmittedAfterWindow(store: map<string, int>, client: ClientIdentifier, t: int, later: int)
    requires later >= t + WindowMs
    ensures CheckRateLimit(AfterRecord(store, client.id, t), client, later)
         == RateLimitResult(true, MaxRequestPerWindow - 1, later + WindowMs, MaxRequestPerWindow)
  {
  }

  /** After an attempt at `t`, the client is admitted exactly from `ResetTimestamp(t)` on. */
  lemma AdmittedExactlyFromResetTimestamp(store: map<string, int>, client: ClientIdentifier, t: int, later: int)
    requires t != 0
    ensures CheckRateLimit(AfterRecord(store, client.id, t), client, later).allowed <==> later >= ResetTimestamp(t)
  {
  }

  /** An attempt recorded at timestamp 0 is falsy and so reads as no record at all. */
  lemma ZeroTimestampReadsAsNoRecord(store: map<string, int>, client: ClientIdentifier, now: int)
    ensures CheckRateLimit(AfterRecord(store, client.id, 0), client, now) == Admitted(now)
    ensures RateLimitDebug(AfterRecord(store, client.id, 0), client, now).requestCount == 0
  {
  }

  /** Once admitted, a client stays admitted as time moves on (until it records again). */
  lemma AdmissionMonotone(store: map<string, int>, client: ClientIdentifier, t1: int, t2: int)
    requires t1 <= t2 && CheckRateLimit(store, client, t1).allowed
    ensures CheckRateLimit(store, client, t2).allowed
  {
  }

  /** Every denial in one window names the same reset instant, so the wait shrinks as time passes. */
  lemma DenialResetAnchored(store: map<string, int>, client: ClientIdentifier, t1: int, t2: int)
    requires !CheckRateLimit(store, client, t1).allowed && !CheckRateLimit(store, client, t2).allowed
    ensures CheckRateLimit(store, client, t1).resetAt == CheckRateLimit(store, client, t2).resetAt
    ensures t1 < t2 ==> CheckRateLimit(store, client, t2).resetAt - t2 < CheckRateLimit(store, client, t1).resetAt - t1
  {
  }

  /** The bucket is chosen by the id alone: two identifiers with the same id share it. */
  lemma BucketIgnoresKind(store: map<string, int>, a: ClientIdentifier, b: ClientIdentifier, t: int, now: int)
    requires a.id == b.id
    ensures AfterRecord(store, a.id, t) == AfterRecord(store, b.id, t)
    ensures CheckRateLimit(store, a, now) == CheckRateLimit(store, b, now)
    ensures RateLimitDebug(store, a, now) == RateLimitDebug(store, b, now)
  {
  }

  /** Recording an attempt for one client changes no other client's decision or snapshot. */
  lemma RecordIsolation(store: map<string, int>, client: ClientIdentifier, other: ClientIdentifier, t: int, now: int)
    requires client.id != other.id
    ensures CheckRateLimit(AfterRecord(store, client.id, t), other, now) == CheckRateLimit(store, other, now)
    ensures RateLimitDebug(AfterRecord(store, client.id, t), other, now) == RateLimitDebug(store, other, now)
  {
  }

  /** Resetting one client changes no other client's decision or snapshot. */
  lemma ResetIsolation(store: map<string, int>, client: ClientIdentifier, other: ClientIdentifier, now: int)
    requires client.id != other.id
    ensures CheckRateLimit(AfterReset(store, client.id), other, now) == CheckRateLimit(store, other, now)
    ensures RateLimitDebug(AfterReset(store, client.id), other, now) == RateLimitDebug(store, other, now)
  {
  }

  /** Resetting twice is resetting once, and a reset client is admitted at once. */
  lemma ResetIdempotent(store: map<string, int>, client: ClientIdentifier, now: int)
    ensures AfterReset(AfterReset(store, client.id), client.id) == AfterReset(store, client.id)
    ensures CheckRateLimit(AfterReset(store, client.id), client, now) == Admitted(now)
  {
  }

  /**
   * The snapshot agrees with the check: same admission, and while denied its
   * window ends at the check's reset instant.
   */
  lemma DebugAgreesWithCheck(store: map<string, int>, client: ClientIdentifier, now: int)
    ensures RateLimitDebug(store, client, now).isAllowed == CheckRateLimit(store, client, now).allowed
    ensures !CheckRateLimit(store, client, now).allowed ==>
              RateLimitDebug(store, client, now).windowEnd == CheckRateLimit(store, client, now).resetAt
  {
  }
}
