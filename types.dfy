/** Value types shared by the rate limiter and the purchase route. */
module BuyCornTypes {

  datatype Option<+T> = None | Some(value: T)

  /** The classification a client identifier carries; the limiter ignores it. */
  datatype ClientType = Ip | Session | User

  datatype ClientIdentifier = ClientIdentifier(id: string, kind: ClientType)

  /** The admission decision returned by a rate-limit check. */
  datatype RateLimitResult = RateLimitResult(allowed: bool, remaining: int, resetAt: int, limit: int)

  /** The read-only snapshot returned by the debug accessor. */
  datatype RateLimitDebugInfo = RateLimitDebugInfo(
    clientId: string,
    timestamp: int,
    windowStart: int,
    windowEnd: int,
    requestCount: int,
    isAllowed: bool)
}
