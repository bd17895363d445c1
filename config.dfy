/** The rate limiter's configuration constants. */
module RateLimitConfig {

  /** Length of the fixed window, in seconds. */
  const WindowSeconds: int := 60

  /** Purchases admitted per client per window. */
  const MaxRequestPerWindow: int := 1

  /** Namespace put in front of every client id to form a store key. */
  const KeyPrefix: string := "rate-limit:buy-corn"

  /** Length of the window in milliseconds, the unit of every timestamp. */
  const WindowMs: int := WindowSeconds * 1000
}
