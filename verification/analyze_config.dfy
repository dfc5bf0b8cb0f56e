/** The tuning constants of the analyze route (src/app/api/analyze/route.ts:9-13). */
module AnalyzeConfig {
  /** Pause after a 429 response before the next attempt, in milliseconds. */
  const RATE_LIMIT_DELAY: nat := 1000
  /** Attempts per page URL before it is given up. */
  const MAX_RETRIES: nat := 3
  /** Pages (and child sitemaps) fetched per batch. */
  const CONCURRENT_REQUESTS: nat := 5
  /** Floor of the adaptive delay, in milliseconds. */
  const MIN_DELAY: int := 200
  /** Adaptive-delay steps, in milliseconds (route.ts:173 and route.ts:177). */
  const DELAY_DECREASE: int := 50
  const DELAY_INCREASE: int := 100
}
