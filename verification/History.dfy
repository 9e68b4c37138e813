/**
  The update history (updater/manager.go:556-563, updater/cleanup.go:60-65, rootguard-updater/manager.go:341-348),
  which every updater keeps in the same way.
 */
module UpdateHistory {
  const HISTORY_LIMIT := 50

  /** Newest first, at most fifty. */
  function Recorded<T>(h: seq<T>, e: T): (r: seq<T>)
    ensures |r| == (if |h| < 50 then |h| + 1 else 50) && r[0] == e
    ensures forall k | 1 <= k < |r| :: r[k] == h[k - 1]
  {
    if |h| < HISTORY_LIMIT then [e] + h else [e] + h[..HISTORY_LIMIT - 1]
  }
}
