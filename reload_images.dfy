/**
 * static/reload-images.js: every image that fails to load (typically with a 429
 * from the thumbnail server) is reloaded later, and one shared timestamp
 * `earliestNextReload` spaces the reloads of all images at least 100 ms apart.
 * Times are whole milliseconds of the `performance.now()` clock.
 */
module ReloadImages {
  /** Milliseconds between two reloads. */
  const ReloadSpacing: int := 100
  /** The thumbnail server queues requests for this long... */
  const QueueTimeout: int := 4000
  /** ...and holds at most this many of them. */
  const QueueLength: int := 50

  /** `Math.max(earliestNextReload, now) + 100`. */
  function NextReload(earliest: int, now: int): (next: int)
    ensures next >= earliest + ReloadSpacing
    ensures next >= now + ReloadSpacing
    ensures next == earliest + ReloadSpacing || next == now + ReloadSpacing
  {
    (if earliest >= now then earliest else now) + ReloadSpacing
  }

  /** The timestamp after the errors at the times `nows`, starting from 0. */
  function EarliestAfter(nows: seq<int>): int
  {
    if nows == [] then 0 else NextReload(EarliestAfter(nows[..|nows| - 1]), nows[|nows| - 1])
  }

  /** The absolute reload time of the error at position `k`. */
  function ReloadTime(nows: seq<int>, k: nat): int
    requires k < |nows|
  {
    EarliestAfter(nows[..k + 1])
  }

  lemma {:induction false} EarliestAfterSpacing(nows: seq<int>, j: nat, k: nat)
    requires j <= k <= |nows|
    ensures EarliestAfter(nows[..k]) >= EarliestAfter(nows[..j]) + ReloadSpacing * (k - j)
  {
    if j < k {
      EarliestAfterSpacing(nows, j, k - 1);
      assert nows[..k][..k - 1] == nows[..k - 1];
    }
  }

  /**
   * Reloads are at least 100 ms apart per error in between, whatever the times of
   * the errors: the shared timestamp grows by at least 100 with every error.
   */
  lemma ReloadTimesSpaced(nows: seq<int>, j: nat, k: nat)
    requires j < k < |nows|
    ensures ReloadTime(nows, k) >= ReloadTime(nows, j) + ReloadSpacing * (k - j)
  {
    EarliestAfterSpacing(nows, j + 1, k + 1);
  }

  /**
   * Any 4-second window holds at most 40 of this script's reloads, fewer than the
   * 50 requests the thumbnail server queues.
   */
  lemma ReloadsFitQueue(nows: seq<int>, j: nat, k: nat, windowStart: int)
    requires j <= k < |nows|
    requires windowStart <= ReloadTime(nows, j) && ReloadTime(nows, k) < windowStart + QueueTimeout
    ensures k - j + 1 <= QueueTimeout / ReloadSpacing < QueueLength
  {
    if j < k {
      ReloadTimesSpaced(nows, j, k);
    }
  }

  /** The error listener's state: the `earliestNextReload` closure variable. */
  class ReloadThrottle {
    var earliestNextReload: int
    /** The `performance.now()` of every error handled so far. */
    ghost var errors: seq<int>

    ghost predicate Valid()
      reads this
    {
      earliestNextReload == EarliestAfter(errors)
    }

    /** `let earliestNextReload = 0;` */
    constructor ()
      ensures Valid() && errors == [] && earliestNextReload == 0
    {
      earliestNextReload := 0;
      errors := [];
    }

    /**
     * The `error` listener: moves the shared timestamp and returns the delay handed
     * to `setTimeout`, so that the reload happens at the new timestamp.
     */
    method OnError(now: int) returns (delay: int)
      requires Valid()
      modifies this
      ensures Valid() && errors == old(errors) + [now]
      ensures earliestNextReload == NextReload(old(earliestNextReload), now)
      ensures now + delay == earliestNextReload
      ensures delay >= ReloadSpacing
      ensures earliestNextReload >= old(earliestNextReload) + ReloadSpacing
      ensures now >= old(earliestNextReload) ==> delay == ReloadSpacing
    {
      earliestNextReload := (if earliestNextReload >= now then earliestNextReload else now) + ReloadSpacing;
      delay := earliestNextReload - now;
      errors := errors + [now];
      assert errors[..|errors| - 1] == old(errors);
    }
  }
}
