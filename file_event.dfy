/**
 * The debounce rule of the file watcher: a change of a watched file is
 * acted upon only when its modification time moved forward and at least
 * 100 milliseconds passed since the last event that was acted upon. The
 * file's modification time and the clock are inputs.
 */
module FileEvents {
  import opened Text

  /** Milliseconds that must pass after an event before the next one counts. */
  const QUIET_MILLIS: int := 100

  class FileEvent {
    var lastEventTime: int
    var lastFileModifiedTime: int

    predicate Valid()
      reads this
    {
      IsLong(lastEventTime) && IsLong(lastFileModifiedTime)
    }

    /** A new event has seen no event yet and records the file's current time. */
    constructor(modified: int)
      requires IsLong(modified)
      ensures Valid()
      ensures lastEventTime == 0 && lastFileModifiedTime == modified
    {
      lastEventTime := 0;
      lastFileModifiedTime := modified;
    }

    /** `isFileChanged`: the file was modified after the recorded time. */
    predicate IsFileChanged(modified: int)
      reads this
    {
      modified > lastFileModifiedTime
    }

    /** `isInThePast`: the quiet period after the last event is over (Java `long` addition). */
    predicate IsInThePast(now: int)
      reads this
    {
      now >= WrapLong(lastEventTime + QUIET_MILLIS)
    }

    /** `isRelevant`: the quiet period is over and the file changed. */
    predicate IsRelevant(now: int, modified: int)
      reads this
    {
      IsInThePast(now) && IsFileChanged(modified)
    }

    method SetLastEventTime(time: int)
      requires IsLong(time)
      modifies this
      ensures lastEventTime == time
      ensures lastFileModifiedTime == old(lastFileModifiedTime)
    {
      lastEventTime := time;
    }

    method SetLastFileModifiedTime(time: int)
      requires IsLong(time)
      modifies this
      ensures lastFileModifiedTime == time
      ensures lastEventTime == old(lastEventTime)
    {
      lastFileModifiedTime := time;
    }

    /**
     * `eventOccurred`: records the file's time and the clock. The same
     * file state is no longer a change, nothing is relevant at the same
     * instant, and a newer file state is relevant once the quiet period
     * has passed.
     */
    method EventOccurred(modified: int, now: int)
      requires IsLong(modified) && IsLong(now)
      modifies this
      ensures Valid()
      ensures lastFileModifiedTime == modified && lastEventTime == now
      ensures !IsFileChanged(modified)
      ensures now + QUIET_MILLIS <= LONG_MAX ==>
        forall m :: !IsRelevant(now, m)
      ensures now + QUIET_MILLIS <= LONG_MAX ==>
        forall later, m :: later >= now + QUIET_MILLIS && m > modified ==> IsRelevant(later, m)
    {
      SetLastFileModifiedTime(modified);
      SetLastEventTime(now);
    }
  }

  /**
   * With no event yet, a file change counts as soon as the clock has
   * reached the quiet period; before that nothing counts.
   */
  lemma FreshEventRelevance(e: FileEvent, now: int, modified: int)
    requires e.lastEventTime == 0
    ensures e.IsRelevant(now, modified) <==> now >= QUIET_MILLIS && modified > e.lastFileModifiedTime
  {
  }

  /**
   * Unless the addition wraps, the quiet period is exactly the hundred
   * milliseconds after the last event.
   */
  lemma QuietPeriodExact(e: FileEvent, now: int)
    requires e.Valid() && e.lastEventTime + QUIET_MILLIS <= LONG_MAX
    ensures e.IsInThePast(now) <==> now - e.lastEventTime >= QUIET_MILLIS
  {
  }

  /**
   * At the far end of the `long` range the addition wraps and the quiet
   * period is skipped: an event recorded there leaves every non-negative
   * clock reading "in the past", even one before the event.
   */
  lemma WrappedQuietPeriod(e: FileEvent, now: int)
    requires e.lastEventTime == LONG_MAX && 0 <= now
    ensures e.IsInThePast(now)
  {
    assert WrapLong(LONG_MAX + QUIET_MILLIS) == LONG_MIN + QUIET_MILLIS - 1;
  }
}
