/** The traffic-health row: when a run of collection failures closes the
    service, and when administrators are told. */
module TrafficHealth {
  import opened Basics

  const CLOSE_AFTER: int := 5 * MINUTE
  const NOTIFY_EVERY: int := 15 * MINUTE

  datatype Health = Health(failClosed: bool, failureStartedAt: Option<Time>, lastNotifiedAt: Option<Time>)

  const HEALTHY := Health(false, None, None)

  function StartOf(h: Health, now: Time): Time {
    if h.failureStartedAt.Some? then h.failureStartedAt.value else now
  }

  function NotifiedAt(h: Health, now: Time): Time {
    if h.lastNotifiedAt.None? || h.lastNotifiedAt.value <= now - NOTIFY_EVERY then now else h.lastNotifiedAt.value
  }

  // The row update of one observed failure.
  function Failed(h: Health, now: Time): Health {
    Health(h.failClosed || StartOf(h, now) <= now - CLOSE_AFTER, Some(StartOf(h, now)), Some(NotifiedAt(h, now)))
  }

  // The row update of one observed recovery: a no-op unless a failure is open.
  function Recovered(h: Health): Health {
    if h.failureStartedAt.None? then h else HEALTHY
  }

  predicate Notifies(h: Health, now: Time) {
    NotifiedAt(h, now) == now
  }

  predicate Closes(h: Health, now: Time) {
    !h.failClosed && Failed(h, now).failClosed
  }

  // ---- histories of observations ----

  datatype Event = Failure(at: Time) | Recovery(at: Time)

  predicate Increasing(events: seq<Event>) {
    forall i, j :: 0 <= i < j < |events| ==> events[i].at < events[j].at
  }

  function Step(h: Health, e: Event): Health {
    match e case Failure(at) => Failed(h, at) case Recovery(_) => Recovered(h)
  }

  function State(events: seq<Event>): Health {
    if events == [] then HEALTHY else Step(State(events[..|events| - 1]), events[|events| - 1])
  }

  // Index of the first failure of the current unbroken streak, |events| if none.
  function StreakStart(events: seq<Event>): (s: nat)
    ensures s <= |events|
    ensures forall i :: s <= i < |events| ==> events[i].Failure?
    ensures 0 < s ==> events[s - 1].Recovery?
  {
    if events == [] then 0
    else if events[|events| - 1].Recovery? then |events|
    else StreakStart(events[..|events| - 1])
  }

  // How long the current streak has lasted, if there is one.
  predicate StreakSpans(events: seq<Event>, span: int) {
    var s := StreakStart(events);
    s < |events| && events[|events| - 1].at - events[s].at >= span
  }

  /** Fail-closed exactly when the current unbroken failure streak spans five
      minutes; the recorded start is that streak's first failure. */
  lemma {:induction false} ClosedIffStreakIsLong(events: seq<Event>)
    requires Increasing(events)
    ensures State(events).failClosed <==> StreakSpans(events, CLOSE_AFTER)
    ensures State(events).failureStartedAt
         == if StreakStart(events) < |events| then Some(events[StreakStart(events)].at) else None
    ensures State(events).lastNotifiedAt.Some? <==> StreakStart(events) < |events|
    decreases |events|
  {
    if events != [] {
      var before := events[..|events| - 1];
      ClosedIffStreakIsLong(before);
      var s := StreakStart(before);
      if before != [] && s < |before| {
        assert before[s] == events[s] && before[|before| - 1] == events[|before| - 1];
      }
    }
  }

  // Observation i closes the service, or tells the administrators.
  predicate ClosesAt(events: seq<Event>, i: nat)
    requires i < |events|
  {
    events[i].Failure? && Closes(State(events[..i]), events[i].at)
  }

  predicate NotifiesAt(events: seq<Event>, i: nat)
    requires i < |events|
  {
    events[i].Failure? && Notifies(State(events[..i]), events[i].at)
  }

  // The streak that observation i belongs to or extends.
  function StreakOf(events: seq<Event>, i: nat): nat
    requires i < |events|
  {
    StreakStart(events[..i])
  }

  /** The revoke wave is queued by exactly one observation of a long streak: the
      first one five minutes or more after the streak began. */
  lemma {:induction false} ClosesOncePerStreak(events: seq<Event>, i: nat)
    requires Increasing(events) && i < |events| && events[i].Failure?
    ensures ClosesAt(events, i)
       <==> events[i].at - events[StreakOf(events, i)].at >= CLOSE_AFTER
            && (i > StreakOf(events, i) ==> events[i - 1].at - events[StreakOf(events, i)].at < CLOSE_AFTER)
  {
    var before := events[..i];
    ClosedIffStreakIsLong(before);
  }

  // Within a streak the time of the last notification is remembered.
  lemma {:induction false} LastNotified(events: seq<Event>, i: nat)
    requires Increasing(events) && i < |events| && NotifiesAt(events, i)
    requires forall k :: i < k < |events| ==> events[k].Failure?
    ensures State(events).lastNotifiedAt.Some? && State(events).lastNotifiedAt.value >= events[i].at
    decreases |events|
  {
    var before := events[..|events| - 1];
    if i < |before| {
      assert before[..i] == events[..i];
      LastNotified(before, i);
    }
  }

  /** Two notifications of one streak are at least fifteen minutes apart, and
      the first failure of a streak always notifies. */
  lemma {:induction false} NotificationsAreSpaced(events: seq<Event>, i: nat, j: nat)
    requires Increasing(events) && i < j < |events|
    requires NotifiesAt(events, i) && NotifiesAt(events, j)
    requires forall k :: i <= k <= j ==> events[k].Failure?
    ensures events[j].at - events[i].at >= NOTIFY_EVERY
  {
    var before := events[..j];
    assert before[..i] == events[..i];
    LastNotified(before, i);
    LastNotifiedIsPast(before);
  }

  lemma {:induction false} LastNotifiedIsPast(events: seq<Event>)
    requires Increasing(events) && State(events).lastNotifiedAt.Some?
    ensures events != [] && State(events).lastNotifiedAt.value <= events[|events| - 1].at
    decreases |events|
  {
    var before := events[..|events| - 1];
    if State(before).lastNotifiedAt.Some? {
      LastNotifiedIsPast(before);
    }
  }

  lemma {:induction false} FirstFailureNotifies(events: seq<Event>, i: nat)
    requires Increasing(events) && i < |events| && events[i].Failure? && StreakOf(events, i) == i
    ensures NotifiesAt(events, i)
  {
    ClosedIffStreakIsLong(events[..i]);
  }

  /** Recovery reports, and so queues a reconcile wave for, exactly the streaks
      that had closed the service. */
  lemma {:induction false} RecoveryReopensClosedStreak(events: seq<Event>, i: nat)
    requires Increasing(events) && i < |events| && events[i].Recovery?
    ensures State(events[..i + 1]) == HEALTHY
    ensures State(events[..i]).failClosed <==> StreakSpans(events[..i], CLOSE_AFTER)
  {
    ClosedIffStreakIsLong(events[..i]);
    assert events[..i + 1][..i] == events[..i];
    HealthyUnlessOpen(events[..i]);
  }

  lemma {:induction false} HealthyUnlessOpen(events: seq<Event>)
    ensures State(events).failureStartedAt.None? ==> State(events) == HEALTHY
    decreases |events|
  {
    if events != [] {
      HealthyUnlessOpen(events[..|events| - 1]);
    }
  }

  // The last notification before observation i, in its streak.
  predicate NotifiedLast(events: seq<Event>, i: nat, last: nat)
    requires i < |events|
  {
    && StreakOf(events, i) <= last < i && NotifiesAt(events, last)
    && forall k :: last < k < i ==> !NotifiesAt(events, k)
  }

  lemma {:induction false} RemembersLast(events: seq<Event>, last: nat)
    requires Increasing(events) && last < |events| && NotifiesAt(events, last)
    requires forall k :: last < k < |events| ==> events[k].Failure? && !NotifiesAt(events, k)
    ensures State(events).lastNotifiedAt == Some(events[last].at)
    decreases |events|
  {
    var before := events[..|events| - 1];
    if last < |before| {
      assert before[..last] == events[..last];
      forall k | last < k < |before| ensures before[k].Failure? && !NotifiesAt(before, k) {
        assert before[..k] == events[..k];
        assert events[k].Failure? && !NotifiesAt(events, k);
      }
      RemembersLast(before, last);
      assert !NotifiesAt(events, |before|);
    }
  }

  /** A failure notifies exactly when it is the first of its streak or the last
      notification is fifteen minutes old. */
  lemma {:induction false} NotifiesExactly(events: seq<Event>, i: nat, last: nat)
    requires Increasing(events) && i < |events| && events[i].Failure? && NotifiedLast(events, i, last)
    ensures NotifiesAt(events, i) <==> events[i].at - events[last].at >= NOTIFY_EVERY
  {
    var before := events[..i];
    assert before[..last] == events[..last];
    forall k | last < k < |before| ensures before[k].Failure? && !NotifiesAt(before, k) {
      assert before[..k] == events[..k];
      assert !NotifiesAt(events, k);
    }
    RemembersLast(before, last);
  }
}
