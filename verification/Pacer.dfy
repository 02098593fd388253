/** Membership lookups: request slots shared by all callers, and bounded
    retries for each. */
module Pacer {
  import opened Basics

  const MAX_ATTEMPTS: nat := 5

  datatype Failure = Temporary(retryAfter: Option<int>) | Permanent | Interrupted

  // What one attempt meets: the clock at its reservation, whether the waits
  // ended, the reply, and the jitter drawn.
  datatype Attempt = Attempt(now: int, paced: bool, reply: Result<int, Failure>, jitter: int, waited: bool)

  // ---- slots ----

  function SlotAt(next: int, now: int): int {
    if next > now then next else now
  }

  // The slots given to callers that reserve in this order at these readings.
  function Slots(next: int, interval: int, nows: seq<int>): (slots: seq<int>)
    ensures |slots| == |nows|
    decreases |nows|
  {
    if nows == [] then []
    else [SlotAt(next, nows[0])] + Slots(SlotAt(next, nows[0]) + interval, interval, nows[1..])
  }

  function NextAfter(next: int, interval: int, nows: seq<int>): int {
    if nows == [] then next else SlotAt(NextAfter(next, interval, nows[..|nows| - 1]), nows[|nows| - 1]) + interval
  }

  // ---- retries ----

  function Delay(attempt: nat, retryAfter: Option<int>, jitter: int): int {
    if retryAfter.Some? then retryAfter.value
    else Backoff(attempt) + if 0 < jitter < Backoff(attempt) / 2 then jitter else 0
  }

  function Backoff(attempt: nat): nat {
    if attempt == 0 then SECOND else 2 * Backoff(attempt - 1)
  }

  // The answer of one attempt, if it is the last one; otherwise the lookup
  // waits and tries again.
  function Verdict(k: nat, a: Attempt): Option<Result<int, Failure>> {
    if !a.paced then Some(Err(Interrupted))
    else if a.reply.Ok? || !a.reply.error.Temporary? || k == MAX_ATTEMPTS - 1 then Some(a.reply)
    else if !a.waited then Some(Err(Interrupted))
    else None
  }

  class RetryingMemberLookup {
    const interval: int
    var nextRequest: int

    // The rate must be from 1 to 20 requests a second.
    static method New(rate: int) returns (lookup: Option<RetryingMemberLookup>)
      ensures lookup.Some? <==> 1 <= rate <= 20
      ensures lookup.Some? ==> lookup.value.interval == SECOND / rate && fresh(lookup.value)
    {
      if rate < 1 || rate > 20 {
        return None;
      }
      var l := new RetryingMemberLookup(SECOND / rate);
      return Some(l);
    }

    constructor (interval: int)
      ensures this.interval == interval && nextRequest == NO_TIME
    {
      this.interval, nextRequest := interval, NO_TIME;
    }

    /** Reserves the next slot under the lock; the caller waits for it after. */
    method ReserveSlot(now: int) returns (requestAt: int, delay: int)
      modifies this
      ensures requestAt == SlotAt(old(nextRequest), now) && nextRequest == requestAt + interval
      ensures delay == requestAt - now && delay >= 0
    {
      requestAt := now;
      if nextRequest > requestAt {
        requestAt := nextRequest;
      }
      nextRequest := requestAt + interval;
      delay := requestAt - now;
    }

    /** Answers with the first attempt that settles it, the fifth at the latest;
        every attempt but that one was temporary, and only its delay was waited. */
    method GetChatMember(attempts: seq<Attempt>)
      returns (answer: Result<int, Failure>, calls: nat, delays: seq<int>, slots: seq<int>)
      requires |attempts| == MAX_ATTEMPTS
      modifies this
      ensures 1 <= |slots| <= MAX_ATTEMPTS
      ensures Verdict(|slots| - 1, attempts[|slots| - 1]) == Some(answer)
      ensures calls == if attempts[|slots| - 1].paced then |slots| else |slots| - 1
      ensures Retried(attempts[..|slots| - 1], delays)
      ensures Reserved(old(nextRequest), interval, attempts[..|slots|], slots, nextRequest)
    {
      calls, delays, slots := 0, [], [];
      assert Reserved(old(nextRequest), interval, attempts[..0], slots, nextRequest) && Retried(attempts[..0], delays);
      hide Reserved, Retried, Delay, Slots, NextAfter, Readings;
      for k := 0 to MAX_ATTEMPTS
        invariant k < MAX_ATTEMPTS && |slots| == calls == k
        invariant Retried(attempts[..k], delays)
        invariant Reserved(old(nextRequest), interval, attempts[..k], slots, nextRequest)
      {
        var a := attempts[k];
        OneMoreSlot(old(nextRequest), interval, attempts, k, slots, nextRequest);
        var verdict, called, slot, delay := Try(k, a);
        slots := slots + [slot];
        calls := calls + if called then 1 else 0;
        if verdict.Some? {
          answer := verdict.value;
          return;
        }
        OneMoreDelay(attempts, k, delays);
        delays := delays + [delay];
      }
      assert false;
    }

    // One round of the loop: the lookup's answer, unless it is to try again.
    method Try(k: nat, a: Attempt) returns (verdict: Option<Result<int, Failure>>, called: bool, slot: int, delay: int)
      modifies this
      ensures slot == SlotAt(old(nextRequest), a.now) && nextRequest == slot + interval
      ensures verdict == Verdict(k, a) && called == a.paced
      ensures verdict == None ==> delay == Delay(k, a.reply.error.retryAfter, a.jitter)
    {
      var pause;
      slot, pause := ReserveSlot(a.now);
      if !a.paced {
        return Some(Err(Interrupted)), false, slot, 0;
      }
      if a.reply.Ok? || !a.reply.error.Temporary? || k == MAX_ATTEMPTS - 1 {
        return Some(a.reply), true, slot, 0;
      }
      delay := Delay(k, a.reply.error.retryAfter, a.jitter);
      if !a.waited {
        return Some(Err(Interrupted)), true, slot, delay;
      }
      return None, true, slot, delay;
    }
  }

  // Each attempt was temporary, and its delay was waited.
  predicate Retried(attempts: seq<Attempt>, delays: seq<int>) {
    && |delays| == |attempts|
    && forall k :: 0 <= k < |delays| ==>
         && Verdict(k, attempts[k]) == None
         && delays[k] == Delay(k, attempts[k].reply.error.retryAfter, attempts[k].jitter)
  }

  lemma OneMoreDelay(attempts: seq<Attempt>, k: nat, delays: seq<int>)
    requires k < |attempts| && Retried(attempts[..k], delays) && Verdict(k, attempts[k]) == None
    ensures Retried(attempts[..k + 1], delays + [Delay(k, attempts[k].reply.error.retryAfter, attempts[k].jitter)])
  {
  }

  // The slots reserved by attempts in this order.
  predicate Reserved(next: int, interval: int, attempts: seq<Attempt>, slots: seq<int>, next': int) {
    slots == Slots(next, interval, Readings(attempts)) && next' == NextAfter(next, interval, Readings(attempts))
  }

  lemma OneMoreSlot(next: int, interval: int, attempts: seq<Attempt>, k: nat, slots: seq<int>, next': int)
    requires k < |attempts| && Reserved(next, interval, attempts[..k], slots, next')
    ensures var slot := SlotAt(next', attempts[k].now);
            Reserved(next, interval, attempts[..k + 1], slots + [slot], slot + interval)
  {
    assert attempts[..k + 1][..k] == attempts[..k];
    SlotsSnoc(next, interval, Readings(attempts[..k]), attempts[k].now);
  }

  function Readings(attempts: seq<Attempt>): (nows: seq<int>)
    ensures |nows| == |attempts| && forall i :: 0 <= i < |nows| ==> nows[i] == attempts[i].now
  {
    if attempts == [] then [] else Readings(attempts[..|attempts| - 1]) + [attempts[|attempts| - 1].now]
  }

  lemma {:induction false} SlotsSnoc(next: int, interval: int, nows: seq<int>, now: int)
    ensures Slots(next, interval, nows + [now])
         == Slots(next, interval, nows) + [SlotAt(NextAfter(next, interval, nows), now)]
    ensures NextAfter(next, interval, nows + [now]) == SlotAt(NextAfter(next, interval, nows), now) + interval
    decreases |nows|
  {
    assert (nows + [now])[..|nows|] == nows;
    if nows != [] {
      assert (nows + [now])[1..] == nows[1..] + [now];
      SlotsSnoc(SlotAt(next, nows[0]) + interval, interval, nows[1..], now);
      NextAfterCons(next, interval, nows);
    }
  }

  lemma {:induction false} NextAfterCons(next: int, interval: int, nows: seq<int>)
    requires nows != []
    ensures NextAfter(next, interval, nows) == NextAfter(SlotAt(next, nows[0]) + interval, interval, nows[1..])
    decreases |nows|
  {
    if |nows| > 1 {
      NextAfterCons(next, interval, nows[..|nows| - 1]);
      assert nows[..|nows| - 1][1..] == nows[1..][..|nows| - 2];
    }
  }

  // ---- spacing ----

  /** For any clock, even one that goes back, and any interleaving of callers:
      later slots are at least an interval later for each slot between, none is
      before its caller's reading, and a slot is delayed only to keep clear of
      the one before it. */
  lemma {:induction false} SlotsAreSpaced(next: int, interval: int, nows: seq<int>, i: nat, j: nat)
    requires interval >= 0 && i <= j < |nows|
    ensures Slots(next, interval, nows)[j] >= Slots(next, interval, nows)[i] + (j - i) * interval
    ensures Slots(next, interval, nows)[0] >= next && Slots(next, interval, nows)[i] >= nows[i]
    ensures Slots(next, interval, nows)[i] == nows[i]
            || Slots(next, interval, nows)[i] == if i == 0 then next else Slots(next, interval, nows)[i - 1] + interval
    decreases |nows|
  {
    var rest := Slots(SlotAt(next, nows[0]) + interval, interval, nows[1..]);
    if i > 0 {
      SlotsAreSpaced(SlotAt(next, nows[0]) + interval, interval, nows[1..], i - 1, j - 1);
    } else if j > 0 {
      SlotsAreSpaced(SlotAt(next, nows[0]) + interval, interval, nows[1..], 0, j - 1);
      assert (j - 1) * interval + interval == j * interval;
    }
  }

  // ---- slots in a second ----

  // The indices of the slots in the second that starts at an instant.
  function InSecond(slots: seq<int>, start: int): set<nat> {
    set i: nat | i < |slots| && start <= slots[i] < start + SECOND
  }

  function SecondLimit(rate: nat): nat
    requires rate > 0
  {
    if SECOND % rate == 0 then rate else rate + 1
  }

  lemma IntervalFits(rate: nat)
    requires 1 <= rate <= 20
    ensures (SecondLimit(rate) - 1) * (SECOND / rate) < SECOND <= SecondLimit(rate) * (SECOND / rate)
  {
    if rate < 10 {
      assert rate in {1, 2, 3, 4, 5, 6, 7, 8, 9};
    } else {
      assert rate in {10, 11, 12, 13, 14, 15, 16, 17, 18, 19, 20};
    }
  }

  lemma {:induction false} CloseIndices(s: set<nat>, lo: nat, n: nat)
    requires forall i :: i in s ==> lo <= i < lo + n
    ensures |s| <= n
    decreases n
  {
    if n == 0 {
      assert s == {};
    } else {
      CloseIndices(s - {lo + n - 1}, lo, n - 1);
      assert s <= (s - {lo + n - 1}) + {lo + n - 1};
    }
  }

  lemma {:induction false} Least(s: set<nat>) returns (least: nat)
    requires s != {}
    ensures least in s && forall i :: i in s ==> least <= i
    decreases s
  {
    least :| least in s;
    if exists i :: i in s && i < least {
      var i :| i in s && i < least;
      var top := least;
      assert i in s - {top};
      least := Least(s - {top});
      assert forall j :: j in s ==> j == top || j in s - {top};
    }
  }

  lemma Multiples(a: int, b: int, n: int)
    requires a <= b && n >= 0
    ensures a * n <= b * n
  {
  }

  /** At any rate from 1 to 20 a second, whatever the clock and the callers do,
      a one-second window holds no more slots than the rate when it divides a
      second into whole nanoseconds, and at most one more when it does not. */
  lemma WindowLimit(rate: nat, next: int, nows: seq<int>, start: int)
    requires 1 <= rate <= 20
    ensures |InSecond(Slots(next, SECOND / rate, nows), start)| <= SecondLimit(rate)
  {
    var interval, limit := SECOND / rate, SecondLimit(rate);
    var slots := Slots(next, interval, nows);
    var inside := InSecond(slots, start);
    IntervalFits(rate);
    if inside != {} {
      var first := Least(inside);
      forall i | i in inside ensures first <= i < first + limit {
        SlotsAreSpaced(next, interval, nows, first, i);
        if i - first >= limit {
          Multiples(limit, i - first, interval);
          assert false;
        }
      }
      CloseIndices(inside, first, limit);
    }
  }

  // Callers that all come at once.
  function Rush(n: nat, now: int): seq<int> {
    seq(n, _ => now)
  }

  lemma {:induction false} RushSlots(n: nat, interval: nat, next: int, now: int, k: nat)
    requires k < n && next >= now
    ensures Slots(next, interval, Rush(n, now))[k] == next + k * interval
    decreases n
  {
    if k > 0 {
      assert Rush(n, now)[1..] == Rush(n - 1, now);
      RushSlots(n - 1, interval, next + interval, now, k - 1);
      assert interval + (k - 1) * interval == k * interval;
    }
  }

  /** The limit is reached, so it is exact: callers that come at once fill it. */
  lemma WindowLimitIsReached(rate: nat, now: int)
    requires 1 <= rate <= 20
    ensures |InSecond(Slots(now, SECOND / rate, Rush(SecondLimit(rate), now)), now)| == SecondLimit(rate)
  {
    var interval, limit := SECOND / rate, SecondLimit(rate);
    var slots := Slots(now, interval, Rush(limit, now));
    var inside := InSecond(slots, now);
    IntervalFits(rate);
    forall k: nat | k < limit ensures k in inside {
      RushSlots(limit, interval, now, now, k);
      Multiples(k, limit - 1, interval);
      Multiples(0, k, interval);
    }
    AllIndices(inside, limit);
  }

  lemma {:induction false} AllIndices(s: set<nat>, n: nat)
    requires forall i: nat :: i in s <==> i < n
    ensures |s| == n
    decreases n
  {
    if n == 0 {
      assert s == {};
    } else {
      AllIndices(s - {n - 1}, n - 1);
    }
  }

  // ---- backoff ----

  /** Without an instruction from the server the k-th delay is 2^k seconds, plus
      less than half of that. */
  lemma {:induction false} BackoffBounds(k: nat, jitter: int)
    ensures Backoff(k) <= Delay(k, None, jitter) && 2 * Delay(k, None, jitter) < 3 * Backoff(k)
    ensures Backoff(k + 1) > Delay(k, None, jitter) && Backoff(k) >= SECOND
    decreases k
  {
    if k > 0 {
      BackoffBounds(k - 1, jitter);
    }
  }

  /** What the server asks for is waited exactly. */
  lemma ServerDelayIsObeyed(k: nat, asked: int, jitter: int)
    ensures Delay(k, Some(asked), jitter) == asked
    ensures Delay(k, None, jitter) - Backoff(k) in {0, jitter}
  {
  }

  // The attempt failed in a way that is tried again, and its wait ended.
  predicate Retryable(a: Attempt) {
    a.paced && a.reply.Err? && a.reply.error.Temporary? && a.waited
  }

  /** A lookup of n attempts answers with a member exactly when the last of them
      found one after all before it failed temporarily; otherwise with the last
      failure of the delegate, or with the interruption that cut it short. */
  lemma LookupAnswers(attempts: seq<Attempt>, n: nat, answer: Result<int, Failure>)
    requires |attempts| == MAX_ATTEMPTS && 1 <= n <= MAX_ATTEMPTS
    requires forall k :: 0 <= k < n - 1 ==> Verdict(k, attempts[k]) == None
    requires Verdict(n - 1, attempts[n - 1]) == Some(answer)
    ensures forall k :: 0 <= k < n - 1 ==> Retryable(attempts[k])
    ensures n < MAX_ATTEMPTS ==> !Retryable(attempts[n - 1])
    ensures answer.Ok? <==> attempts[n - 1].paced && attempts[n - 1].reply.Ok?
    ensures answer.Ok? ==> answer == attempts[n - 1].reply
    ensures answer.Err? ==>
              answer == (if attempts[n - 1].paced && (n == MAX_ATTEMPTS || !attempts[n - 1].reply.error.Temporary?)
                         then attempts[n - 1].reply else Err(Interrupted))
    ensures (exists k :: 0 <= k < MAX_ATTEMPTS && attempts[k].paced && attempts[k].reply.Ok?
                         && forall j :: 0 <= j < k ==> Retryable(attempts[j]))
            <==> answer.Ok?
  {
    if k :| 0 <= k < MAX_ATTEMPTS && attempts[k].paced && attempts[k].reply.Ok?
            && forall j :: 0 <= j < k ==> Retryable(attempts[j])
    {
      assert k >= n - 1 && (k > n - 1 ==> Retryable(attempts[n - 1]));
    }
  }
}
