/** Folding the core's per-user counters into one ordered sample per user. */
module Collector {
  import opened Basics
  import opened BatchId
  import opened Ordering

  datatype Direction = Uplink | Downlink

  // A counter name as the name pattern sees it; the number is unbounded there.
  datatype StatName = UserCounter(user: nat, direction: Direction) | OtherName

  datatype Stat = Stat(name: StatName, value: Int64)

  predicate WellFormed(stat: Stat) {
    stat.name.UserCounter? && stat.value >= 0 && 0 < stat.name.user <= MAX_INT64
  }

  // What the response says about one user and direction.
  function Total(stats: seq<Stat>, user: int, direction: Direction): int {
    if stats == [] then 0
    else
      var last := stats[|stats| - 1];
      Total(stats[..|stats| - 1], user, direction)
      + if last.name.UserCounter? && last.name.user == user && last.name.direction == direction then last.value else 0
  }

  predicate Mentions(stats: seq<Stat>, user: int) {
    exists i :: 0 <= i < |stats| && stats[i].name.UserCounter? && stats[i].name.user == user
  }

  predicate Reported(stats: seq<Stat>, name: StatName) {
    exists i :: 0 <= i < |stats| && stats[i].name == name
  }

  ghost predicate Acceptable(stats: seq<Stat>) {
    && (forall i :: 0 <= i < |stats| ==> WellFormed(stats[i]))
    && (forall i, j :: 0 <= i < j < |stats| ==> stats[i].name != stats[j].name)
    && (forall user :: Mentions(stats, user) ==> Total(stats, user, Uplink) + Total(stats, user, Downlink) <= MAX_INT64)
  }

  ghost predicate SamplesOf(stats: seq<Stat>, samples: seq<Sample>) {
    && StrictlyOrdered(samples)
    && (forall i :: 0 <= i < |samples| ==>
          && Mentions(stats, samples[i].telegramId)
          && samples[i].uplink == Total(stats, samples[i].telegramId, Uplink)
          && samples[i].downlink == Total(stats, samples[i].telegramId, Downlink))
    && (forall user :: Mentions(stats, user) ==> exists i :: 0 <= i < |samples| && samples[i].telegramId == user)
  }

  predicate StrictlyOrdered(samples: seq<Sample>) {
    forall i, j :: 0 <= i < j < |samples| ==> samples[i].telegramId < samples[j].telegramId
  }

  datatype Counters = Counters(uplinkSet: bool, downlinkSet: bool, uplink: int, downlink: int)

  ghost predicate Folded(stats: seq<Stat>, byUser: map<int, Counters>) {
    && (forall user :: user in byUser <==> Mentions(stats, user))
    && (forall user :: user in byUser ==>
          && 0 < user <= MAX_INT64
          && byUser[user].uplink == Total(stats, user, Uplink) >= 0
          && byUser[user].downlink == Total(stats, user, Downlink) >= 0
          && byUser[user].uplink + byUser[user].downlink <= MAX_INT64
          && (byUser[user].uplinkSet <==> Reported(stats, UserCounter(user, Uplink)))
          && (byUser[user].downlinkSet <==> Reported(stats, UserCounter(user, Downlink))))
  }

  lemma {:induction false} UnmentionedTotal(stats: seq<Stat>, user: int, direction: Direction)
    requires user < 0 || !Reported(stats, UserCounter(user, direction))
    ensures Total(stats, user, direction) == 0
    decreases |stats|
  {
    if stats != [] {
      var rest := stats[..|stats| - 1];
      assert forall i :: 0 <= i < |rest| ==> rest[i] == stats[i];
      UnmentionedTotal(rest, user, direction);
    }
  }

  lemma {:induction false} TotalGrows(stats: seq<Stat>, n: nat, user: int, direction: Direction)
    requires n <= |stats| && forall i :: 0 <= i < |stats| ==> stats[i].value >= 0
    ensures 0 <= Total(stats[..n], user, direction) <= Total(stats, user, direction)
    decreases |stats|
  {
    if |stats| == 0 {
    } else {
      var rest := stats[..|stats| - 1];
      assert forall i :: 0 <= i < |rest| ==> rest[i] == stats[i];
      if n == |stats| {
        TotalGrows(rest, n - 1, user, direction);
        assert stats[..n] == stats && rest[..n - 1] == rest;
      } else {
        TotalGrows(rest, n, user, direction);
        assert rest[..n] == stats[..n];
      }
    }
  }

  // The step the fold takes on one well-formed, first-time counter.
  lemma FoldStep(stats: seq<Stat>, k: nat, byUser: map<int, Counters>, current: Counters, user: int)
    requires k < |stats| && WellFormed(stats[k]) && stats[k].name.user == user
    requires Folded(stats[..k], byUser)
    requires !Reported(stats[..k], stats[k].name)
    requires var was := if user in byUser then byUser[user] else Counters(false, false, 0, 0);
             current == match stats[k].name.direction
                        case Uplink => was.(uplinkSet := true, uplink := stats[k].value)
                        case Downlink => was.(downlinkSet := true, downlink := stats[k].value)
    ensures current.uplink == Total(stats[..k + 1], user, Uplink)
    ensures current.downlink == Total(stats[..k + 1], user, Downlink)
    ensures current.uplink + current.downlink <= MAX_INT64 ==> Folded(stats[..k + 1], byUser[user := current])
  {
    var before, after := stats[..k], stats[..k + 1];
    assert after[..|after| - 1] == before && after[k] == stats[k];
    assert forall name :: Reported(after, name) <==> Reported(before, name) || name == stats[k].name by {
      forall name | Reported(before, name) || name == stats[k].name ensures Reported(after, name) {
        if Reported(before, name) {
          var i :| 0 <= i < |before| && before[i].name == name;
          assert after[i].name == name;
        }
      }
    }
    assert forall u :: Mentions(after, u) <==> Mentions(before, u) || u == user by {
      forall u | Mentions(before, u) || u == user ensures Mentions(after, u) {
        if Mentions(before, u) {
          var i :| 0 <= i < |before| && before[i].name.UserCounter? && before[i].name.user == u;
          assert after[i] == before[i];
        }
      }
    }
    UnmentionedTotal(before, user, stats[k].name.direction);
    if user !in byUser {
      NeverReported(before, user);
      UnmentionedTotal(before, user, Uplink);
      UnmentionedTotal(before, user, Downlink);
    }
  }

  lemma NeverReported(stats: seq<Stat>, user: int)
    requires !Mentions(stats, user) && user >= 0
    ensures !Reported(stats, UserCounter(user, Uplink)) && !Reported(stats, UserCounter(user, Downlink))
  {
  }

  lemma DuplicateRefutes(stats: seq<Stat>, k: nat)
    requires k < |stats| && Reported(stats[..k], stats[k].name)
    ensures !Acceptable(stats)
  {
    var i :| 0 <= i < k && stats[..k][i].name == stats[k].name;
    assert stats[i].name == stats[k].name;
  }

  // The body of the fold: the user's counters after the k-th counter.
  method AddCounter(stats: seq<Stat>, k: nat, byUser: map<int, Counters>) returns (r: Option<Counters>)
    requires k < |stats| && WellFormed(stats[k]) && Folded(stats[..k], byUser)
    ensures r.None? ==> !Acceptable(stats)
    ensures r.Some? ==> !Reported(stats[..k], stats[k].name)
    ensures r.Some? ==> Folded(stats[..k + 1], byUser[stats[k].name.user := r.value])
  {
    var user := stats[k].name.user;
    var current := if user in byUser then byUser[user] else Counters(false, false, 0, 0);
    if user !in byUser {
      NeverReported(stats[..k], user);
    }
    match stats[k].name.direction {
      case Uplink =>
        if current.uplinkSet {
          DuplicateRefutes(stats, k);
          return None;
        }
        current := current.(uplinkSet := true, uplink := stats[k].value);
      case Downlink =>
        if current.downlinkSet {
          DuplicateRefutes(stats, k);
          return None;
        }
        current := current.(downlinkSet := true, downlink := stats[k].value);
    }
    FoldStep(stats, k, byUser, current, user);
    if current.uplink > MAX_INT64 - current.downlink {
      OverflowRefutes(stats, k, user);
      return None;
    }
    r := Some(current);
  }

  method Fold(stats: seq<Stat>) returns (r: Option<map<int, Counters>>)
    ensures r.Some? <==> Acceptable(stats)
    ensures r.Some? ==> Folded(stats, r.value)
  {
    var byUser: map<int, Counters> := map[];
    for k := 0 to |stats|
      invariant forall i :: 0 <= i < k ==> WellFormed(stats[i])
      invariant forall i, j :: 0 <= i < j < k ==> stats[i].name != stats[j].name
      invariant Folded(stats[..k], byUser)
    {
      var stat := stats[k];
      if !stat.name.UserCounter? || stat.value < 0 || stat.name.user == 0 || stat.name.user > MAX_INT64 {
        assert !WellFormed(stats[k]);
        return None;
      }
      var current := AddCounter(stats, k, byUser);
      if current.None? {
        return None;
      }
      forall i | 0 <= i < k ensures stats[i].name != stats[k].name {
        assert stats[..k][i] == stats[i];
      }
      byUser := byUser[stat.name.user := current.value];
    }
    assert stats[..|stats|] == stats;
    FoldedFits(stats, byUser);
    r := Some(byUser);
  }

  lemma FoldedFits(stats: seq<Stat>, byUser: map<int, Counters>)
    requires Folded(stats, byUser)
    ensures forall user :: Mentions(stats, user) ==>
              Total(stats, user, Uplink) + Total(stats, user, Downlink) <= MAX_INT64
  {
  }

  /** Refuses the response exactly when a counter is malformed, negative,
      duplicated or a user's two counters do not fit an int64; otherwise returns
      every mentioned user once, in ascending order, with that user's counters. */
  method Collect(stats: seq<Stat>) returns (r: Result<seq<Sample>, ()>)
    ensures r.Ok? <==> Acceptable(stats)
    ensures r.Ok? ==> SamplesOf(stats, r.value)
  {
    hide Acceptable, SamplesOf, Folded;
    var folded := Fold(stats);
    if folded.None? {
      return Err(());
    }
    var byUser := folded.value;
    var ids := SortIds(byUser.Keys);
    var samples: seq<Sample> := [];
    for k := 0 to |ids|
      invariant |samples| == k
      invariant forall i :: 0 <= i < k ==>
                  ids[i] in byUser && samples[i] == Sample(ids[i], byUser[ids[i]].uplink, byUser[ids[i]].downlink)
    {
      assert ids[k] in ids;
      var current := byUser[ids[k]];
      samples := samples + [Sample(ids[k], current.uplink, current.downlink)];
    }
    ListedSamples(stats, byUser, ids, samples);
    r := Ok(samples);
  }

  lemma ListedSamples(stats: seq<Stat>, byUser: map<int, Counters>, ids: seq<int>, samples: seq<Sample>)
    requires Folded(stats, byUser) && Sorted(ids) && forall x :: x in ids <==> x in byUser
    requires |samples| == |ids|
    requires forall i :: 0 <= i < |ids| ==>
               ids[i] in byUser && samples[i] == Sample(ids[i], byUser[ids[i]].uplink, byUser[ids[i]].downlink)
    ensures SamplesOf(stats, samples)
  {
    hide Mentions, Total, Reported;
    forall user | Mentions(stats, user) ensures exists i :: 0 <= i < |samples| && samples[i].telegramId == user {
      assert user in ids;
      var i :| 0 <= i < |ids| && ids[i] == user;
      assert samples[i].telegramId == user;
    }
  }

  lemma OverflowRefutes(stats: seq<Stat>, k: nat, user: int)
    requires k < |stats| && stats[k].name.UserCounter? && stats[k].name.user == user
    requires Total(stats[..k + 1], user, Uplink) + Total(stats[..k + 1], user, Downlink) > MAX_INT64
    ensures !Acceptable(stats)
  {
    if Acceptable(stats) {
      assert forall i :: 0 <= i < |stats| ==> WellFormed(stats[i]);
      TotalGrows(stats, k + 1, user, Uplink);
      TotalGrows(stats, k + 1, user, Downlink);
      assert Mentions(stats, user);
    }
  }

  // ---- conservation ----

  function StatBytes(stats: seq<Stat>): int {
    if stats == [] then 0 else StatBytes(stats[..|stats| - 1]) + stats[|stats| - 1].value
  }

  function SampleBytes(samples: seq<Sample>): int {
    if samples == [] then 0 else samples[0].uplink + samples[0].downlink + SampleBytes(samples[1..])
  }

  function UserBytes(stats: seq<Stat>, users: seq<int>): int {
    if users == [] then 0
    else Total(stats, users[0], Uplink) + Total(stats, users[0], Downlink) + UserBytes(stats, users[1..])
  }

  predicate Distinct(users: seq<int>) {
    forall i, j :: 0 <= i < j < |users| ==> users[i] != users[j]
  }

  lemma {:induction false} OneMoreStat(stats: seq<Stat>, users: seq<int>)
    requires stats != [] && stats[|stats| - 1].name.UserCounter? && Distinct(users)
    ensures var last := stats[|stats| - 1];
            UserBytes(stats, users)
            == UserBytes(stats[..|stats| - 1], users) + if last.name.user in users then last.value else 0
    decreases |users|
  {
    if users != [] {
      OneMoreStat(stats, users[1..]);
      assert forall i :: 0 < i < |users| ==> users[i] != users[0];
      assert forall x :: x in users <==> x == users[0] || x in users[1..];
    }
  }

  lemma {:induction false} EveryByteHasAUser(stats: seq<Stat>, users: seq<int>)
    requires Distinct(users)
    requires forall i :: 0 <= i < |stats| ==> stats[i].name.UserCounter? && stats[i].name.user in users
    ensures UserBytes(stats, users) == StatBytes(stats)
    decreases |stats|
  {
    if stats == [] {
      NoStats(users);
    } else {
      var rest := stats[..|stats| - 1];
      assert forall i :: 0 <= i < |rest| ==> rest[i] == stats[i];
      EveryByteHasAUser(rest, users);
      OneMoreStat(stats, users);
    }
  }

  lemma {:induction false} NoStats(users: seq<int>)
    ensures UserBytes([], users) == 0
    decreases |users|
  {
    if users != [] {
      NoStats(users[1..]);
    }
  }

  function Users(samples: seq<Sample>): (r: seq<int>)
    ensures |r| == |samples| && forall i :: 0 <= i < |r| ==> r[i] == samples[i].telegramId
  {
    if samples == [] then [] else [samples[0].telegramId] + Users(samples[1..])
  }

  lemma {:induction false} SampleBytesAreUserBytes(stats: seq<Stat>, samples: seq<Sample>)
    requires forall i :: 0 <= i < |samples| ==>
               && samples[i].uplink == Total(stats, samples[i].telegramId, Uplink)
               && samples[i].downlink == Total(stats, samples[i].telegramId, Downlink)
    ensures SampleBytes(samples) == UserBytes(stats, Users(samples))
    decreases |samples|
  {
    if samples != [] {
      SampleBytesAreUserBytes(stats, samples[1..]);
      assert Users(samples)[1..] == Users(samples[1..]);
    }
  }

  /** No byte the reset drained is dropped or counted twice by the fold. */
  lemma {:induction false} CollectConserves(stats: seq<Stat>, samples: seq<Sample>)
    requires Acceptable(stats) && SamplesOf(stats, samples)
    ensures SampleBytes(samples) == StatBytes(stats)
  {
    SampleBytesAreUserBytes(stats, samples);
    var users := Users(samples);
    forall i | 0 <= i < |stats| ensures stats[i].name.UserCounter? && stats[i].name.user in users {
      assert WellFormed(stats[i]);
      assert Mentions(stats, stats[i].name.user);
      var j :| 0 <= j < |samples| && samples[j].telegramId == stats[i].name.user;
      assert users[j] == stats[i].name.user;
    }
    EveryByteHasAUser(stats, users);
  }

  /** The samples of an accepted response are always a storable batch. */
  lemma CollectedIsStorable(stats: seq<Stat>, samples: seq<Sample>)
    requires Acceptable(stats) && SamplesOf(stats, samples)
    ensures forall i :: 0 <= i < |samples| ==>
              Storable(samples[i]) && samples[i].telegramId > 0 && samples[i].uplink + samples[i].downlink <= MAX_INT64
  {
    forall i | 0 <= i < |samples|
      ensures Storable(samples[i]) && samples[i].telegramId > 0 && samples[i].uplink + samples[i].downlink <= MAX_INT64
    {
      var user := samples[i].telegramId;
      var k :| 0 <= k < |stats| && stats[k].name.UserCounter? && stats[k].name.user == user;
      assert WellFormed(stats[k]);
      assert forall m :: 0 <= m < |stats| ==> WellFormed(stats[m]);
      TotalGrows(stats, 0, user, Uplink);
      TotalGrows(stats, 0, user, Downlink);
    }
  }
}
