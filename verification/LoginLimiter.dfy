/** The sliding-window login limiter against the full history of attempts. */
module LoginLimiter {
  import opened Basics

  datatype Limits = Limits(
    accountAttempts: int, accountWindow: int, ipAttempts: int, ipWindow: int, globalAttempts: int, globalWindow: int)
  {
    predicate Usable() {
      && accountAttempts > 0 && accountWindow > 0 && ipAttempts > 0 && ipWindow > 0
      && globalAttempts > 0 && globalWindow > 0
    }
  }

  datatype Event = Event(id: nat, at: Time, pending: bool)

  // ---- the history, and what it says ----

  // An admitted attempt, or the report of how one ended.
  datatype Moment =
    | Began(id: nat, ip: string, account: int, at: Time)
    | Ended(id: nat, ip: string, account: int, succeeded: bool)

  datatype Key = Everyone | Ip(ip: string) | Account(account: int)

  predicate Matches(m: Moment, key: Key) {
    match key
    case Everyone => true
    case Ip(ip) => m.ip == ip
    case Account(account) => m.account == account
  }

  predicate EndedBefore(h: seq<Moment>, i: nat, until: nat)
    requires i < |h| && until <= |h|
  {
    exists k :: i < k < until && h[k].Ended? && h[k].id == h[i].id
  }

  // A success on a key forgives that attempt and the key's finished ones.
  // Nothing is ever forgiven in the count over everyone.
  predicate Forgives(h: seq<Moment>, i: nat, j: nat, key: Key)
    requires i < j < |h|
  {
    && h[j].Ended? && h[j].succeeded && key != Everyone && Matches(h[j], key)
    && (h[j].id == h[i].id || EndedBefore(h, i, j))
  }

  predicate Forgiven(h: seq<Moment>, i: nat, key: Key)
    requires i < |h|
  {
    exists j :: i < j < |h| && Forgives(h, i, j, key)
  }

  predicate Counts(h: seq<Moment>, i: nat, key: Key, cutoff: int)
    requires i < |h|
  {
    h[i].Began? && Matches(h[i], key) && h[i].at > cutoff && !Forgiven(h, i, key)
  }

  // The first n moments that still count against a key.
  function Attempts(h: seq<Moment>, n: nat, key: Key, cutoff: int): set<nat>
    requires n <= |h|
  {
    set i: nat | i < n && Counts(h, i, key, cutoff)
  }

  predicate Admits(h: seq<Moment>, limits: Limits, ip: string, account: int, now: Time) {
    && |Attempts(h, |h|, Everyone, now - limits.globalWindow)| < limits.globalAttempts
    && |Attempts(h, |h|, Ip(ip), now - limits.ipWindow)| < limits.ipAttempts
    && |Attempts(h, |h|, Account(account), now - limits.accountWindow)| < limits.accountAttempts
  }

  predicate Opens(m: Moment, end: Moment) {
    m.Began? && m.id == end.id && m.ip == end.ip && m.account == end.account
  }

  ghost predicate Begun(h: seq<Moment>, id: nat, ip: string, account: int) {
    exists i :: 0 <= i < |h| && h[i].Began? && h[i].id == id && h[i].ip == ip && h[i].account == account
  }

  ghost predicate Over(h: seq<Moment>, id: nat) {
    exists i :: 0 <= i < |h| && h[i].Ended? && h[i].id == id
  }

  // Attempts begin in the order of their ids and times, and end at most once.
  ghost predicate WellFormed(h: seq<Moment>) {
    && (forall i, j :: 0 <= i < j < |h| && h[i].Began? && h[j].Began? ==> h[i].at <= h[j].at && h[i].id < h[j].id)
    && (forall j :: 0 <= j < |h| && h[j].Ended? ==> exists i :: 0 <= i < j && Opens(h[i], h[j]))
    && (forall i, j :: 0 <= i < j < |h| && h[i].Ended? && h[j].Ended? ==> h[i].id != h[j].id)
  }

  // ---- what the limiter has to keep of it ----

  // The unforgiven attempts of a key among the first n moments.
  function Kept(h: seq<Moment>, n: nat, key: Key): (events: seq<Event>)
    requires n <= |h|
  {
    if n == 0 then []
    else
      var i := n - 1;
      if h[i].Began? && Matches(h[i], key) && !Forgiven(h, i, key)
      then Kept(h, i, key) + [Event(h[i].id, h[i].at, !EndedBefore(h, i, |h|))]
      else Kept(h, i, key)
  }

  function Recent(events: seq<Event>, cutoff: int): seq<Event> {
    if events == [] then []
    else
      var before, e := Recent(events[..|events| - 1], cutoff), events[|events| - 1];
      if e.at > cutoff then before + [e] else before
  }

  function RetainPendingExcept(events: seq<Event>, id: nat): seq<Event> {
    if events == [] then []
    else
      var before, e := RetainPendingExcept(events[..|events| - 1], id), events[|events| - 1];
      if e.pending && e.id != id then before + [e] else before
  }

  function MarkedOne(e: Event, id: nat): Event {
    if e.id == id then e.(pending := false) else e
  }

  function Marked(events: seq<Event>, id: nat): (r: seq<Event>)
    ensures |r| == |events| && forall k :: 0 <= k < |r| ==> r[k] == MarkedOne(events[k], id)
  {
    if events == [] then [] else Marked(events[..|events| - 1], id) + [MarkedOne(events[|events| - 1], id)]
  }

  function BeginTimes(h: seq<Moment>, cutoff: int): seq<Time> {
    if h == [] then []
    else
      var before, m := BeginTimes(h[..|h| - 1], cutoff), h[|h| - 1];
      if m.Began? && m.at > cutoff then before + [m.at] else before
  }

  predicate Ascending(events: seq<Event>) {
    forall i, j :: 0 <= i < j < |events| ==> events[i].at <= events[j].at && events[i].id < events[j].id
  }

  // ---- filters on events ----

  lemma Snoc<T>(s: seq<T>, x: T)
    ensures (s + [x])[..|s|] == s
  {
  }

  lemma RecentSnoc(events: seq<Event>, e: Event, cutoff: int)
    ensures Recent(events + [e], cutoff)
         == if e.at > cutoff then Recent(events, cutoff) + [e] else Recent(events, cutoff)
  {
    Snoc(events, e);
  }

  lemma {:induction false} RecentIsSuffix(events: seq<Event>, k: nat, cutoff: int)
    requires k <= |events|
    requires forall i :: 0 <= i < k ==> events[i].at <= cutoff
    requires forall i :: k <= i < |events| ==> events[i].at > cutoff
    ensures Recent(events, cutoff) == events[k..]
    decreases |events|
  {
    if events != [] {
      var before, e := events[..|events| - 1], events[|events| - 1];
      assert events == before + [e];
      RecentSnoc(before, e, cutoff);
      hide Recent;
      if k == |events| {
        RecentIsSuffix(before, k - 1, cutoff);
      } else {
        RecentIsSuffix(before, k, cutoff);
        assert events[k..] == before[k..] + [e];
      }
    }
  }

  lemma RetainSnoc(events: seq<Event>, e: Event, id: nat)
    ensures RetainPendingExcept(events + [e], id)
         == if e.pending && e.id != id then RetainPendingExcept(events, id) + [e] else RetainPendingExcept(events, id)
  {
    Snoc(events, e);
  }

  lemma MarkSnoc(events: seq<Event>, e: Event, id: nat)
    ensures Marked(events + [e], id) == Marked(events, id) + [MarkedOne(e, id)]
  {
  }

  lemma {:induction false} RecentTwice(events: seq<Event>, cutoff: int, later: int)
    requires cutoff <= later
    ensures Recent(Recent(events, cutoff), later) == Recent(events, later)
    decreases |events|
  {
    if events != [] {
      var before, e := events[..|events| - 1], events[|events| - 1];
      RecentTwice(before, cutoff, later);
      RecentSnoc(Recent(before, cutoff), e, later);
    }
  }

  lemma {:induction false} RetainAfterRecent(events: seq<Event>, cutoff: int, id: nat)
    ensures RetainPendingExcept(Recent(events, cutoff), id) == Recent(RetainPendingExcept(events, id), cutoff)
    decreases |events|
  {
    if events != [] {
      var before, e := events[..|events| - 1], events[|events| - 1];
      assert events == before + [e];
      RetainAfterRecent(before, cutoff, id);
      RecentSnoc(before, e, cutoff);
      RetainSnoc(before, e, id);
      RetainSnoc(Recent(before, cutoff), e, id);
      RecentSnoc(RetainPendingExcept(before, id), e, cutoff);
      hide Recent, RetainPendingExcept;
    }
  }

  lemma {:induction false} MarkAfterRecent(events: seq<Event>, cutoff: int, id: nat)
    ensures Marked(Recent(events, cutoff), id) == Recent(Marked(events, id), cutoff)
    decreases |events|
  {
    if events != [] {
      var before, e := events[..|events| - 1], events[|events| - 1];
      assert events == before + [e];
      MarkAfterRecent(before, cutoff, id);
      RecentSnoc(before, e, cutoff);
      MarkSnoc(before, e, id);
      MarkSnoc(Recent(before, cutoff), e, id);
      RecentSnoc(Marked(before, id), MarkedOne(e, id), cutoff);
      hide Recent, Marked;
    }
  }

  // ---- how the kept attempts change ----

  lemma ForgivenLater(h: seq<Moment>, m: Moment, i: nat, key: Key)
    requires i < |h|
    ensures EndedBefore(h + [m], i, |h| + 1) <==> EndedBefore(h, i, |h|) || (m.Ended? && m.id == h[i].id)
    ensures Forgiven(h + [m], i, key) <==>
              Forgiven(h, i, key)
              || (m.Ended? && m.succeeded && key != Everyone && Matches(m, key)
                  && (m.id == h[i].id || EndedBefore(h, i, |h|)))
  {
    var h' := h + [m];
    forall j | i < j <= |h| ensures EndedBefore(h', i, j) == EndedBefore(h, i, j) {
      assert forall k :: i < k < j ==> h'[k] == h[k];
    }
    assert h'[|h|] == m;
    assert forall k :: 0 <= k < |h| ==> h'[k] == h[k];
    forall j | i < j < |h| ensures Forgives(h', i, j, key) == Forgives(h, i, j, key) {
    }
    if Forgiven(h, i, key) {
      var j :| i < j < |h| && Forgives(h, i, j, key);
      assert Forgives(h', i, j, key);
    }
    if m.Ended? && m.succeeded && key != Everyone && Matches(m, key) && (m.id == h[i].id || EndedBefore(h, i, |h|)) {
      assert Forgives(h', i, |h|, key);
    }
  }

  // What one more moment does to the kept attempts of a key.
  function Changed(events: seq<Event>, m: Moment, key: Key): seq<Event> {
    if m.Began? || key == Everyone || !Matches(m, key) then events
    else if m.succeeded then RetainPendingExcept(events, m.id)
    else Marked(events, m.id)
  }

  lemma NothingChanges(m: Moment, key: Key)
    ensures Changed([], m, key) == []
  {
  }

  lemma OpenerMatches(h: seq<Moment>, m: Moment, i: nat, key: Key)
    requires WellFormed(h + [m]) && i < |h| && h[i].Began? && m.Ended? && m.id == h[i].id && Matches(h[i], key)
    ensures Matches(m, key)
  {
    var h' := h + [m];
    assert h'[|h|] == m;
    var b :| 0 <= b < |h| && Opens(h'[b], h'[|h|]);
    assert h'[i] == h[i];
    IdsAreUnique(h', b, i);
  }

  lemma IdsAreUnique(h: seq<Moment>, i: nat, j: nat)
    requires WellFormed(h) && i < |h| && j < |h| && h[i].Began? && h[j].Began? && h[i].id == h[j].id
    ensures i == j
  {
  }

  // How the i-th moment shows among the kept attempts, if it does.
  lemma KeptSnoc(h: seq<Moment>, i: nat, key: Key)
    requires i < |h|
    ensures Kept(h, i + 1, key)
         == if h[i].Began? && Matches(h[i], key) && !Forgiven(h, i, key)
            then Kept(h, i, key) + [Event(h[i].id, h[i].at, !EndedBefore(h, i, |h|))] else Kept(h, i, key)
  {
  }

  lemma KeptStep(h: seq<Moment>, m: Moment, i: nat, key: Key)
    requires i < |h| && key != Everyone && WellFormed(h + [m])
    requires Kept(h + [m], i, key) == Changed(Kept(h, i, key), m, key)
    ensures Kept(h + [m], i + 1, key) == Changed(Kept(h, i + 1, key), m, key)
  {
    hide WellFormed, RetainPendingExcept, Marked, EndedBefore, Forgiven, Kept;
    KeptSnoc(h, i, key);
    KeptSnoc(h + [m], i, key);
    ForgivenLater(h, m, i, key);
    assert (h + [m])[i] == h[i];
    if h[i].Began? && Matches(h[i], key) && !Forgiven(h, i, key) {
      var e := Event(h[i].id, h[i].at, !EndedBefore(h, i, |h|));
      if m.Ended? && m.id == h[i].id {
        OpenerMatches(h, m, i, key);
      }
      RetainSnoc(Kept(h, i, key), e, m.id);
      MarkSnoc(Kept(h, i, key), e, m.id);
    }
  }

  lemma {:induction false} KeptChanges(h: seq<Moment>, m: Moment, n: nat, key: Key)
    requires n <= |h| && key != Everyone && WellFormed(h + [m])
    ensures Kept(h + [m], n, key) == Changed(Kept(h, n, key), m, key)
    decreases n
  {
    hide WellFormed, Changed;
    if n == 0 {
      NothingChanges(m, key);
    } else {
      KeptChanges(h, m, n - 1, key);
      hide Kept;
      KeptStep(h, m, n - 1, key);
    }
  }

  lemma KeptFollows(h: seq<Moment>, m: Moment, key: Key)
    requires key != Everyone && WellFormed(h + [m])
    ensures Kept(h + [m], |h| + 1, key)
         == if m.Began? && Matches(m, key) then Kept(h, |h|, key) + [Event(m.id, m.at, true)]
            else Changed(Kept(h, |h|, key), m, key)
  {
    KeptChanges(h, m, |h|, key);
    assert (h + [m])[|h|] == m;
  }

  lemma {:induction false} KeptMembers(h: seq<Moment>, n: nat, key: Key, x: Event)
    requires n <= |h| && x in Kept(h, n, key)
    ensures exists i :: 0 <= i < n && h[i].Began? && h[i].id == x.id && h[i].at == x.at
    decreases n
  {
    hide Forgiven, EndedBefore;
    if x in Kept(h, n - 1, key) {
      KeptMembers(h, n - 1, key, x);
    } else {
      assert h[n - 1].Began? && h[n - 1].id == x.id && h[n - 1].at == x.at;
    }
  }

  lemma {:induction false} KeptIsAscending(h: seq<Moment>, n: nat, key: Key)
    requires n <= |h| && WellFormed(h)
    ensures Ascending(Kept(h, n, key))
    decreases n
  {
    hide Forgiven, EndedBefore, Ascending;
    if n == 0 {
      NoneAscend();
    } else {
      var i, before := n - 1, Kept(h, n - 1, key);
      KeptIsAscending(h, i, key);
      if h[i].Began? {
        var e := Event(h[i].id, h[i].at, !EndedBefore(h, i, |h|));
        forall x | x in before ensures x.at <= e.at && x.id < e.id {
          KeptMembers(h, i, key, x);
        }
        AscendingSnoc(before, e);
      }
    }
  }

  lemma NoneAscend()
    ensures Ascending([])
  {
  }

  lemma {:induction false} RecentMembers(events: seq<Event>, cutoff: int, x: Event)
    requires x in Recent(events, cutoff)
    ensures x in events
    decreases |events|
  {
    var before, e := events[..|events| - 1], events[|events| - 1];
    if x != e {
      RecentMembers(before, cutoff, x);
    }
  }

  lemma AscendingSnoc(events: seq<Event>, e: Event)
    requires Ascending(events)
    requires forall x :: x in events ==> x.at <= e.at && x.id < e.id
    ensures Ascending(events + [e])
  {
    forall i | 0 <= i < |events| ensures events[i] in events {
    }
  }

  lemma AscendingLast(events: seq<Event>, x: Event)
    requires Ascending(events) && events != [] && x in events[..|events| - 1]
    ensures x.at <= events[|events| - 1].at && x.id < events[|events| - 1].id
  {
  }

  lemma {:induction false} RecentIsAscending(events: seq<Event>, cutoff: int)
    requires Ascending(events)
    ensures Ascending(Recent(events, cutoff))
    decreases |events|
  {
    if events != [] {
      var before, e := events[..|events| - 1], events[|events| - 1];
      RecentIsAscending(before, cutoff);
      forall x | x in Recent(before, cutoff) ensures x.at <= e.at && x.id < e.id {
        RecentMembers(before, cutoff, x);
        AscendingLast(events, x);
      }
      AscendingSnoc(Recent(before, cutoff), e);
      hide Ascending;
    }
  }

  // ---- lengths are counts ----

  lemma KeptGrows(h: seq<Moment>, i: nat, key: Key, cutoff: int)
    requires i < |h|
    ensures |Recent(Kept(h, i + 1, key), cutoff)|
         == |Recent(Kept(h, i, key), cutoff)| + if Counts(h, i, key, cutoff) then 1 else 0
  {
    hide Forgiven, Recent;
    if h[i].Began? {
      RecentSnoc(Kept(h, i, key), Event(h[i].id, h[i].at, !EndedBefore(h, i, |h|)), cutoff);
    }
  }

  lemma AttemptsGrow(h: seq<Moment>, i: nat, key: Key, cutoff: int)
    requires i < |h|
    ensures |Attempts(h, i + 1, key, cutoff)|
         == |Attempts(h, i, key, cutoff)| + if Counts(h, i, key, cutoff) then 1 else 0
  {
    hide Counts;
    assert Attempts(h, i + 1, key, cutoff)
        == if Counts(h, i, key, cutoff) then Attempts(h, i, key, cutoff) + {i} else Attempts(h, i, key, cutoff);
  }

  /** The recent kept attempts of a key are, in number, exactly the attempts
      of the whole history that count against it. */
  lemma {:induction false} KeptCounts(h: seq<Moment>, n: nat, key: Key, cutoff: int)
    requires n <= |h|
    ensures |Recent(Kept(h, n, key), cutoff)| == |Attempts(h, n, key, cutoff)|
    decreases n
  {
    if n > 0 {
      var i := n - 1;
      KeptCounts(h, i, key, cutoff);
      KeptGrows(h, i, key, cutoff);
      AttemptsGrow(h, i, key, cutoff);
      hide Kept, Recent, Attempts, Counts;
    } else {
      assert Attempts(h, n, key, cutoff) == {};
    }
  }

  lemma {:induction false} BeginTimesCount(h: seq<Moment>, cutoff: int)
    ensures |BeginTimes(h, cutoff)| == |Attempts(h, |h|, Everyone, cutoff)|
    decreases |h|
  {
    if h == [] {
      assert Attempts(h, |h|, Everyone, cutoff) == {};
    } else {
      var before, last := h[..|h| - 1], |h| - 1;
      BeginTimesCount(before, cutoff);
      forall i: nat | i < last ensures Counts(h, i, Everyone, cutoff) <==> Counts(before, i, Everyone, cutoff) {
        assert before[i] == h[i];
      }
      assert Attempts(h, |h|, Everyone, cutoff)
          == Attempts(before, |before|, Everyone, cutoff) + if Counts(h, last, Everyone, cutoff) then {last} else {};
    }
  }

  predicate AscendingTimes(times: seq<Time>) {
    forall i, j :: 0 <= i < j < |times| ==> times[i] <= times[j]
  }

  lemma {:induction false} BeginTimesAscend(h: seq<Moment>, cutoff: int)
    requires WellFormed(h)
    ensures AscendingTimes(BeginTimes(h, cutoff))
    ensures forall t :: t in BeginTimes(h, cutoff) ==> exists i :: 0 <= i < |h| && h[i].Began? && h[i].at == t
    decreases |h|
  {
    if h != [] {
      var before := h[..|h| - 1];
      PrefixIsWellFormed(h, |h| - 1);
      BeginTimesAscend(before, cutoff);
      forall t | t in BeginTimes(before, cutoff) ensures exists i :: 0 <= i < |h| - 1 && h[i].Began? && h[i].at == t {
        var i :| 0 <= i < |before| && before[i].Began? && before[i].at == t;
        assert h[i] == before[i];
      }
      var last := h[|h| - 1];
      if last.Began? && last.at > cutoff {
        assert BeginTimes(h, cutoff) == BeginTimes(before, cutoff) + [last.at];
        forall t | t in BeginTimes(before, cutoff) ensures t <= last.at {
          var i :| 0 <= i < |h| - 1 && h[i].Began? && h[i].at == t;
          assert h[|h| - 1].Began?;
        }
        forall j | 0 <= j < |BeginTimes(before, cutoff)| ensures BeginTimes(before, cutoff)[j] <= last.at {
          assert BeginTimes(before, cutoff)[j] in BeginTimes(before, cutoff);
        }
      }
    }
  }

  // Pruning the begin times again drops just the ones now too old.
  lemma {:induction false} BeginTimesPrune(h: seq<Moment>, cutoff: int, later: int, k: nat)
    requires cutoff <= later && k <= |BeginTimes(h, cutoff)|
    requires forall i :: 0 <= i < k ==> BeginTimes(h, cutoff)[i] <= later
    requires forall i :: k <= i < |BeginTimes(h, cutoff)| ==> BeginTimes(h, cutoff)[i] > later
    ensures BeginTimes(h, later) == BeginTimes(h, cutoff)[k..]
    decreases |h|
  {
    if h != [] {
      var before, m := BeginTimes(h[..|h| - 1], cutoff), h[|h| - 1];
      var times := BeginTimes(h, cutoff);
      assert forall i :: 0 <= i < |before| ==> times[i] == before[i];
      BeginTimesPrune(h[..|h| - 1], cutoff, later, if k > |before| then |before| else k);
      if |times| > |before| {
        assert times[|before|] == m.at;
        assert k <= |before| ==> times[k..] == before[k..] + [m.at];
      }
    }
  }

  lemma PrefixIsWellFormed(h: seq<Moment>, n: nat)
    requires n <= |h| && WellFormed(h)
    ensures WellFormed(h[..n])
  {
    forall j | 0 <= j < n && h[j].Ended? ensures exists i :: 0 <= i < j && Opens(h[..n][i], h[..n][j]) {
      var i :| 0 <= i < j && Opens(h[i], h[j]);
      assert h[..n][i] == h[i];
    }
  }

  // ---- the limiter ----

  function Lookup<K>(m: map<K, seq<Event>>, key: K): seq<Event> {
    if key in m then m[key] else []
  }

  // No list is stored empty.
  function Stored<K>(m: map<K, seq<Event>>, key: K, events: seq<Event>): map<K, seq<Event>> {
    if events == [] then m - {key} else m[key := events]
  }

  ghost predicate IpsAgree(byIp: map<string, seq<Event>>, h: seq<Moment>, cutoff: int) {
    && (forall ip :: Lookup(byIp, ip) == Recent(Kept(h, |h|, Ip(ip)), cutoff))
    && (forall ip :: ip in byIp ==> byIp[ip] != [])
  }

  ghost predicate AccountsAgree(byAccount: map<int, seq<Event>>, h: seq<Moment>, cutoff: int) {
    && (forall account :: Lookup(byAccount, account) == Recent(Kept(h, |h|, Account(account)), cutoff))
    && (forall account :: account in byAccount ==> byAccount[account] != [])
  }

  // What is stored for a key is ascending, and pruning it again is pruning all.
  lemma KeyPrunes(h: seq<Moment>, key: Key, cutoff: int, later: int)
    requires WellFormed(h) && cutoff <= later
    ensures Ascending(Recent(Kept(h, |h|, key), cutoff))
    ensures Recent(Recent(Kept(h, |h|, key), cutoff), later) == Recent(Kept(h, |h|, key), later)
  {
    KeptIsAscending(h, |h|, key);
    RecentIsAscending(Kept(h, |h|, key), cutoff);
    RecentTwice(Kept(h, |h|, key), cutoff, later);
  }

  lemma IpsPrune(byIp: map<string, seq<Event>>, h: seq<Moment>, cutoff: int, later: int)
    requires WellFormed(h) && IpsAgree(byIp, h, cutoff) && cutoff <= later
    ensures forall ip :: ip in byIp ==> Ascending(byIp[ip])
    ensures forall ip :: Recent(Lookup(byIp, ip), later) == Recent(Kept(h, |h|, Ip(ip)), later)
  {
    hide WellFormed, Ascending, Recent;
    forall ip | true
      ensures ip in byIp ==> Ascending(byIp[ip])
      ensures Recent(Lookup(byIp, ip), later) == Recent(Kept(h, |h|, Ip(ip)), later)
    {
      KeyPrunes(h, Ip(ip), cutoff, later);
      assert Lookup(byIp, ip) == Recent(Kept(h, |h|, Ip(ip)), cutoff);
    }
  }

  lemma AccountsPrune(byAccount: map<int, seq<Event>>, h: seq<Moment>, cutoff: int, later: int)
    requires WellFormed(h) && AccountsAgree(byAccount, h, cutoff) && cutoff <= later
    ensures forall account :: account in byAccount ==> Ascending(byAccount[account])
    ensures forall account :: Recent(Lookup(byAccount, account), later) == Recent(Kept(h, |h|, Account(account)), later)
  {
    hide WellFormed, Ascending, Recent;
    forall account | true
      ensures account in byAccount ==> Ascending(byAccount[account])
      ensures Recent(Lookup(byAccount, account), later) == Recent(Kept(h, |h|, Account(account)), later)
    {
      KeyPrunes(h, Account(account), cutoff, later);
      assert Lookup(byAccount, account) == Recent(Kept(h, |h|, Account(account)), cutoff);
    }
  }

  lemma CountsAreLengths(h: seq<Moment>, limits: Limits, ip: string, account: int, now: Time,
                         byIp: map<string, seq<Event>>, byAccount: map<int, seq<Event>>)
    requires IpsAgree(byIp, h, now - limits.ipWindow) && AccountsAgree(byAccount, h, now - limits.accountWindow)
    ensures Admits(h, limits, ip, account, now) <==>
              && |BeginTimes(h, now - limits.globalWindow)| < limits.globalAttempts
              && |Lookup(byIp, ip)| < limits.ipAttempts && |Lookup(byAccount, account)| < limits.accountAttempts
  {
    BeginTimesCount(h, now - limits.globalWindow);
    KeptCounts(h, |h|, Ip(ip), now - limits.ipWindow);
    KeptCounts(h, |h|, Account(account), now - limits.accountWindow);
    hide Attempts, Recent, BeginTimes;
  }

  lemma KeyBegins(h: seq<Moment>, m: Moment, key: Key, cutoff: int)
    requires key != Everyone && WellFormed(h + [m]) && m.Began? && m.at > cutoff
    ensures Recent(Kept(h + [m], |h| + 1, key), cutoff)
         == if Matches(m, key) then Recent(Kept(h, |h|, key), cutoff) + [Event(m.id, m.at, true)]
            else Recent(Kept(h, |h|, key), cutoff)
  {
    hide WellFormed, Recent, Kept;
    KeptFollows(h, m, key);
    RecentSnoc(Kept(h, |h|, key), Event(m.id, m.at, true), cutoff);
  }

  lemma BeginAgrees(h: seq<Moment>, limits: Limits, m: Moment,
                    byIp: map<string, seq<Event>>, byAccount: map<int, seq<Event>>)
    requires limits.Usable() && WellFormed(h + [m]) && m.Began?
    requires IpsAgree(byIp, h, m.at - limits.ipWindow) && AccountsAgree(byAccount, h, m.at - limits.accountWindow)
    ensures BeginTimes(h + [m], m.at - limits.globalWindow) == BeginTimes(h, m.at - limits.globalWindow) + [m.at]
    ensures var e := Event(m.id, m.at, true);
            && IpsAgree(byIp[m.ip := Lookup(byIp, m.ip) + [e]], h + [m], m.at - limits.ipWindow)
            && AccountsAgree(byAccount[m.account := Lookup(byAccount, m.account) + [e]], h + [m],
                             m.at - limits.accountWindow)
  {
    Snoc(h, m);
    hide WellFormed, Recent, Kept;
    forall ip | true
      ensures Recent(Kept(h + [m], |h| + 1, Ip(ip)), m.at - limits.ipWindow)
           == if ip == m.ip then Lookup(byIp, ip) + [Event(m.id, m.at, true)] else Lookup(byIp, ip)
    {
      KeyBegins(h, m, Ip(ip), m.at - limits.ipWindow);
    }
    forall account | true
      ensures Recent(Kept(h + [m], |h| + 1, Account(account)), m.at - limits.accountWindow)
           == if account == m.account then Lookup(byAccount, account) + [Event(m.id, m.at, true)]
              else Lookup(byAccount, account)
    {
      KeyBegins(h, m, Account(account), m.at - limits.accountWindow);
    }
  }

  lemma KeyEnds(h: seq<Moment>, m: Moment, key: Key, cutoff: int)
    requires key != Everyone && WellFormed(h) && WellFormed(h + [m]) && m.Ended?
    ensures Recent(Kept(h + [m], |h| + 1, key), cutoff) == Changed(Recent(Kept(h, |h|, key), cutoff), m, key)
    ensures Ascending(Recent(Kept(h, |h|, key), cutoff))
  {
    hide WellFormed, Recent, Kept, Ascending, RetainPendingExcept, Marked;
    KeptFollows(h, m, key);
    RetainAfterRecent(Kept(h, |h|, key), cutoff, m.id);
    MarkAfterRecent(Kept(h, |h|, key), cutoff, m.id);
    KeyPrunes(h, key, cutoff, cutoff);
  }

  lemma EndAgrees(h: seq<Moment>, limits: Limits, m: Moment, clock: Time,
                  byIp: map<string, seq<Event>>, byAccount: map<int, seq<Event>>)
    requires WellFormed(h) && WellFormed(h + [m]) && m.Ended?
    requires IpsAgree(byIp, h, clock - limits.ipWindow) && AccountsAgree(byAccount, h, clock - limits.accountWindow)
    ensures Ascending(Lookup(byIp, m.ip)) && Ascending(Lookup(byAccount, m.account))
    ensures BeginTimes(h + [m], clock - limits.globalWindow) == BeginTimes(h, clock - limits.globalWindow)
    ensures IpsAgree(Stored(byIp, m.ip, Changed(Lookup(byIp, m.ip), m, Ip(m.ip))), h + [m], clock - limits.ipWindow)
    ensures AccountsAgree(Stored(byAccount, m.account, Changed(Lookup(byAccount, m.account), m, Account(m.account))),
                          h + [m], clock - limits.accountWindow)
  {
    Snoc(h, m);
    hide WellFormed, Recent, Kept, Ascending, RetainPendingExcept, Marked;
    forall ip | true
      ensures Recent(Kept(h + [m], |h| + 1, Ip(ip)), clock - limits.ipWindow)
           == if ip == m.ip then Changed(Lookup(byIp, ip), m, Ip(ip)) else Lookup(byIp, ip)
    {
      KeyEnds(h, m, Ip(ip), clock - limits.ipWindow);
    }
    forall account | true
      ensures Recent(Kept(h + [m], |h| + 1, Account(account)), clock - limits.accountWindow)
           == if account == m.account then Changed(Lookup(byAccount, account), m, Account(account))
              else Lookup(byAccount, account)
    {
      KeyEnds(h, m, Account(account), clock - limits.accountWindow);
    }
    KeyEnds(h, m, Ip(m.ip), clock - limits.ipWindow);
    KeyEnds(h, m, Account(m.account), clock - limits.accountWindow);
  }

  class LoginRateLimiter {
    const limits: Limits
    var nextId: nat
    var global: seq<Time>
    var byIp: map<string, seq<Event>>
    var byAccount: map<int, seq<Event>>
    ghost var history: seq<Moment>
    // The last time the lists were pruned for.
    ghost var clock: Time

    ghost predicate Valid()
      reads this
    {
      && limits.Usable() && WellFormed(history) && AllAdmitted(history, limits)
      && Bounded(history, nextId, clock) && Agrees()
    }

    // What is stored is the recent part of what the history says.
    ghost predicate Agrees()
      reads this
    {
      && global == BeginTimes(history, clock - limits.globalWindow)
      && IpsAgree(byIp, history, clock - limits.ipWindow)
      && AccountsAgree(byAccount, history, clock - limits.accountWindow)
    }

    constructor (limits: Limits)
      requires limits.Usable()
      ensures Valid() && this.limits == limits && history == [] && clock == NO_TIME
    {
      this.limits, nextId, global, byIp, byAccount, history, clock := limits, 0, [], map[], map[], [], NO_TIME;
    }

    /** Admits exactly when the whole history says all three counts are below
        their limits. */
    method Begin(source: Option<string>, account: int, now: Time) returns (attempt: Option<LoginAttempt>)
      requires Valid() && clock <= now
      modifies this
      ensures Valid() && old(clock) <= clock <= now
      ensures attempt.Some? <==>
                source.Some? && account > 0 && Admits(old(history), limits, source.value, account, now)
      ensures attempt.None? ==> history == old(history)
      ensures attempt.Some? ==>
                var a := attempt.value;
                && fresh(a) && a.limiter == this && a.Open()
                && history == old(history) + [Began(a.id, source.value, account, now)]
    {
      hide Admits, AllAdmitted, WellFormed, IpsAgree, AccountsAgree, BeginTimes, Bounded;
      if source.None? || account <= 0 {
        return None;
      }
      var ip := source.value;
      Prune(now);
      CountsAreLengths(history, limits, ip, account, now, byIp, byAccount);
      if |global| >= limits.globalAttempts || |Lookup(byIp, ip)| >= limits.ipAttempts
         || |Lookup(byAccount, account)| >= limits.accountAttempts {
        return None;
      }
      Record(ip, account, now);
      var a := new LoginAttempt(this, nextId, ip, account);
      attempt := Some(a);
      assert history[|history| - 1] == Began(a.id, ip, account, now);
    }

    method Record(ip: string, account: int, now: Time)
      requires Valid() && clock == now && Admits(history, limits, ip, account, now)
      modifies this
      ensures Valid() && clock == now && nextId == old(nextId) + 1
      ensures history == old(history) + [Began(nextId, ip, account, now)]
      ensures forall i :: 0 <= i < |old(history)| ==> old(history)[i].id < nextId
    {
      hide Admits, AllAdmitted, WellFormed, IpsAgree, AccountsAgree, BeginTimes;
      nextId := nextId + 1;
      var event := Event(nextId, now, true);
      ghost var before, began := history, Began(nextId, ip, account, now);
      BeginExtends(before, limits, began);
      BeginAgrees(before, limits, began, byIp, byAccount);
      global := global + [now];
      byIp := byIp[ip := Lookup(byIp, ip) + [event]];
      byAccount := byAccount[account := Lookup(byAccount, account) + [event]];
      history := history + [began];
    }

    method Prune(now: Time)
      requires Valid() && clock <= now
      modifies this`global, this`byIp, this`byAccount, this`clock
      ensures Valid() && clock == now
    {
      hide Admits, AllAdmitted, Bounded, WellFormed, Recent, BeginTimes;
      BoundedLater(history, nextId, clock, now);
      BeginTimesAscend(history, clock - limits.globalWindow);
      ghost var k;
      global, k := PruneTimes(global, now - limits.globalWindow);
      BeginTimesPrune(history, clock - limits.globalWindow, now - limits.globalWindow, k);
      IpsPrune(byIp, history, clock - limits.ipWindow, now - limits.ipWindow);
      AccountsPrune(byAccount, history, clock - limits.accountWindow, now - limits.accountWindow);
      hide Ascending, Kept;
      byIp := PruneAll(byIp, now - limits.ipWindow);
      assert forall account :: account in byAccount ==> Ascending(byAccount[account]);
      byAccount := PruneAll(byAccount, now - limits.accountWindow);
      assert IpsAgree(byIp, history, now - limits.ipWindow);
      assert AccountsAgree(byAccount, history, now - limits.accountWindow);
      clock := now;
    }

    // The report of one attempt; `once` in the attempt keeps it single.
    method Complete(id: nat, ip: string, account: int, succeeded: bool)
      requires Valid()
      requires Begun(history, id, ip, account) && !Over(history, id)
      modifies this`byIp, this`byAccount, this`history
      ensures Valid() && history == old(history) + [Ended(id, ip, account, succeeded)]
    {
      ghost var before, ended := history, Ended(id, ip, account, succeeded);
      hide Admits, AllAdmitted, WellFormed, Bounded, BeginTimes, RetainPendingExcept, Marked, Ascending;
      hide IpsAgree, AccountsAgree;
      EndExtends(before, limits, ended);
      EndIsBounded(before, ended, nextId, clock);
      EndAgrees(before, limits, ended, clock, byIp, byAccount);
      var ofIp, ofAccount := Lookup(byIp, ip), Lookup(byAccount, account);
      if succeeded {
        ofIp := RetainPending(ofIp, id);
        ofAccount := RetainPending(ofAccount, id);
      } else {
        ofIp := MarkCompleted(ofIp, id);
        ofAccount := MarkCompleted(ofAccount, id);
      }
      byIp := Stored(byIp, ip, ofIp);
      byAccount := Stored(byAccount, account, ofAccount);
      history := history + [ended];
    }
  }

  class LoginAttempt {
    const limiter: LoginRateLimiter
    const id: nat
    const ip: string
    const account: int
    var done: bool

    constructor (limiter: LoginRateLimiter, id: nat, ip: string, account: int)
      ensures this.limiter == limiter && this.id == id && this.ip == ip && this.account == account && !done
    {
      this.limiter, this.id, this.ip, this.account, done := limiter, id, ip, account, false;
    }

    // Its begin is in the history, and its end exactly when it is done.
    ghost predicate Open()
      reads this, limiter
    {
      Begun(limiter.history, id, ip, account) && (done <==> Over(limiter.history, id))
    }

    /** Only the first report of an attempt counts. */
    method Complete(succeeded: bool)
      requires limiter.Valid() && Open()
      modifies this, limiter
      ensures limiter.Valid() && Open() && done && limiter.clock == old(limiter.clock)
      ensures limiter.history
           == old(limiter.history) + if old(done) then [] else [Ended(id, ip, account, succeeded)]
    {
      if done {
        return;
      }
      hide AllAdmitted, WellFormed, BeginTimes, IpsAgree, AccountsAgree, Bounded, Begun, Over;
      ghost var before := limiter.history;
      EndIsRecorded(before, id, ip, account, succeeded);
      done := true;
      limiter.Complete(id, ip, account, succeeded);
    }
  }

  lemma EndIsRecorded(h: seq<Moment>, id: nat, ip: string, account: int, succeeded: bool)
    requires Begun(h, id, ip, account)
    ensures Begun(h + [Ended(id, ip, account, succeeded)], id, ip, account)
    ensures Over(h + [Ended(id, ip, account, succeeded)], id)
  {
    var h' := h + [Ended(id, ip, account, succeeded)];
    var i :| 0 <= i < |h| && h[i].Began? && h[i].id == id && h[i].ip == ip && h[i].account == account;
    assert h'[i] == h[i] && h'[|h|] == Ended(id, ip, account, succeeded);
  }

  ghost predicate Bounded(h: seq<Moment>, id: nat, at: Time) {
    forall i :: 0 <= i < |h| ==> h[i].id <= id && (h[i].Began? ==> h[i].at <= at)
  }

  // ---- the loops ----

  method PruneTimes(values: seq<Time>, cutoff: int) returns (kept: seq<Time>, ghost k: nat)
    requires AscendingTimes(values)
    ensures k <= |values| && kept == values[k..]
    ensures (forall i :: 0 <= i < k ==> values[i] <= cutoff) && forall i :: k <= i < |values| ==> values[i] > cutoff
  {
    var index := 0;
    while index < |values| && values[index] <= cutoff
      invariant 0 <= index <= |values| && forall i :: 0 <= i < index ==> values[i] <= cutoff
    {
      index := index + 1;
    }
    kept, k := values[index..], index;
  }

  method PruneEvents(events: seq<Event>, cutoff: int) returns (kept: seq<Event>)
    requires Ascending(events)
    ensures kept == Recent(events, cutoff)
  {
    var index := 0;
    while index < |events| && events[index].at <= cutoff
      invariant 0 <= index <= |events| && forall i :: 0 <= i < index ==> events[i].at <= cutoff
    {
      index := index + 1;
    }
    RecentIsSuffix(events, index, cutoff);
    kept := events[index..];
  }

  method PruneAll<K(==)>(lists: map<K, seq<Event>>, cutoff: int) returns (kept: map<K, seq<Event>>)
    requires forall key :: key in lists ==> Ascending(lists[key])
    ensures forall key :: Lookup(kept, key) == Recent(Lookup(lists, key), cutoff)
    ensures forall key :: key in kept ==> kept[key] != []
  {
    kept := map[];
    var left := lists.Keys;
    while exists key :: key in left
      invariant left <= lists.Keys
      invariant forall key :: key in lists && key !in left ==> Lookup(kept, key) == Recent(lists[key], cutoff)
      invariant forall key :: key in kept ==> kept[key] != [] && key in lists && key !in left
      decreases left
    {
      var key :| key in left;
      var events := PruneEvents(lists[key], cutoff);
      if events != [] {
        kept := kept[key := events];
      }
      left := left - {key};
    }
  }

  method RetainPending(events: seq<Event>, id: nat) returns (kept: seq<Event>)
    ensures kept == RetainPendingExcept(events, id)
  {
    kept := [];
    for k := 0 to |events|
      invariant kept == RetainPendingExcept(events[..k], id)
    {
      assert events[..k + 1][..k] == events[..k];
      if events[k].pending && events[k].id != id {
        kept := kept + [events[k]];
      }
    }
    assert events[..|events|] == events;
  }

  method MarkCompleted(events: seq<Event>, id: nat) returns (marked: seq<Event>)
    requires Ascending(events)
    ensures marked == Marked(events, id)
  {
    for k := 0 to |events|
      invariant forall i :: 0 <= i < k ==> events[i].id != id
    {
      if events[k].id == id {
        return events[k := events[k].(pending := false)];
      }
    }
    marked := events;
  }

  // ---- what the limits guarantee ----

  // Every attempt of the history was admitted on what came before it.
  ghost predicate AllAdmitted(h: seq<Moment>, limits: Limits) {
    forall i :: 0 <= i < |h| && h[i].Began? ==> Admits(h[..i], limits, h[i].ip, h[i].account, h[i].at)
  }

  lemma BeginExtends(h: seq<Moment>, limits: Limits, m: Moment)
    requires WellFormed(h) && AllAdmitted(h, limits) && m.Began? && m.id > 0 && Admits(h, limits, m.ip, m.account, m.at)
    requires Bounded(h, m.id - 1, m.at)
    ensures WellFormed(h + [m]) && AllAdmitted(h + [m], limits) && Bounded(h + [m], m.id, m.at)
  {
    AppendAdmitted(h, limits, m);
    AppendOpens(h, m);
    hide AllAdmitted, Admits;
  }

  lemma EndExtends(h: seq<Moment>, limits: Limits, m: Moment)
    requires WellFormed(h) && AllAdmitted(h, limits) && m.Ended?
    requires Begun(h, m.id, m.ip, m.account) && !Over(h, m.id)
    ensures WellFormed(h + [m]) && AllAdmitted(h + [m], limits)
  {
    hide AllAdmitted, Admits;
    AppendAdmitted(h, limits, m);
    AppendOpens(h, m);
    var i :| 0 <= i < |h| && h[i].Began? && h[i].id == m.id && h[i].ip == m.ip && h[i].account == m.account;
    assert Opens((h + [m])[i], m);
  }

  lemma BoundedLater(h: seq<Moment>, id: nat, at: Time, later: Time)
    requires Bounded(h, id, at) && at <= later
    ensures Bounded(h, id, later)
  {
  }

  lemma EndIsBounded(h: seq<Moment>, m: Moment, id: nat, at: Time)
    requires Bounded(h, id, at) && m.Ended? && Begun(h, m.id, m.ip, m.account)
    ensures Bounded(h + [m], id, at)
  {
  }

  lemma AppendAdmitted(h: seq<Moment>, limits: Limits, m: Moment)
    requires AllAdmitted(h, limits) && (m.Began? ==> Admits(h, limits, m.ip, m.account, m.at))
    ensures AllAdmitted(h + [m], limits)
  {
    hide Admits;
    Snoc(h, m);
    forall i | 0 <= i < |h| ensures (h + [m])[..i] == h[..i] {
    }
  }

  lemma AppendOpens(h: seq<Moment>, m: Moment)
    requires WellFormed(h)
    ensures forall j :: 0 <= j < |h| && h[j].Ended? ==> exists i :: 0 <= i < j && Opens((h + [m])[i], h[j])
  {
    forall j | 0 <= j < |h| && h[j].Ended? ensures exists i :: 0 <= i < j && Opens((h + [m])[i], h[j]) {
      var i :| 0 <= i < j && Opens(h[i], h[j]);
      assert (h + [m])[i] == h[i];
    }
  }

  // The attempts admitted in the window that ends at an instant.
  ghost function AdmittedIn(h: seq<Moment>, from: int, to: int): set<nat> {
    set i: nat | i < |h| && h[i].Began? && from < h[i].at <= to
  }

  lemma LastIsOutside(h: seq<Moment>, from: int, to: int)
    requires h != [] && !(h[|h| - 1].Began? && from < h[|h| - 1].at <= to)
    ensures AdmittedIn(h, from, to) == AdmittedIn(h[..|h| - 1], from, to)
  {
  }

  /** In any window of the configured length, whatever succeeded or failed in
      it, no more attempts are admitted than the global limit. */
  lemma {:induction false} NoWindowExceedsTheLimit(h: seq<Moment>, limits: Limits, to: int)
    requires limits.Usable() && WellFormed(h) && AllAdmitted(h, limits)
    ensures |AdmittedIn(h, to - limits.globalWindow, to)| <= limits.globalAttempts
    decreases |h|
  {
    hide WellFormed, AllAdmitted;
    var from := to - limits.globalWindow;
    if h == [] {
      assert AdmittedIn(h, from, to) == {};
    } else {
      var last, before := |h| - 1, h[..|h| - 1];
      if h[last].Began? && from < h[last].at <= to {
        LastAdmittedIn(h, limits, to);
      } else {
        PrefixIsWellFormed(h, last);
        PrefixIsAdmitted(h, last, limits);
        LastIsOutside(h, from, to);
        NoWindowExceedsTheLimit(before, limits, to);
      }
    }
  }

  lemma PrefixIsAdmitted(h: seq<Moment>, n: nat, limits: Limits)
    requires n <= |h| && AllAdmitted(h, limits)
    ensures AllAdmitted(h[..n], limits)
  {
    hide Admits;
    forall i | 0 <= i < n ensures h[..n][..i] == h[..i] {
    }
  }

  lemma LastIsAdmitted(h: seq<Moment>, limits: Limits)
    requires AllAdmitted(h, limits) && h != [] && h[|h| - 1].Began?
    ensures var last := |h| - 1;
            |Attempts(h[..last], last, Everyone, h[last].at - limits.globalWindow)| < limits.globalAttempts
  {
    hide Attempts;
    var last := |h| - 1;
    assert Admits(h[..last], limits, h[last].ip, h[last].account, h[last].at);
  }

  lemma TimesAscend(h: seq<Moment>, i: nat, j: nat)
    requires WellFormed(h) && i < j < |h| && h[i].Began? && h[j].Began?
    ensures h[i].at <= h[j].at
  {
  }

  lemma NeverForgiven(h: seq<Moment>, i: nat)
    requires i < |h|
    ensures !Forgiven(h, i, Everyone)
  {
  }

  lemma LastAdmittedIn(h: seq<Moment>, limits: Limits, to: int)
    requires limits.Usable() && WellFormed(h) && AllAdmitted(h, limits)
    requires h != [] && h[|h| - 1].Began? && to - limits.globalWindow < h[|h| - 1].at <= to
    ensures |AdmittedIn(h, to - limits.globalWindow, to)| <= limits.globalAttempts
  {
    hide Admits, AllAdmitted, WellFormed, Forgiven;
    var from, last, before := to - limits.globalWindow, |h| - 1, h[..|h| - 1];
    var counted := Attempts(before, last, Everyone, h[last].at - limits.globalWindow);
    var others := AdmittedIn(h, from, to) - {last};
    forall i | i in others ensures i in counted {
      assert before[i] == h[i];
      TimesAscend(h, i, last);
      NeverForgiven(before, i);
    }
    LastIsAdmitted(h, limits);
    Subset(others, counted);
    assert AdmittedIn(h, from, to) == others + {last};
  }

  lemma {:induction false} Subset(a: set<nat>, b: set<nat>)
    requires a <= b
    ensures |a| <= |b|
  {
    assert b == a + (b - a);
  }
}
