/** The parallel search for masquerade targets: which domains are probed, and
    why every interleaving of the workers returns the same ranking. */
module RealitySearch {
  import opened Basics
  import opened Reservoir

  // ---- the candidate domains ----

  // Leading dots are dropped.
  function Normalized(domain: string): string {
    if domain != "" && domain[0] == '.' then Normalized(domain[1..]) else domain
  }

  /** Exactly the leading dots go. */
  lemma {:induction false} NormalizedDropsDots(domain: string)
    ensures var rest := Normalized(domain);
            && |rest| <= |domain| && rest == domain[|domain| - |rest|..] && (rest != "" ==> rest[0] != '.')
            && forall i :: 0 <= i < |domain| - |rest| ==> domain[i] == '.'
    decreases domain
  {
    if domain != "" && domain[0] == '.' {
      NormalizedDropsDots(domain[1..]);
      assert forall i :: 0 < i < |domain| ==> domain[i] == domain[1..][i - 1];
    }
  }

  method NormalizeDomain(domain: string) returns (rest: string)
    ensures rest == Normalized(domain)
  {
    rest := domain;
    while |rest| > 0 && rest[0] == '.'
      invariant Normalized(rest) == Normalized(domain)
      decreases |rest|
    {
      rest := rest[1..];
    }
  }

  predicate Alphanumeric(c: char) {
    'a' <= c <= 'z' || '0' <= c <= '9'
  }

  predicate Label(s: string) {
    && 1 <= |s| <= 63 && Alphanumeric(s[0]) && Alphanumeric(s[|s| - 1])
    && forall i :: 0 <= i < |s| ==> Alphanumeric(s[i]) || s[i] == '-'
  }

  // One label after a dot, or more.
  predicate Labels(s: string) {
    Label(s) || exists i :: 0 <= i < |s| && s[i] == '.' && Label(s[..i]) && Labels(s[i + 1..])
  }

  // Two labels or more, 4 to 253 characters in all.
  predicate ValidDomain(s: string) {
    4 <= |s| <= 253 && exists i :: 0 <= i < |s| && s[i] == '.' && Label(s[..i]) && Labels(s[i + 1..])
  }

  // The valid domains, each where it first occurs.
  function UniqueOf(domains: seq<string>): (unique: seq<string>)
    ensures Distinct(unique)
    ensures forall d :: d in unique <==>
              ValidDomain(d) && exists i :: 0 <= i < |domains| && Normalized(domains[i]) == d
  {
    if domains == [] then []
    else
      var before, d := UniqueOf(domains[..|domains| - 1]), Normalized(domains[|domains| - 1]);
      if ValidDomain(d) && d !in before then before + [d] else before
  }

  method UniqueDomains(domains: seq<string>) returns (unique: seq<string>)
    ensures unique == UniqueOf(domains)
  {
    unique := [];
    var seen: set<string> := {};
    for k := 0 to |domains|
      invariant unique == UniqueOf(domains[..k])
      invariant forall d :: d in seen <==> d in unique
    {
      assert domains[..k + 1][..k] == domains[..k];
      var domain := NormalizeDomain(domains[k]);
      if ValidDomain(domain) && domain !in seen {
        seen := seen + {domain};
        unique := unique + [domain];
      }
    }
    assert domains[..|domains|] == domains;
  }

  // ---- the ranking ----

  datatype Target = Target(domain: Domain, tls13: bool, latency: int)

  predicate Precedes(a: string, b: string) {
    b != "" && (a == "" || a[0] < b[0] || (a[0] == b[0] && Precedes(a[1..], b[1..])))
  }

  predicate Before(a: Target, b: Target) {
    a.latency < b.latency || (a.latency == b.latency && Precedes(a.domain, b.domain))
  }

  lemma {:induction false} NamesAreOrdered(a: string, b: string)
    ensures Precedes(a, b) || a == b || Precedes(b, a)
    ensures !(Precedes(a, b) && Precedes(b, a)) && !Precedes(a, a)
    decreases a
  {
    if a != "" {
      NamesAreOrdered(a[1..], a[1..]);
      if b != "" {
        NamesAreOrdered(a[1..], b[1..]);
        assert a == [a[0]] + a[1..] && b == [b[0]] + b[1..];
      }
    }
  }

  predicate StrictlyRanked(targets: seq<Target>) {
    forall i, j :: 0 <= i < j < |targets| ==> Before(targets[i], targets[j])
  }

  // What sorting promises: the same targets, none before one that comes earlier.
  predicate Sorts(targets: seq<Target>, ranked: seq<Target>) {
    && multiset(ranked) == multiset(targets)
    && forall i, j :: 0 <= i < j < |ranked| ==> !Before(ranked[j], ranked[i])
  }

  // ---- the workers ----

  datatype Worker = Idle | Probing(domain: Domain) | Sending(target: Target) | Exited

  // The dispatcher hands out sampled[next..]; `results` is a channel with room
  // for as many targets as there are sampled domains.
  datatype Pool = Pool(sampled: seq<Domain>, next: nat, closed: bool, workers: seq<Worker>, results: seq<Target>)

  // What probing each domain yields.
  type Prober = Domain -> Option<Target>

  function Confirmed(probe: Prober, domain: Domain): (t: Option<Target>)
    ensures t.Some? <==> && probe(domain).Some? && probe(domain).value.domain == domain
                         && probe(domain).value.tls13 && probe(domain).value.latency > 0
    ensures t.Some? ==> t == probe(domain)
  {
    var t := probe(domain);
    if t.None? || !t.value.tls13 || t.value.domain != domain || t.value.latency <= 0 then None else t
  }

  datatype Move = Hand(worker: nat) | Answer(worker: nat) | Deliver(worker: nat) | CloseWork | Leave(worker: nat)

  predicate Can(p: Pool, m: Move) {
    match m
    case Hand(w) => w < |p.workers| && p.workers[w].Idle? && p.next < |p.sampled| && !p.closed
    case Answer(w) => w < |p.workers| && p.workers[w].Probing?
    case Deliver(w) => w < |p.workers| && p.workers[w].Sending? && |p.results| < |p.sampled|
    case CloseWork => p.next >= |p.sampled| && !p.closed
    case Leave(w) => w < |p.workers| && p.workers[w].Idle? && p.closed
  }

  function Moved(p: Pool, m: Move, probe: Prober): Pool
    requires Can(p, m)
  {
    match m
    case Hand(w) => p.(next := p.next + 1, workers := p.workers[w := Probing(p.sampled[p.next])])
    case Answer(w) =>
      var t := Confirmed(probe, p.workers[w].domain);
      p.(workers := p.workers[w := if t.None? then Idle else Sending(t.value)])
    case Deliver(w) => p.(results := p.results + [p.workers[w].target], workers := p.workers[w := Idle])
    case CloseWork => p.(closed := true)
    case Leave(w) => p.(workers := p.workers[w := Exited])
  }

  predicate Finished(p: Pool) {
    p.closed && forall w :: 0 <= w < |p.workers| ==> p.workers[w].Exited?
  }

  function Start(sampled: seq<Domain>, concurrency: nat): Pool {
    Pool(sampled, 0, false, seq(concurrency, _ => Idle), [])
  }

  ghost predicate CanRun(p: Pool, moves: seq<Move>, probe: Prober)
    decreases |moves|
  {
    moves == [] || (Can(p, moves[0]) && CanRun(Moved(p, moves[0], probe), moves[1..], probe))
  }

  ghost function RunOf(p: Pool, moves: seq<Move>, probe: Prober): Pool
    requires CanRun(p, moves, probe)
    decreases |moves|
  {
    if moves == [] then p else RunOf(Moved(p, moves[0], probe), moves[1..], probe)
  }

  // ---- sums over the workers ----

  function Sum(workers: seq<Worker>, weight: Worker -> nat): nat {
    if workers == [] then 0 else Sum(workers[..|workers| - 1], weight) + weight(workers[|workers| - 1])
  }

  lemma {:induction false} SumUpdate(workers: seq<Worker>, w: nat, x: Worker, weight: Worker -> nat)
    requires w < |workers|
    ensures Sum(workers[w := x], weight) + weight(workers[w]) == Sum(workers, weight) + weight(x)
    decreases |workers|
  {
    var n := |workers| - 1;
    if w < n {
      SumUpdate(workers[..n], w, x, weight);
      assert workers[w := x][..n] == workers[..n][w := x];
    } else {
      assert workers[w := x][..n] == workers[..n];
    }
  }

  // The confirmed target a worker still owes, if any.
  function Owed(worker: Worker, probe: Prober): multiset<Target> {
    match worker
    case Probing(d) => var t := Confirmed(probe, d); if t.Some? then multiset{t.value} else multiset{}
    case Sending(t) => multiset{t}
    case _ => multiset{}
  }

  function OwedAll(workers: seq<Worker>, probe: Prober): multiset<Target> {
    if workers == [] then multiset{} else OwedAll(workers[..|workers| - 1], probe) + Owed(workers[|workers| - 1], probe)
  }

  lemma AddBoth<T>(a: multiset<T>, b: multiset<T>, c: multiset<T>, d: multiset<T>, e: multiset<T>)
    requires a + b == c + d
    ensures (a + e) + b == (c + e) + d
  {
    assert (a + e) + b == (a + b) + e;
  }

  lemma {:induction false} OwedUpdate(workers: seq<Worker>, w: nat, x: Worker, probe: Prober)
    requires w < |workers|
    ensures OwedAll(workers[w := x], probe) + Owed(workers[w], probe) == OwedAll(workers, probe) + Owed(x, probe)
    decreases |workers|
  {
    hide Owed;
    var n := |workers| - 1;
    if w < n {
      OwedUpdate(workers[..n], w, x, probe);
      assert workers[w := x][..n] == workers[..n][w := x];
      AddBoth(OwedAll(workers[..n][w := x], probe), Owed(workers[w], probe), OwedAll(workers[..n], probe),
              Owed(x, probe), Owed(workers[n], probe));
    } else {
      assert workers[w := x][..n] == workers[..n];
    }
  }

  // The confirmed targets among the domains, in their order.
  function ConfirmedOf(domains: seq<Domain>, probe: Prober): seq<Target> {
    if domains == [] then []
    else
      var rest, t := ConfirmedOf(domains[1..], probe), Confirmed(probe, domains[0]);
      if t.Some? then [t.value] + rest else rest
  }

  // ---- what every run keeps ----

  function Busy(worker: Worker): nat {
    if worker.Probing? || worker.Sending? then 1 else 0
  }

  // Every confirmed target, wherever it is by now.
  ghost function Total(p: Pool, probe: Prober): multiset<Target>
    requires p.next <= |p.sampled|
  {
    multiset(p.results) + OwedAll(p.workers, probe) + multiset(ConfirmedOf(p.sampled[p.next..], probe))
  }

  // Nothing confirmed is lost or doubled, and there is room for what is owed.
  ghost predicate Sound(p: Pool, probe: Prober) {
    && p.next <= |p.sampled| && (p.closed ==> p.next == |p.sampled|)
    && (forall w :: 0 <= w < |p.workers| && p.workers[w].Exited? ==> p.closed)
    && Total(p, probe) == multiset(ConfirmedOf(p.sampled, probe))
    && |p.results| + Sum(p.workers, Busy) <= p.next
  }

  lemma {:induction false} StartIsSound(sampled: seq<Domain>, concurrency: nat, probe: Prober)
    ensures Sound(Start(sampled, concurrency), probe)
    decreases concurrency
  {
    assert sampled[0..] == sampled;
    if concurrency > 0 {
      StartIsSound(sampled, concurrency - 1, probe);
      var workers := Start(sampled, concurrency).workers;
      assert workers[..concurrency - 1] == Start(sampled, concurrency - 1).workers;
    }
  }

  lemma HandConserves(p: Pool, w: nat, probe: Prober)
    requires Can(p, Hand(w)) && p.next <= |p.sampled|
    ensures Total(Moved(p, Hand(w), probe), probe) == Total(p, probe)
  {
    var x, rest := Probing(p.sampled[p.next]), p.sampled[p.next..];
    OwedUpdate(p.workers, w, x, probe);
    assert rest[1..] == p.sampled[p.next + 1..];
    var before, after := multiset(ConfirmedOf(rest, probe)), multiset(ConfirmedOf(rest[1..], probe));
    assert before == Owed(x, probe) + after;
    HandSums(multiset(p.results), OwedAll(p.workers, probe), OwedAll(p.workers[w := x], probe), Owed(x, probe),
             before, after);
  }

  lemma HandSums<T>(r: multiset<T>, a: multiset<T>, a': multiset<T>, x: multiset<T>, c: multiset<T>, c': multiset<T>)
    requires a' + multiset{} == a + x && c == x + c'
    ensures r + a' + c' == r + a + c
  {
    assert a' == a + x;
    assert r + a' + c' == r + a + (x + c');
  }

  lemma AnswerConserves(p: Pool, w: nat, probe: Prober)
    requires Can(p, Answer(w)) && p.next <= |p.sampled|
    ensures Total(Moved(p, Answer(w), probe), probe) == Total(p, probe)
  {
    var x := Moved(p, Answer(w), probe).workers[w];
    assert Owed(p.workers[w], probe) == Owed(x, probe);
    OwedUpdate(p.workers, w, x, probe);
    Cancel(OwedAll(p.workers, probe), Owed(x, probe), OwedAll(p.workers[w := x], probe));
  }

  lemma DeliverConserves(p: Pool, w: nat, probe: Prober)
    requires Can(p, Deliver(w)) && p.next <= |p.sampled|
    ensures Total(Moved(p, Deliver(w), probe), probe) == Total(p, probe)
  {
    OwedUpdate(p.workers, w, Idle, probe);
    var t := p.workers[w].target;
    DeliverSums(multiset(p.results), OwedAll(p.workers, probe), OwedAll(p.workers[w := Idle], probe), multiset{t});
    assert multiset(p.results + [t]) == multiset(p.results) + multiset{t};
  }

  lemma DeliverSums<T>(r: multiset<T>, a: multiset<T>, a': multiset<T>, t: multiset<T>)
    requires a' + t == a + multiset{}
    ensures (r + t) + a' == r + a
  {
    assert a == a' + t;
  }

  lemma LeaveConserves(p: Pool, w: nat, probe: Prober)
    requires Can(p, Leave(w)) && p.next <= |p.sampled|
    ensures Total(Moved(p, Leave(w), probe), probe) == Total(p, probe)
  {
    OwedUpdate(p.workers, w, Exited, probe);
    Cancel(OwedAll(p.workers, probe), multiset{}, OwedAll(p.workers[w := Exited], probe));
  }

  lemma Cancel<T>(all: multiset<T>, one: multiset<T>, all': multiset<T>)
    requires all' + one == all + one
    ensures all' == all
  {
    assert forall x :: all'[x] + one[x] == (all' + one)[x] && all[x] + one[x] == (all + one)[x];
  }

  lemma MoveConserves(p: Pool, m: Move, probe: Prober)
    requires Can(p, m) && p.next <= |p.sampled|
    ensures p.next <= Moved(p, m, probe).next <= |p.sampled|
    ensures Total(Moved(p, m, probe), probe) == Total(p, probe)
  {
    hide OwedAll, ConfirmedOf, Confirmed;
    match m {
      case Hand(w) => HandConserves(p, w, probe);
      case Answer(w) => AnswerConserves(p, w, probe);
      case Deliver(w) => DeliverConserves(p, w, probe);
      case CloseWork =>
      case Leave(w) => LeaveConserves(p, w, probe);
    }
  }

  lemma MoveKeepsSound(p: Pool, m: Move, probe: Prober)
    requires Sound(p, probe) && Can(p, m)
    ensures Sound(Moved(p, m, probe), probe)
  {
    hide Total, ConfirmedOf, Confirmed, Sum, OwedAll;
    MoveConserves(p, m, probe);
    if !m.CloseWork? {
      SumUpdate(p.workers, m.worker, Moved(p, m, probe).workers[m.worker], Busy);
    }
  }

  lemma {:induction false} RunKeepsSound(p: Pool, moves: seq<Move>, probe: Prober)
    requires Sound(p, probe) && CanRun(p, moves, probe)
    ensures Sound(RunOf(p, moves, probe), probe) && RunOf(p, moves, probe).sampled == p.sampled
    ensures |RunOf(p, moves, probe).workers| == |p.workers|
    decreases |moves|
  {
    hide Sound;
    if moves != [] {
      MoveKeepsSound(p, moves[0], probe);
      RunKeepsSound(Moved(p, moves[0], probe), moves[1..], probe);
    }
  }

  /** No worker ever waits for room in the results: at every point of every
      run, a worker with a target to send can send it. */
  lemma SendersNeverBlock(sampled: seq<Domain>, concurrency: nat, moves: seq<Move>, probe: Prober, w: nat)
    requires CanRun(Start(sampled, concurrency), moves, probe)
    ensures var p := RunOf(Start(sampled, concurrency), moves, probe);
            w < |p.workers| && p.workers[w].Sending? ==> Can(p, Deliver(w))
  {
    StartIsSound(sampled, concurrency, probe);
    RunKeepsSound(Start(sampled, concurrency), moves, probe);
    var p := RunOf(Start(sampled, concurrency), moves, probe);
    if w < concurrency && p.workers[w].Sending? {
      SumUpdate(p.workers, w, Idle, Busy);
    }
  }

  /** With a worker at all, the search never gets stuck: until it has finished,
      some move is possible. */
  lemma NeverStuck(sampled: seq<Domain>, concurrency: nat, moves: seq<Move>, probe: Prober)
    requires concurrency > 0 && CanRun(Start(sampled, concurrency), moves, probe)
    ensures var p := RunOf(Start(sampled, concurrency), moves, probe);
            Finished(p) || exists m :: Can(p, m)
  {
    StartIsSound(sampled, concurrency, probe);
    RunKeepsSound(Start(sampled, concurrency), moves, probe);
    var p := RunOf(Start(sampled, concurrency), moves, probe);
    if w: nat :| w < concurrency && !p.workers[w].Exited? {
      SendersNeverBlock(sampled, concurrency, moves, probe, w);
      assert Can(p, Hand(w)) || Can(p, Answer(w)) || Can(p, Deliver(w)) || Can(p, CloseWork) || Can(p, Leave(w));
    } else {
      assert p.workers[0].Exited?;
    }
  }

  // How much there is left to do.
  function Left(worker: Worker): nat {
    match worker
    case Idle => 1
    case Probing(_) => 3
    case Sending(_) => 2
    case Exited => 0
  }

  function Remaining(p: Pool): int {
    3 * (|p.sampled| - p.next) + Sum(p.workers, Left) + if p.closed then 0 else 1
  }

  lemma MoveUsesUp(p: Pool, m: Move, probe: Prober)
    requires Can(p, m)
    ensures Remaining(Moved(p, m, probe)) < Remaining(p)
  {
    if !m.CloseWork? {
      SumUpdate(p.workers, m.worker, Moved(p, m, probe).workers[m.worker], Left);
    }
  }

  lemma {:induction false} SumOfIdle(workers: seq<Worker>)
    requires forall w :: 0 <= w < |workers| ==> workers[w] == Idle
    ensures Sum(workers, Left) == |workers|
    decreases |workers|
  {
    if workers != [] {
      SumOfIdle(workers[..|workers| - 1]);
    }
  }

  lemma {:induction false} RunsAreBounded(p: Pool, moves: seq<Move>, probe: Prober)
    requires p.next <= |p.sampled| && CanRun(p, moves, probe)
    ensures |moves| <= Remaining(p)
    decreases |moves|
  {
    if moves != [] {
      MoveUsesUp(p, moves[0], probe);
      RunsAreBounded(Moved(p, moves[0], probe), moves[1..], probe);
    }
  }

  /** Every search ends: no run has more moves than this. */
  lemma SearchTerminates(sampled: seq<Domain>, concurrency: nat, moves: seq<Move>, probe: Prober)
    requires CanRun(Start(sampled, concurrency), moves, probe)
    ensures |moves| <= 3 * |sampled| + concurrency + 1
  {
    SumOfIdle(Start(sampled, concurrency).workers);
    RunsAreBounded(Start(sampled, concurrency), moves, probe);
  }

  // ---- the answer ----

  lemma {:induction false} NothingIsOwed(workers: seq<Worker>, probe: Prober)
    requires forall w :: 0 <= w < |workers| ==> workers[w].Exited?
    ensures OwedAll(workers, probe) == multiset{}
    decreases |workers|
  {
    if workers != [] {
      NothingIsOwed(workers[..|workers| - 1], probe);
    }
  }

  lemma {:induction false} ConfirmedAreDistinct(domains: seq<Domain>, probe: Prober)
    requires Distinct(domains)
    ensures forall t :: multiset(ConfirmedOf(domains, probe))[t]
                     == if t.domain in domains && Confirmed(probe, t.domain) == Some(t) then 1 else 0
    decreases |domains|
  {
    hide Confirmed;
    if domains != [] {
      ConfirmedAreDistinct(domains[1..], probe);
      assert domains == [domains[0]] + domains[1..];
      assert domains[0] !in domains[1..];
    }
  }

  lemma TwoCopies(s: seq<Target>, i: nat, j: nat)
    requires i < j < |s| && s[i] == s[j]
    ensures multiset(s)[s[i]] >= 2
  {
    assert s == s[..j] + s[j..];
    assert s[i] in multiset(s[..j]) && s[j] in multiset(s[j..]) by {
      assert s[..j][i] == s[i] && s[j..][0] == s[j];
    }
  }

  /** A finished search, ranked by any sort, lists exactly the sampled domains
      whose probe confirmed them, strictly by latency and then name. */
  lemma SearchListsTheConfirmed(
      sampled: seq<Domain>, concurrency: nat, moves: seq<Move>, probe: Prober, ranked: seq<Target>)
    requires Distinct(sampled) && CanRun(Start(sampled, concurrency), moves, probe)
    requires Finished(RunOf(Start(sampled, concurrency), moves, probe))
    requires Sorts(RunOf(Start(sampled, concurrency), moves, probe).results, ranked)
    ensures StrictlyRanked(ranked)
    ensures forall t :: t in ranked <==> t.domain in sampled && Confirmed(probe, t.domain) == Some(t)
  {
    var p := RunOf(Start(sampled, concurrency), moves, probe);
    StartIsSound(sampled, concurrency, probe);
    RunKeepsSound(Start(sampled, concurrency), moves, probe);
    NothingIsOwed(p.workers, probe);
    assert p.sampled[p.next..] == [];
    ConfirmedAreDistinct(sampled, probe);
    assert forall t :: t in ranked <==> multiset(ranked)[t] > 0;
    forall i, j | 0 <= i < j < |ranked| ensures Before(ranked[i], ranked[j]) {
      assert ranked[i] in ranked && ranked[j] in ranked;
      if ranked[i].domain == ranked[j].domain {
        TwoCopies(ranked, i, j);
      }
      NamesAreOrdered(ranked[i].domain, ranked[j].domain);
    }
  }

  lemma {:induction false} RankingIsUnique(a: seq<Target>, b: seq<Target>)
    requires StrictlyRanked(a) && StrictlyRanked(b) && forall t :: t in a <==> t in b
    ensures a == b
    decreases |a|
  {
    if a == [] || b == [] {
      EmptyTogether(a, b);
    } else {
      FirstIsLeast(a, b);
      NotAgain(a);
      NotAgain(b);
      forall t ensures t in a[1..] <==> t in b[1..] {
        assert t in a <==> t == a[0] || t in a[1..];
        assert t in b <==> t == b[0] || t in b[1..];
      }
      RankingIsUnique(a[1..], b[1..]);
    }
  }

  lemma EmptyTogether(a: seq<Target>, b: seq<Target>)
    requires forall t :: t in a <==> t in b
    ensures a == [] <==> b == []
  {
    assert |a| > 0 ==> a[0] in a;
    assert |b| > 0 ==> b[0] in b;
  }

  lemma NotAgain(a: seq<Target>)
    requires StrictlyRanked(a) && a != []
    ensures a[0] !in a[1..]
  {
    if a[0] in a[1..] {
      var i :| 1 <= i < |a| && a[i] == a[0];
      NamesAreOrdered(a[0].domain, a[0].domain);
    }
  }

  lemma FirstIsLeast(a: seq<Target>, b: seq<Target>)
    requires StrictlyRanked(a) && StrictlyRanked(b) && a != [] && b != []
    requires a[0] in b && b[0] in a
    ensures a[0] == b[0]
  {
    NamesAreOrdered(a[0].domain, b[0].domain);
    var i, j :| 0 <= i < |a| && a[i] == b[0] && 0 <= j < |b| && b[j] == a[0];
  }

  /** Every interleaving returns the same list: two finished searches of the
      same sample agree, however many workers each had. */
  lemma SearchIsDeterministic(
      sampled: seq<Domain>, probe: Prober, n: nat, moves: seq<Move>, ranked: seq<Target>,
      n': nat, moves': seq<Move>, ranked': seq<Target>)
    requires Distinct(sampled)
    requires CanRun(Start(sampled, n), moves, probe) && CanRun(Start(sampled, n'), moves', probe)
    requires Finished(RunOf(Start(sampled, n), moves, probe)) && Finished(RunOf(Start(sampled, n'), moves', probe))
    requires Sorts(RunOf(Start(sampled, n), moves, probe).results, ranked)
    requires Sorts(RunOf(Start(sampled, n'), moves', probe).results, ranked')
    ensures ranked == ranked'
  {
    SearchListsTheConfirmed(sampled, n, moves, probe, ranked);
    SearchListsTheConfirmed(sampled, n', moves', probe, ranked');
    RankingIsUnique(ranked, ranked');
  }

  // ---- the whole search ----

  // The domains a search of the dataset probes, given the drawn positions.
  method SelectDomains(dataset: seq<string>, limit: nat, choices: seq<nat>) returns (sampled: seq<Domain>)
    requires |UniqueOf(dataset)| > limit ==> |choices| == |UniqueOf(dataset)| - limit
    ensures sampled == Sampled(UniqueOf(dataset), limit, choices)
  {
    var unique := UniqueDomains(dataset);
    sampled := SampleDomains(unique, limit, choices);
  }

  lemma SampledAreValid(dataset: seq<string>, limit: nat, choices: seq<nat>)
    requires |UniqueOf(dataset)| > limit ==> |choices| == |UniqueOf(dataset)| - limit
    ensures var sampled := Sampled(UniqueOf(dataset), limit, choices);
            && Distinct(sampled) && |sampled| <= limit && (|sampled| == limit || sampled == UniqueOf(dataset))
            && forall d :: d in sampled ==>
                 ValidDomain(d) && exists i :: 0 <= i < |dataset| && Normalized(dataset[i]) == d
  {
    var unique := UniqueOf(dataset);
    if |unique| > limit {
      SampleIsDistinct(unique, limit, choices);
      var sampled := SampleOf(unique, limit, choices);
      assert unique[..limit + |choices|] == unique;
      forall d | d in sampled ensures d in unique {
        var i :| 0 <= i < |sampled| && sampled[i] == d;
      }
    }
  }

  /** A search of any dataset, with any draw, any number of workers and any
      interleaving, lists exactly the domains of its sample that the probe
      confirms, strictly by latency and then name: at most `limit` of them, all
      valid, each once, and from all of the dataset's valid names if they are
      no more than that. */
  lemma SearchOfDataset(
      dataset: seq<string>, limit: nat, choices: seq<nat>, concurrency: nat, moves: seq<Move>, probe: Prober,
      ranked: seq<Target>)
    requires |UniqueOf(dataset)| > limit ==> |choices| == |UniqueOf(dataset)| - limit
    requires CanRun(Start(Sampled(UniqueOf(dataset), limit, choices), concurrency), moves, probe)
    requires var p := RunOf(Start(Sampled(UniqueOf(dataset), limit, choices), concurrency), moves, probe);
             Finished(p) && Sorts(p.results, ranked)
    ensures StrictlyRanked(ranked) && |ranked| <= limit
    ensures forall t :: t in ranked <==>
              t.domain in Sampled(UniqueOf(dataset), limit, choices) && Confirmed(probe, t.domain) == Some(t)
    ensures forall t :: t in ranked ==>
              ValidDomain(t.domain) && exists i :: 0 <= i < |dataset| && Normalized(dataset[i]) == t.domain
    ensures |UniqueOf(dataset)| <= limit ==>
              forall d :: d in UniqueOf(dataset) && Confirmed(probe, d).Some? ==> Confirmed(probe, d).value in ranked
  {
    var sampled := Sampled(UniqueOf(dataset), limit, choices);
    SampledAreValid(dataset, limit, choices);
    SearchListsTheConfirmed(sampled, concurrency, moves, probe, ranked);
    var domains := seq(|ranked|, i requires 0 <= i < |ranked| => ranked[i].domain);
    DistinctNames(ranked, domains);
    ElementsCount(domains);
    ElementsCount(sampled);
    forall d | d in domains ensures d in sampled {
      var i :| 0 <= i < |domains| && domains[i] == d;
      assert ranked[i] in ranked;
    }
    SmallerSet(Elements(domains), Elements(sampled));
  }

  // A ranking by domain-determined targets names each domain once.
  lemma DistinctNames(ranked: seq<Target>, domains: seq<Domain>)
    requires StrictlyRanked(ranked) && |domains| == |ranked|
    requires forall i :: 0 <= i < |ranked| ==> domains[i] == ranked[i].domain
    requires forall i, j :: 0 <= i < |ranked| && 0 <= j < |ranked| && ranked[i].domain == ranked[j].domain ==>
               ranked[i] == ranked[j]
    ensures Distinct(domains)
  {
    forall i, j | 0 <= i < j < |domains| ensures domains[i] != domains[j] {
      NamesAreOrdered(ranked[i].domain, ranked[j].domain);
    }
  }

  lemma SmallerSet(a: set<Domain>, b: set<Domain>)
    requires a <= b
    ensures |a| <= |b|
  {
    assert b == a + (b - a);
  }
}
