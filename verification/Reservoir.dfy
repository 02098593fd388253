/** Reservoir sampling of the candidate domains, and why it is fair. */
module Reservoir {
  type Domain = string

  predicate Distinct(s: seq<Domain>) {
    forall i, j :: 0 <= i < j < |s| ==> s[i] != s[j]
  }

  function Elements(s: seq<Domain>): set<Domain> {
    set x | x in s
  }

  // The reservoir after the choices drawn so far; the k-th choice is for the
  // element at index limit + k.
  function SampleOf(domains: seq<Domain>, limit: nat, choices: seq<nat>): (sampled: seq<Domain>)
    requires limit + |choices| <= |domains|
    ensures |sampled| == limit
  {
    if choices == [] then domains[..limit]
    else
      var last := |choices| - 1;
      var before := SampleOf(domains, limit, choices[..last]);
      if choices[last] < limit then before[choices[last] := domains[limit + last]] else before
  }

  // What the generator may draw: the k-th choice is at most limit + k.
  predicate Drawn(limit: nat, choices: seq<nat>) {
    forall k :: 0 <= k < |choices| ==> choices[k] <= limit + k
  }

  // The sample of a list: all of it if it is short, else as drawn.
  function Sampled(domains: seq<Domain>, limit: nat, choices: seq<nat>): seq<Domain>
    requires |domains| > limit ==> |choices| == |domains| - limit
  {
    if |domains| <= limit then domains else SampleOf(domains, limit, choices)
  }

  /** The in-place sampling, with the drawn positions as parameter. */
  method SampleDomains(domains: seq<Domain>, limit: nat, choices: seq<nat>) returns (sampled: seq<Domain>)
    requires |domains| > limit ==> |choices| == |domains| - limit
    ensures sampled == Sampled(domains, limit, choices)
  {
    if |domains| <= limit {
      return domains;
    }
    var slots := new Domain[limit](i requires 0 <= i < limit => domains[i]);
    assert slots[..] == domains[..limit];
    for index := limit to |domains|
      invariant slots[..] == SampleOf(domains, limit, choices[..index - limit])
    {
      var position := choices[index - limit];
      assert choices[..index + 1 - limit][..index - limit] == choices[..index - limit];
      if position < limit {
        slots[position] := domains[index];
      }
    }
    assert choices[..|domains| - limit] == choices;
    return slots[..];
  }

  // ---- what a sample holds ----

  /** Every sample holds `limit` distinct domains of those seen so far. */
  lemma {:induction false} SampleIsDistinct(domains: seq<Domain>, limit: nat, choices: seq<nat>)
    requires Distinct(domains) && limit + |choices| <= |domains|
    ensures Distinct(SampleOf(domains, limit, choices))
    ensures forall i :: 0 <= i < limit ==> SampleOf(domains, limit, choices)[i] in domains[..limit + |choices|]
    decreases |choices|
  {
    if choices != [] {
      var last := |choices| - 1;
      SampleIsDistinct(domains, limit, choices[..last]);
      var before := SampleOf(domains, limit, choices[..last]);
      var seen, now := domains[..limit + last], domains[..limit + |choices|];
      assert now == seen + [domains[limit + last]];
      forall i | 0 <= i < limit ensures before[i] in now && before[i] != domains[limit + last] {
        var j :| 0 <= j < |seen| && seen[j] == before[i];
      }
    }
  }

  lemma {:induction false} ElementsCount(s: seq<Domain>)
    requires Distinct(s)
    ensures |Elements(s)| == |s|
  {
    if s != [] {
      ElementsCount(s[..|s| - 1]);
      assert Elements(s) == Elements(s[..|s| - 1]) + {s[|s| - 1]};
    }
  }

  // ---- counting outcomes ----

  // All the ways the generator can draw k choices.
  ghost function Outcomes(limit: nat, k: nat): set<seq<nat>> {
    if k == 0 then {[]}
    else set c, p: nat | c in Outcomes(limit, k - 1) && p <= limit + k - 1 :: c + [p]
  }

  lemma {:induction false} OutcomesAreAll(limit: nat, k: nat, c: seq<nat>)
    ensures c in Outcomes(limit, k) <==> |c| == k && Drawn(limit, c)
    decreases k
  {
    if k > 0 && c != [] {
      OutcomesAreAll(limit, k - 1, Init(c));
      assert c == Init(c) + [Last(c)];
      OutcomesExtend(limit, k - 1, c);
    }
  }

  lemma OutcomesExtend(limit: nat, k: nat, t: seq<nat>)
    ensures t in Outcomes(limit, k + 1) <==> t != [] && Init(t) in Outcomes(limit, k) && Last(t) <= limit + k
  {
    if t != [] {
      assert t == Init(t) + [Last(t)];
    }
    if t in Outcomes(limit, k + 1) {
      var c, p: nat :| c in Outcomes(limit, k) && p <= limit + k && t == c + [p];
      assert Init(t) == c;
    }
  }

  function Init(s: seq<nat>): seq<nat>
    requires s != []
  {
    s[..|s| - 1]
  }

  function Last(s: seq<nat>): nat
    requires s != []
  {
    s[|s| - 1]
  }

  function Below(n: nat): (s: set<nat>)
    ensures |s| == n && forall p: nat :: p in s <==> p < n
  {
    if n == 0 then {} else Below(n - 1) + {n - 1}
  }

  // The sequences made by appending to each key one of its values.
  ghost predicate Extends(s: set<seq<nat>>, ext: map<seq<nat>, set<nat>>) {
    forall t: seq<nat> :: t in s <==> t != [] && Init(t) in ext && Last(t) in ext[Init(t)]
  }

  lemma {:induction false} AppendedCount(c: seq<nat>, values: set<nat>, s: set<seq<nat>>)
    requires forall t: seq<nat> :: t in s <==> t != [] && Init(t) == c && Last(t) in values
    ensures |s| == |values|
    decreases values
  {
    if values == {} {
      assert s == {};
    } else {
      var p :| p in values;
      assert Init(c + [p]) == c && Last(c + [p]) == p;
      forall t | t in s && Last(t) == p ensures t == c + [p] {
        assert t == Init(t) + [Last(t)];
      }
      AppendedCount(c, values - {p}, s - {c + [p]});
    }
  }

  lemma OneKeyFewer(s: set<seq<nat>>, ext: map<seq<nat>, set<nat>>, c: seq<nat>)
    requires Extends(s, ext) && c in ext
    ensures Extends(s - (set t | t in s && t != [] && Init(t) == c), ext - {c})
    ensures forall t: seq<nat> :: t in (set t | t in s && t != [] && Init(t) == c)
              <==> t != [] && Init(t) == c && Last(t) in ext[c]
  {
  }

  lemma {:induction false} ExtensionCount(s: set<seq<nat>>, ext: map<seq<nat>, set<nat>>, m: nat)
    requires Extends(s, ext)
    requires forall c :: c in ext ==> |ext[c]| == m
    ensures |s| == |ext| * m
    decreases |ext|
  {
    if ext == map[] {
      assert s == {};
    } else {
      var c :| c in ext;
      var ofC := set t | t in s && t != [] && Init(t) == c;
      var others := ext - {c};
      OneKeyFewer(s, ext, c);
      hide Extends;
      AppendedCount(c, ext[c], ofC);
      assert others.Keys == ext.Keys - {c};
      ExtensionCount(s - ofC, others, m);
      assert s == (s - ofC) + ofC;
      OneMore(|others|, m, |ext|);
    }
  }

  lemma OutcomesCount(limit: nat, k: nat, n: nat)
    requires n == limit + k + 1
    ensures |Outcomes(limit, k + 1)| == |Outcomes(limit, k)| * n
  {
    var ext := map c | c in Outcomes(limit, k) :: Below(n);
    forall t: seq<nat> | true
      ensures t in Outcomes(limit, k + 1) <==> t != [] && Init(t) in ext && Last(t) in Below(n)
    {
      OutcomesExtend(limit, k, t);
    }
    ExtensionCount(Outcomes(limit, k + 1), ext, n);
    assert ext.Keys == Outcomes(limit, k);
  }

  // ---- one more draw ----

  function Position(s: seq<Domain>, x: Domain): (i: nat)
    requires x in s
    ensures i < |s| && s[i] == x
  {
    if s[0] == x then 0 else 1 + Position(s[1..], x)
  }

  lemma DrawChangesSample(domains: seq<Domain>, limit: nat, c: seq<nat>, p: nat)
    requires Distinct(domains) && limit + |c| < |domains|
    ensures var before := SampleOf(domains, limit, c);
            var after := SampleOf(domains, limit, c + [p]);
            && Distinct(before) && |Elements(before)| == limit
            && domains[limit + |c|] !in before
            && Elements(before) <= Elements(domains[..limit + |c|])
            && Elements(after) == if p < limit then Elements(before) - {before[p]} + {domains[limit + |c|]}
                                  else Elements(before)
  {
    var t := c + [p];
    assert t[..|c|] == c;
    var before, after := SampleOf(domains, limit, c), SampleOf(domains, limit, t);
    SampleIsDistinct(domains, limit, c);
    ElementsCount(before);
    var d := domains[limit + |c|];
    forall x | x in before ensures x in domains[..limit + |c|] {
      var i :| 0 <= i < limit && before[i] == x;
    }
    if p < limit {
      forall x | x in Elements(before) - {before[p]} + {d} ensures x in Elements(after) {
        if x == d {
          assert after[p] == d;
        } else {
          var i :| 0 <= i < limit && before[i] == x;
          assert after[i] == x;
        }
      }
    }
  }

  // ---- every domain is equally likely ----

  // The outcomes of k draws whose sample has a domain.
  ghost function Favourable(domains: seq<Domain>, limit: nat, k: nat, x: Domain): set<seq<nat>>
    requires limit + k <= |domains|
  {
    set c | c in Outcomes(limit, k) && |c| == k && x in SampleOf(domains, limit, c)
  }

  // How the favourable outcomes grow: a new domain comes in by the draws below
  // the limit, an old one stays in but for the draw of its own slot.
  ghost function FavourableDraws(domains: seq<Domain>, limit: nat, k: nat, x: Domain): map<seq<nat>, set<nat>>
    requires limit + k < |domains|
  {
    if x == domains[limit + k] then map c | c in Outcomes(limit, k) :: Below(limit)
    else map c | c in Favourable(domains, limit, k, x)
           :: Below(limit + k + 1) - {Position(SampleOf(domains, limit, c), x)}
  }

  lemma FavourableDraw(domains: seq<Domain>, limit: nat, c: seq<nat>, p: nat, x: Domain)
    requires limit + |c| < |domains| && Distinct(domains)
    ensures var before := SampleOf(domains, limit, c);
            x in SampleOf(domains, limit, c + [p])
            <==> if x == domains[limit + |c|] then p < limit else x in before && p != Position(before, x)
  {
    DrawChangesSample(domains, limit, c, p);
    var before, after := SampleOf(domains, limit, c), SampleOf(domains, limit, c + [p]);
    hide SampleOf;
    assert x in after <==> x in Elements(after);
    assert x in before <==> x in Elements(before);
  }

  lemma FavourableOne(domains: seq<Domain>, limit: nat, k: nat, x: Domain, t: seq<nat>)
    requires limit + k < |domains| && Distinct(domains)
    ensures t in Favourable(domains, limit, k + 1, x)
            <==> (t != [] && Init(t) in Outcomes(limit, k)
                  && if x == domains[limit + k] then Last(t) < limit
                     else Init(t) in Favourable(domains, limit, k, x) && Last(t) <= limit + k
                          && Last(t) != Position(SampleOf(domains, limit, Init(t)), x))
  {
    hide SampleOf, Outcomes, Distinct, Position;
    OutcomesExtend(limit, k, t);
    OutcomesAreAll(limit, k + 1, t);
    if t != [] && Init(t) in Outcomes(limit, k) {
      OutcomesAreAll(limit, k, Init(t));
      FavourableDraw(domains, limit, Init(t), Last(t), x);
      assert t == Init(t) + [Last(t)];
    }
  }

  lemma FavourableExtends(domains: seq<Domain>, limit: nat, k: nat, x: Domain)
    requires limit + k < |domains| && Distinct(domains)
    ensures Extends(Favourable(domains, limit, k + 1, x), FavourableDraws(domains, limit, k, x))
  {
    var ext := FavourableDraws(domains, limit, k, x);
    FavourableAreOutcomes(domains, limit, k, x);
    hide SampleOf, Outcomes, Distinct, Position, Favourable;
    forall t: seq<nat> | true
      ensures t in Favourable(domains, limit, k + 1, x) <==> t != [] && Init(t) in ext && Last(t) in ext[Init(t)]
    {
      FavourableOne(domains, limit, k, x, t);
    }
  }

  lemma FavourableAreOutcomes(domains: seq<Domain>, limit: nat, k: nat, x: Domain)
    requires limit + k <= |domains|
    ensures Favourable(domains, limit, k, x) <= Outcomes(limit, k)
  {
  }

  lemma FavourableInitially(domains: seq<Domain>, limit: nat, x: Domain)
    requires limit <= |domains|
    ensures |Favourable(domains, limit, 0, x)| == if x in domains[..limit] then 1 else 0
  {
    assert Favourable(domains, limit, 0, x) == if x in domains[..limit] then {[]} else {};
  }

  // The favourable outcomes of one more draw, counted.
  lemma FavourableCount(domains: seq<Domain>, limit: nat, k: nat, x: Domain, seen: nat)
    requires seen == limit + k < |domains| && Distinct(domains)
    ensures |Favourable(domains, limit, k + 1, x)|
         == if x == domains[seen] then |Outcomes(limit, k)| * limit else |Favourable(domains, limit, k, x)| * seen
  {
    FavourableExtends(domains, limit, k, x);
    var ext := FavourableDraws(domains, limit, k, x);
    hide Extends, SampleOf, Outcomes, Distinct;
    if x == domains[seen] {
      assert ext.Keys == Outcomes(limit, k);
      ExtensionCount(Favourable(domains, limit, k + 1, x), ext, limit);
    } else {
      assert ext.Keys == Favourable(domains, limit, k, x);
      forall c | c in ext ensures |ext[c]| == seen {
        assert |Below(seen + 1) - {Position(SampleOf(domains, limit, c), x)}| == seen;
      }
      ExtensionCount(Favourable(domains, limit, k + 1, x), ext, seen);
    }
  }

  // The shares of a new and of an old domain after one more draw.
  predicate Fair(f: nat, n: nat, limit: nat, all: nat) {
    f * n == limit * all
  }

  lemma NewShare(f: nat, total: nat, limit: nat, n: nat, all: nat)
    requires f == total * limit && all == total * n
    ensures Fair(f, n, limit, all)
  {
  }

  lemma OldShare(f: nat, before: nat, total: nat, limit: nat, seen: nat, n: nat, all: nat)
    requires f == before * seen && Fair(before, seen, limit, total) && all == total * n
    ensures Fair(f, n, limit, all)
  {
  }

  lemma DrawKeepsFair(domains: seq<Domain>, limit: nat, k: nat, x: Domain, n: nat)
    requires Distinct(domains) && n == limit + k + 1 <= |domains|
    requires x != domains[n - 1] ==> Fair(|Favourable(domains, limit, k, x)|, n - 1, limit, |Outcomes(limit, k)|)
    ensures Fair(|Favourable(domains, limit, k + 1, x)|, n, limit, |Outcomes(limit, k + 1)|)
  {
    OutcomesCount(limit, k, n);
    FavourableCount(domains, limit, k, x, n - 1);
    hide Favourable, Outcomes, Distinct, Fair;
    var f, all, total := |Favourable(domains, limit, k + 1, x)|, |Outcomes(limit, k + 1)|, |Outcomes(limit, k)|;
    if x == domains[n - 1] {
      NewShare(f, total, limit, n, all);
    } else {
      OldShare(f, |Favourable(domains, limit, k, x)|, total, limit, n - 1, n, all);
    }
  }

  lemma FairInitially(domains: seq<Domain>, limit: nat, x: Domain)
    requires limit <= |domains| && x in domains[..limit]
    ensures Fair(|Favourable(domains, limit, 0, x)|, limit, limit, |Outcomes(limit, 0)|)
  {
    FavourableInitially(domains, limit, x);
    assert |Outcomes(limit, 0)| == 1;
  }

  /** Fairness: each of the n domains seen is in the sample in exactly
      limit / n of all the outcomes. */
  lemma {:induction false} EveryDomainIsEquallyLikely(domains: seq<Domain>, limit: nat, k: nat, x: Domain, n: nat)
    requires Distinct(domains) && n == limit + k <= |domains| && x in domains[..n]
    ensures Fair(|Favourable(domains, limit, k, x)|, n, limit, |Outcomes(limit, k)|)
    decreases k
  {
    if k == 0 {
      FairInitially(domains, limit, x);
    } else {
      hide Favourable, Outcomes, Fair;
      if x != domains[n - 1] {
        assert domains[..n] == domains[..n - 1] + [domains[n - 1]];
        EveryDomainIsEquallyLikely(domains, limit, k - 1, x, n - 1);
      }
      DrawKeepsFair(domains, limit, k - 1, x, n);
    }
  }

  // ---- every sample is equally likely ----

  // The outcomes of k draws whose sample has exactly these domains.
  ghost function Reaching(domains: seq<Domain>, limit: nat, k: nat, goal: set<Domain>): set<seq<nat>>
    requires limit + k <= |domains|
  {
    set c | c in Outcomes(limit, k) && |c| == k && Elements(SampleOf(domains, limit, c)) == goal
  }

  // The outcomes whose sample has these and one domain more, taken from `ys`.
  ghost predicate HasOneOf(sample: seq<Domain>, part: set<Domain>, ys: set<Domain>) {
    exists y :: y in ys && Elements(sample) == part + {y}
  }

  ghost function ReachingWith(domains: seq<Domain>, limit: nat, k: nat, part: set<Domain>, ys: set<Domain>)
    : set<seq<nat>>
    requires limit + k <= |domains|
  {
    set c | c in Outcomes(limit, k) && |c| == k && HasOneOf(SampleOf(domains, limit, c), part, ys)
  }

  lemma {:induction false} ReachingWithCount(
      domains: seq<Domain>, limit: nat, k: nat, part: set<Domain>, ys: set<Domain>, m: nat)
    requires limit + k <= |domains| && part !! ys
    requires forall y :: y in ys ==> |Reaching(domains, limit, k, part + {y})| == m
    ensures |ReachingWith(domains, limit, k, part, ys)| == |ys| * m
    decreases ys
  {
    if ys == {} {
      assert ReachingWith(domains, limit, k, part, ys) == {};
    } else {
      hide Reaching, ReachingWith;
      var y :| y in ys;
      ReachingWithCount(domains, limit, k, part, ys - {y}, m);
      ReachingWithSplits(domains, limit, k, part, ys, y);
      OneMore(|ys - {y}|, m, |ys|);
    }
  }

  lemma OneMore(a: nat, m: nat, b: nat)
    requires b == a + 1
    ensures a * m + m == b * m
  {
  }

  lemma ReachingWithSplits(domains: seq<Domain>, limit: nat, k: nat, part: set<Domain>, ys: set<Domain>, y: Domain)
    requires limit + k <= |domains| && part !! ys && y in ys
    ensures |ReachingWith(domains, limit, k, part, ys)|
         == |ReachingWith(domains, limit, k, part, ys - {y})| + |Reaching(domains, limit, k, part + {y})|
  {
    hide Outcomes, SampleOf, Elements;
    var all, others := ReachingWith(domains, limit, k, part, ys), ReachingWith(domains, limit, k, part, ys - {y});
    var these := Reaching(domains, limit, k, part + {y});
    forall c | c in others ensures c !in these {
      var z :| z in ys - {y} && Elements(SampleOf(domains, limit, c)) == part + {z};
      assert z in part + {z} && z !in part + {y};
    }
    forall c | c in all ensures c in others || c in these {
      var z :| z in ys && Elements(SampleOf(domains, limit, c)) == part + {z};
      assert z == y || z in ys - {y};
    }
    forall c | c in others ensures c in all {
      var z :| z in ys - {y} && Elements(SampleOf(domains, limit, c)) == part + {z};
      assert z in ys;
    }
    assert all == others + these;
  }

  function Factorial(k: nat): nat {
    if k == 0 then 1 else Factorial(k - 1) * k
  }

  // The first slot of a sample that is not in a set.
  function Stray(sample: seq<Domain>, part: set<Domain>): (i: nat)
    ensures i <= |sample| && (i < |sample| ==> sample[i] !in part)
    ensures i == |sample| ==> Elements(sample) <= part
  {
    if sample == [] || sample[0] !in part then 0 else 1 + Stray(sample[1..], part)
  }

  // The domains seen before the last that a goal does not have.
  ghost function Spare(domains: seq<Domain>, n: nat, part: set<Domain>): set<Domain>
    requires n <= |domains|
  {
    Elements(domains[..n]) - part
  }

  // How the outcomes that reach a goal grow. Without the newest domain the
  // sample is the goal already; with it, the newest replaces the one domain
  // too many.
  ghost function ReachingDraws(domains: seq<Domain>, limit: nat, k: nat, goal: set<Domain>): map<seq<nat>, set<nat>>
    requires limit + k < |domains|
  {
    var d := domains[limit + k];
    if d !in goal then map c | c in Reaching(domains, limit, k, goal) :: Below(limit + k + 1) - Below(limit)
    else
      var part := goal - {d};
      map c | c in ReachingWith(domains, limit, k, part, Spare(domains, limit + k, part))
        :: {Stray(SampleOf(domains, limit, c), part)}
  }

  lemma ReachingDraw(domains: seq<Domain>, limit: nat, c: seq<nat>, p: nat, goal: set<Domain>)
    requires limit + |c| < |domains| && Distinct(domains)
    ensures var d := domains[limit + |c|];
            var before := SampleOf(domains, limit, c);
            var part := goal - {d};
            Elements(SampleOf(domains, limit, c + [p])) == goal
            <==> if d !in goal then p >= limit && Elements(before) == goal
                 else HasOneOf(before, part, Spare(domains, limit + |c|, part)) && p == Stray(before, part)
  {
    DrawChangesSample(domains, limit, c, p);
    var d, before, part := domains[limit + |c|], SampleOf(domains, limit, c), goal - {domains[limit + |c|]};
    var after := SampleOf(domains, limit, c + [p]);
    hide SampleOf;
    if d in goal {
      if Elements(after) == goal {
        assert d in Elements(after);
        assert before[p] in Elements(before);
        assert Elements(before) == part + {before[p]};
        assert before[Stray(before, part)] in Elements(before);
      }
    }
  }

  lemma ReachingWithoutOne(domains: seq<Domain>, limit: nat, k: nat, goal: set<Domain>, t: seq<nat>)
    requires limit + k < |domains| && Distinct(domains) && domains[limit + k] !in goal
    ensures t in Reaching(domains, limit, k + 1, goal)
            <==> (t != [] && Init(t) in Reaching(domains, limit, k, goal) && limit <= Last(t) <= limit + k)
  {
    hide SampleOf, Outcomes, Distinct, Elements, HasOneOf, Stray;
    OutcomesExtend(limit, k, t);
    OutcomesAreAll(limit, k + 1, t);
    if t != [] && Init(t) in Outcomes(limit, k) {
      OutcomesAreAll(limit, k, Init(t));
      ReachingDraw(domains, limit, Init(t), Last(t), goal);
      assert t == Init(t) + [Last(t)];
    }
  }

  lemma ReachingWithout(domains: seq<Domain>, limit: nat, k: nat, goal: set<Domain>)
    requires limit + k < |domains| && Distinct(domains) && domains[limit + k] !in goal
    ensures Extends(Reaching(domains, limit, k + 1, goal), ReachingDraws(domains, limit, k, goal))
  {
    var ext := ReachingDraws(domains, limit, k, goal);
    hide SampleOf, Reaching, ReachingWith, Distinct, Spare, Stray;
    forall t: seq<nat> | true
      ensures t in Reaching(domains, limit, k + 1, goal) <==> t != [] && Init(t) in ext && Last(t) in ext[Init(t)]
    {
      ReachingWithoutOne(domains, limit, k, goal, t);
    }
  }

  lemma ReachingWithOne(domains: seq<Domain>, limit: nat, k: nat, goal: set<Domain>, t: seq<nat>)
    requires limit + k < |domains| && Distinct(domains) && domains[limit + k] in goal
    ensures var part := goal - {domains[limit + k]};
            t in Reaching(domains, limit, k + 1, goal)
            <==> (t != [] && Init(t) in ReachingWith(domains, limit, k, part, Spare(domains, limit + k, part))
                  && Last(t) == Stray(SampleOf(domains, limit, Init(t)), part))
  {
    hide SampleOf, Outcomes, Distinct, Elements, Spare, HasOneOf;
    OutcomesExtend(limit, k, t);
    OutcomesAreAll(limit, k + 1, t);
    if t != [] && Init(t) in Outcomes(limit, k) {
      OutcomesAreAll(limit, k, Init(t));
      ReachingDraw(domains, limit, Init(t), Last(t), goal);
      assert t == Init(t) + [Last(t)];
    }
  }

  lemma ReachingWithNewest(domains: seq<Domain>, limit: nat, k: nat, goal: set<Domain>)
    requires limit + k < |domains| && Distinct(domains) && domains[limit + k] in goal
    ensures Extends(Reaching(domains, limit, k + 1, goal), ReachingDraws(domains, limit, k, goal))
  {
    var ext := ReachingDraws(domains, limit, k, goal);
    hide SampleOf, Reaching, ReachingWith, Distinct, Spare, Stray;
    forall t: seq<nat> | true
      ensures t in Reaching(domains, limit, k + 1, goal) <==> t != [] && Init(t) in ext && Last(t) in ext[Init(t)]
    {
      ReachingWithOne(domains, limit, k, goal, t);
    }
  }

  lemma SpareCount(domains: seq<Domain>, n: nat, part: set<Domain>)
    requires n <= |domains| && Distinct(domains) && part <= Elements(domains[..n])
    ensures |Spare(domains, n, part)| == n - |part|
  {
    ElementsCount(domains[..n]);
    assert Elements(domains[..n]) == Spare(domains, n, part) + part;
  }

  lemma ReachingInitially(domains: seq<Domain>, limit: nat, goal: set<Domain>)
    requires limit <= |domains| && Distinct(domains) && |goal| == limit && goal <= Elements(domains[..limit])
    ensures |Reaching(domains, limit, 0, goal)| == 1
  {
    ElementsCount(domains[..limit]);
    SpareCount(domains, limit, goal);
    assert Elements(domains[..limit]) == goal;
    assert Reaching(domains, limit, 0, goal) == {[]};
  }

  lemma RangeCount(limit: nat, n: nat)
    ensures |Below(limit + n) - Below(limit)| == n
  {
    assert Below(limit + n) == (Below(limit + n) - Below(limit)) + Below(limit);
  }

  // The outcomes of one more draw that reach a goal, counted.
  lemma ReachingCountWithout(domains: seq<Domain>, limit: nat, k: nat, goal: set<Domain>, n: nat)
    requires limit + k < |domains| && n == k + 1 && Distinct(domains) && domains[limit + k] !in goal
    ensures |Reaching(domains, limit, k + 1, goal)| == |Reaching(domains, limit, k, goal)| * n
  {
    ReachingWithout(domains, limit, k, goal);
    var ext := ReachingDraws(domains, limit, k, goal);
    hide Outcomes, SampleOf, Extends, Distinct;
    assert ext.Keys == Reaching(domains, limit, k, goal);
    RangeCount(limit, n);
    ExtensionCount(Reaching(domains, limit, k + 1, goal), ext, n);
  }

  lemma ReachingCountWith(domains: seq<Domain>, limit: nat, k: nat, goal: set<Domain>)
    requires limit + k < |domains| && Distinct(domains) && domains[limit + k] in goal
    ensures |Reaching(domains, limit, k + 1, goal)|
         == |ReachingWith(domains, limit, k, goal - {domains[limit + k]},
                          Spare(domains, limit + k, goal - {domains[limit + k]}))|
  {
    ReachingWithNewest(domains, limit, k, goal);
    var ext := ReachingDraws(domains, limit, k, goal);
    hide Outcomes, SampleOf, Extends, Distinct;
    var part := goal - {domains[limit + k]};
    assert ext.Keys == ReachingWith(domains, limit, k, part, Spare(domains, limit + k, part));
    ExtensionCount(Reaching(domains, limit, k + 1, goal), ext, 1);
  }

  lemma GoalsWithout(domains: seq<Domain>, n: nat, goal: set<Domain>)
    requires n < |domains| && domains[n] !in goal && goal <= Elements(domains[..n + 1])
    ensures goal <= Elements(domains[..n])
  {
    assert domains[..n + 1] == domains[..n] + [domains[n]];
  }

  // A goal with the newest domain can have come from n + 1 - |goal| others.
  lemma GoalsWith(domains: seq<Domain>, n: nat, goal: set<Domain>)
    requires n < |domains| && Distinct(domains) && domains[n] in goal && goal <= Elements(domains[..n + 1])
    ensures var part := goal - {domains[n]};
            && part !! Spare(domains, n, part) && |Spare(domains, n, part)| == n + 1 - |goal|
            && forall y :: y in Spare(domains, n, part) ==>
                 |part + {y}| == |goal| && part + {y} <= Elements(domains[..n])
  {
    var part := goal - {domains[n]};
    assert domains[..n + 1] == domains[..n] + [domains[n]];
    SpareCount(domains, n, part);
    forall y | y in Spare(domains, n, part) ensures |part + {y}| == |goal| {
      assert y !in part;
    }
  }

  // Every set of `limit` of the domains seen has the same number of outcomes.
  ghost predicate AllReachedBy(domains: seq<Domain>, limit: nat, k: nat, m: nat)
    requires limit + k <= |domains|
  {
    forall s: set<Domain> ::
      (|s| == limit && s <= Elements(domains[..limit + k])) ==> |Reaching(domains, limit, k, s)| == m
  }

  lemma ReachingFromEqual(domains: seq<Domain>, limit: nat, k: nat, goal: set<Domain>, m: nat, n: nat)
    requires limit + k < |domains| && Distinct(domains) && n == k + 1
    requires |goal| == limit && goal <= Elements(domains[..limit + k + 1])
    requires AllReachedBy(domains, limit, k, m)
    ensures |Reaching(domains, limit, k + 1, goal)| == m * n
  {
    var d := domains[limit + k];
    if d !in goal {
      GoalsWithout(domains, limit + k, goal);
      ReachingCountWithout(domains, limit, k, goal, n);
    } else {
      GoalsWith(domains, limit + k, goal);
      hide Reaching, ReachingWith, Distinct, Elements, Spare;
      var part := goal - {d};
      var spare := Spare(domains, limit + k, part);
      ReachingWithCount(domains, limit, k, part, spare, m);
      assert |spare| == n;
      ReachingCountWith(domains, limit, k, goal);
    }
  }

  /** Uniformity: after k draws, every set of `limit` of the domains seen is the
      sample of exactly k! outcomes, the same number for each. */
  lemma {:induction false} EverySampleIsEquallyLikely(domains: seq<Domain>, limit: nat, k: nat, goal: set<Domain>)
    requires Distinct(domains) && limit + k <= |domains|
    requires |goal| == limit && goal <= Elements(domains[..limit + k])
    ensures |Reaching(domains, limit, k, goal)| == Factorial(k)
    decreases k
  {
    if k == 0 {
      ReachingInitially(domains, limit, goal);
    } else {
      hide Reaching, Distinct, Elements;
      assert AllReachedBy(domains, limit, k - 1, Factorial(k - 1)) by {
        forall s: set<Domain> | |s| == limit && s <= Elements(domains[..limit + (k - 1)])
          ensures |Reaching(domains, limit, k - 1, s)| == Factorial(k - 1)
        {
          EverySampleIsEquallyLikely(domains, limit, k - 1, s);
        }
      }
      hide AllReachedBy;
      ReachingFromEqual(domains, limit, k - 1, goal, Factorial(k - 1), k);
    }
  }
}
