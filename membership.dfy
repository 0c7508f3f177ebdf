/** The membership state of a load balancer as values: the roster, the excluded set and the
    re-inclusion counters, the active view derived from them, and what include, exclude and
    one health sweep do to them. The LoadBalancer class is proved against these functions. */
module Membership {
  import opened Providers

  /** Consecutive healthy sweeps an excluded provider needs before it is included again. */
  const ReinclusionThreshold: nat := 2

  /** The roster (order kept, duplicates allowed), the excluded set, and the re-inclusion
      counter of every provider that has one; a provider without one counts 0. */
  datatype State = State(roster: seq<Provider>, excluded: set<Provider>, counts: map<Provider, nat>)

  function Count(counts: map<Provider, nat>, p: Provider): nat
  {
    if p in counts then counts[p] else 0
  }

  predicate NoDuplicates(s: seq<Provider>)
  {
    forall i, j :: 0 <= i < j < |s| ==> s[i] != s[j]
  }

  /** `a` is obtained from `b` by dropping elements, keeping the order of the rest. */
  predicate IsSubsequence(a: seq<Provider>, b: seq<Provider>)
  {
    if a == [] then true
    else if b == [] then false
    else (a[0] == b[0] && IsSubsequence(a[1..], b[1..])) || IsSubsequence(a, b[1..])
  }

  /** `s` with every occurrence of `p` dropped. */
  function Without(s: seq<Provider>, p: Provider): seq<Provider>
  {
    if s == [] then []
    else if s[0] == p then Without(s[1..], p)
    else [s[0]] + Without(s[1..], p)
  }

  /** The active view: the roster entries that are not excluded, in roster order. */
  function Active(roster: seq<Provider>, excluded: set<Provider>): (a: seq<Provider>)
    ensures |a| <= |roster|
    ensures forall i :: 0 <= i < |a| ==> a[i] !in excluded
  {
    if roster == [] then []
    else if roster[0] in excluded then Active(roster[1..], excluded)
    else [roster[0]] + Active(roster[1..], excluded)
  }

  function ActiveOf(s: State): seq<Provider>
  {
    Active(s.roster, s.excluded)
  }

  lemma {:induction false} ActiveMembers(roster: seq<Provider>, excluded: set<Provider>, x: Provider)
    ensures x in Active(roster, excluded) <==> x in roster && x !in excluded
  {
    if roster != [] {
      ActiveMembers(roster[1..], excluded, x);
      assert roster == [roster[0]] + roster[1..];
    }
  }

  lemma {:induction false} ActiveIsSubsequence(roster: seq<Provider>, excluded: set<Provider>)
    ensures IsSubsequence(Active(roster, excluded), roster)
  {
    if roster != [] {
      ActiveIsSubsequence(roster[1..], excluded);
      var rest := Active(roster[1..], excluded);
      if roster[0] !in excluded {
        assert ([roster[0]] + rest)[1..] == rest;
      } else if rest != [] {
        assert IsSubsequence(rest, roster[1..]);
      }
    }
  }

  /** Only the exclusion of roster members matters to the active view. */
  lemma {:induction false} ActiveDependsOnRosterOnly(roster: seq<Provider>, e1: set<Provider>, e2: set<Provider>)
    requires forall x :: x in roster ==> (x in e1 <==> x in e2)
    ensures Active(roster, e1) == Active(roster, e2)
  {
    if roster != [] {
      ActiveDependsOnRosterOnly(roster[1..], e1, e2);
    }
  }

  lemma {:induction false} ActiveAppend(roster: seq<Provider>, excluded: set<Provider>, p: Provider)
    ensures Active(roster + [p], excluded) == Active(roster, excluded) + (if p in excluded then [] else [p])
  {
    if roster == [] {
      assert [] + [p] == [p];
    } else {
      assert (roster + [p])[1..] == roster[1..] + [p];
      ActiveAppend(roster[1..], excluded, p);
    }
  }

  /** With nothing excluded the active view is the whole roster. */
  lemma {:induction false} ActiveNothingExcluded(roster: seq<Provider>)
    ensures Active(roster, {}) == roster
  {
    if roster != [] {
      ActiveNothingExcluded(roster[1..]);
      assert roster == [roster[0]] + roster[1..];
    }
  }

  /** Excluding one more provider drops exactly that provider from the active view. */
  lemma {:induction false} ActiveExcludeOne(roster: seq<Provider>, excluded: set<Provider>, p: Provider)
    ensures Active(roster, excluded + {p}) == Without(Active(roster, excluded), p)
  {
    if roster != [] {
      ActiveExcludeOne(roster[1..], excluded, p);
    }
  }

  // ---------------------------------------------------------------- include and exclude

  /** include_provider: no longer excluded, and appended to the roster unless already there. */
  function Include(s: State, p: Provider): (t: State)
    ensures s.roster <= t.roster && |t.roster| <= |s.roster| + 1
    ensures p in t.roster && p !in t.excluded && t.excluded <= s.excluded
    ensures t.counts == s.counts
  {
    State(if p in s.roster then s.roster else s.roster + [p], s.excluded - {p}, s.counts)
  }

  /** exclude_provider: added to the excluded set, whether or not it is on the roster. */
  function Exclude(s: State, p: Provider): (t: State)
    ensures t.roster == s.roster && t.counts == s.counts
    ensures p in t.excluded && s.excluded <= t.excluded && t.excluded - s.excluded <= {p}
  {
    s.(excluded := s.excluded + {p})
  }

  lemma IncludeEffect(s: State, p: Provider)
    ensures var t := Include(s, p);
      && p in t.roster && p !in t.excluded && p in ActiveOf(t)
      && t.counts == s.counts
      && (p in s.roster ==> t.roster == s.roster)
      && (p !in s.roster ==> t.roster == s.roster + [p])
      && (NoDuplicates(s.roster) ==> NoDuplicates(t.roster))
      && (forall x :: x != p ==> (x in t.excluded <==> x in s.excluded))
  {
    ActiveMembers(Include(s, p).roster, Include(s, p).excluded, p);
  }

  /** Including a provider the roster lacks appends it to the active view. */
  lemma IncludeNewcomer(s: State, p: Provider)
    requires p !in s.roster
    ensures ActiveOf(Include(s, p)) == ActiveOf(s) + [p]
  {
    ActiveAppend(s.roster, s.excluded - {p}, p);
    ActiveDependsOnRosterOnly(s.roster, s.excluded - {p}, s.excluded);
  }

  /** Including an already active provider changes nothing. */
  lemma IncludeActiveIsNoOp(s: State, p: Provider)
    requires p in ActiveOf(s)
    ensures Include(s, p) == s
  {
    ActiveMembers(s.roster, s.excluded, p);
    assert s.excluded - {p} == s.excluded;
  }

  lemma IncludeIdempotent(s: State, p: Provider)
    ensures Include(Include(s, p), p) == Include(s, p)
  {
  }

  lemma ExcludeEffect(s: State, p: Provider)
    ensures var t := Exclude(s, p);
      && t.roster == s.roster && t.counts == s.counts && p in t.excluded
      && ActiveOf(t) == Without(ActiveOf(s), p)
      && p !in ActiveOf(t)
      && (forall x :: x != p ==> (x in ActiveOf(t) <==> x in ActiveOf(s)))
  {
    ActiveExcludeOne(s.roster, s.excluded, p);
    var t := Exclude(s, p);
    ActiveMembers(t.roster, t.excluded, p);
    forall x | x != p
      ensures x in ActiveOf(t) <==> x in ActiveOf(s)
    {
      ActiveMembers(t.roster, t.excluded, x);
      ActiveMembers(s.roster, s.excluded, x);
    }
  }

  lemma ExcludeIdempotent(s: State, p: Provider)
    ensures Exclude(Exclude(s, p), p) == Exclude(s, p)
  {
  }

  // ---------------------------------------------------------------- the health sweep

  /** One iteration of the probing loop: a healthy excluded provider gains a count, a healthy
      active one is left alone, an unhealthy one is excluded and its counter set to 0. */
  function ProbeStep(s: State, p: Provider, healthy: bool): (t: State)
    ensures t.roster == s.roster
    ensures StandingOf(t, p) == StandingStep(StandingOf(s, p), healthy)
    ensures forall q :: q != p ==> StandingOf(t, q) == StandingOf(s, q)
    ensures forall q :: q in t.counts ==> q in s.counts || q == p
  {
    if healthy then
      if p in s.excluded then s.(counts := s.counts[p := Count(s.counts, p) + 1]) else s
    else
      Exclude(s, p).(counts := s.counts[p := 0])
  }

  /** The probing loop after visiting `visited`, whose probes returned `results`. */
  function Probed(s: State, visited: seq<Provider>, results: seq<bool>): (t: State)
    requires |visited| == |results|
    ensures t.roster == s.roster
    ensures forall q :: q in t.counts ==> q in s.counts || q in visited
    decreases |visited|
  {
    if visited == [] then s
    else
      var n := |visited| - 1;
      ProbeStep(Probed(s, visited[..n], results[..n]), visited[n], results[n])
  }

  /** The providers whose counter has reached the threshold. */
  function Due(counts: map<Provider, nat>): set<Provider>
  {
    set p | p in counts && counts[p] >= ReinclusionThreshold
  }

  predicate CountersBelowThreshold(counts: map<Provider, nat>)
  {
    forall p :: p in counts ==> counts[p] < ReinclusionThreshold
  }

  /** The re-inclusion loop: each provider due has its counter reset and is included again.
      That inclusion appends nothing when every provider due is on the roster. */
  function Reincluded(s: State): (t: State)
    requires forall p :: p in Due(s.counts) ==> p in s.roster
    ensures t.roster == s.roster && t.counts.Keys == s.counts.Keys
    ensures CountersBelowThreshold(t.counts)
    ensures forall q :: q in Due(s.counts) ==> q !in t.excluded
    ensures forall q :: q in s.excluded && q !in Due(s.counts) ==> q in t.excluded
  {
    State(s.roster, s.excluded - Due(s.counts),
          map p | p in s.counts :: if s.counts[p] >= ReinclusionThreshold then 0 else s.counts[p])
  }

  /** check_heartbeats, with `probes[i]` the probe result of `s.roster[i]`. A sweep leaves
      the roster as it was, leaves every counter below the threshold, and gives counters
      only to roster members. */
  function Sweep(s: State, probes: seq<bool>): (t: State)
    requires |probes| == |s.roster|
    requires CountersBelowThreshold(s.counts)
    ensures t.roster == s.roster
    ensures CountersBelowThreshold(t.counts)
    ensures forall p :: p in t.counts ==> p in s.counts || p in s.roster
  {
    ProbedDueOnRoster(s, s.roster, probes);
    Reincluded(Probed(s, s.roster, probes))
  }

  // The fate of one provider across a sweep depends only on its own probes.

  /** Whether a provider is excluded, and its counter. */
  datatype Standing = Standing(excluded: bool, count: nat)

  function StandingOf(s: State, p: Provider): Standing
  {
    Standing(p in s.excluded, Count(s.counts, p))
  }

  function StandingStep(st: Standing, healthy: bool): Standing
  {
    if !healthy then Standing(true, 0)
    else if st.excluded then Standing(true, st.count + 1)
    else st
  }

  /** A provider's standing after probes with the given results, in order. */
  function Track(st: Standing, results: seq<bool>): Standing
    decreases |results|
  {
    if results == [] then st
    else StandingStep(Track(st, results[..|results| - 1]), results[|results| - 1])
  }

  /** What the re-inclusion loop does to a standing. */
  function Settle(st: Standing): Standing
  {
    if st.count >= ReinclusionThreshold then Standing(false, 0) else st
  }

  /** The results of the probes of `p`, in visiting order. */
  function ProbesOf(visited: seq<Provider>, results: seq<bool>, p: Provider): seq<bool>
    requires |visited| == |results|
    decreases |visited|
  {
    if visited == [] then []
    else
      var n := |visited| - 1;
      ProbesOf(visited[..n], results[..n], p) + (if visited[n] == p then [results[n]] else [])
  }

  lemma TrackSnoc(st: Standing, results: seq<bool>, h: bool)
    ensures Track(st, results + [h]) == StandingStep(Track(st, results), h)
  {
  }

  lemma {:induction false} ProbedStanding(s: State, visited: seq<Provider>, results: seq<bool>, p: Provider)
    requires |visited| == |results|
    ensures StandingOf(Probed(s, visited, results), p) == Track(StandingOf(s, p), ProbesOf(visited, results, p))
    decreases |visited|
  {
    if visited != [] {
      var n := |visited| - 1;
      ProbedStanding(s, visited[..n], results[..n], p);
      var before := ProbesOf(visited[..n], results[..n], p);
      if visited[n] == p {
        TrackSnoc(StandingOf(s, p), before, results[n]);
      } else {
        assert before + [] == before;
      }
    }
  }

  lemma {:induction false} ProbesOfAbsent(visited: seq<Provider>, results: seq<bool>, p: Provider)
    requires |visited| == |results|
    requires ProbesOf(visited, results, p) != []
    ensures p in visited
    decreases |visited|
  {
    var n := |visited| - 1;
    if visited[n] != p {
      ProbesOfAbsent(visited[..n], results[..n], p);
    }
  }

  lemma {:induction false} ProbesOfUnique(visited: seq<Provider>, results: seq<bool>, i: nat)
    requires |visited| == |results| && i < |visited|
    requires forall j :: 0 <= j < |visited| && visited[j] == visited[i] ==> j == i
    ensures ProbesOf(visited, results, visited[i]) == [results[i]]
    decreases |visited|
  {
    var n := |visited| - 1;
    var p := visited[i];
    if i < n {
      ProbesOfUnique(visited[..n], results[..n], i);
    } else if ProbesOf(visited[..n], results[..n], p) != [] {
      ProbesOfAbsent(visited[..n], results[..n], p);
    }
  }

  /** When the last probe of `p` in the visit fails, its probe results end with a failure. */
  lemma {:induction false} ProbesOfLastFails(visited: seq<Provider>, results: seq<bool>, i: nat)
    requires |visited| == |results| && i < |visited| && !results[i]
    requires forall j :: i < j < |visited| ==> visited[j] != visited[i]
    ensures var ps := ProbesOf(visited, results, visited[i]); ps != [] && !ps[|ps| - 1]
    decreases |visited|
  {
    var n := |visited| - 1;
    if i < n {
      ProbesOfLastFails(visited[..n], results[..n], i);
      var before := ProbesOf(visited[..n], results[..n], visited[i]);
      assert before + [] == before;
    }
  }

  lemma {:induction false} ProbedDueOnRoster(s: State, visited: seq<Provider>, results: seq<bool>)
    requires |visited| == |results|
    requires CountersBelowThreshold(s.counts)
    ensures forall p :: p in Due(Probed(s, visited, results).counts) ==> p in visited
  {
    forall p | p in Due(Probed(s, visited, results).counts)
      ensures p in visited
    {
      ProbedStanding(s, visited, results, p);
      if ProbesOf(visited, results, p) != [] {
        ProbesOfAbsent(visited, results, p);
      }
    }
  }

  lemma ReincludedStanding(s: State, p: Provider)
    requires forall q :: q in Due(s.counts) ==> q in s.roster
    ensures StandingOf(Reincluded(s), p) == Settle(StandingOf(s, p))
  {
  }

  /** The fate of a provider across a sweep: its own probes, tracked from its standing, then
      settled by the re-inclusion loop. */
  lemma SweepStanding(s: State, probes: seq<bool>, p: Provider)
    requires |probes| == |s.roster| && CountersBelowThreshold(s.counts)
    ensures StandingOf(Sweep(s, probes), p) == Settle(Track(StandingOf(s, p), ProbesOf(s.roster, probes, p)))
  {
    ProbedDueOnRoster(s, s.roster, probes);
    ProbedStanding(s, s.roster, probes, p);
    ReincludedStanding(Probed(s, s.roster, probes), p);
  }

  // ---------------------------------------------------------------- properties of a sweep

  /** A provider whose last probe in the sweep fails ends the sweep excluded with counter 0:
      the re-inclusion loop of the same sweep does not undo it. */
  lemma SweepLastProbeFails(s: State, probes: seq<bool>, i: nat)
    requires |probes| == |s.roster| && CountersBelowThreshold(s.counts)
    requires i < |s.roster| && !probes[i]
    requires forall j :: i < j < |s.roster| ==> s.roster[j] != s.roster[i]
    ensures var t := Sweep(s, probes);
      s.roster[i] in t.excluded && Count(t.counts, s.roster[i]) == 0 && s.roster[i] !in ActiveOf(t)
  {
    var p := s.roster[i];
    SweepStanding(s, probes, p);
    var ps := ProbesOf(s.roster, probes, p);
    ProbesOfLastFails(s.roster, probes, i);
    TrackSnoc(StandingOf(s, p), ps[..|ps| - 1], false);
    assert ps[..|ps| - 1] + [false] == ps;
    var t := Sweep(s, probes);
    ActiveMembers(t.roster, t.excluded, p);
  }

  /** On a roster without duplicates, a failed probe excludes and resets. */
  lemma SweepProbeFails(s: State, probes: seq<bool>, i: nat)
    requires |probes| == |s.roster| && CountersBelowThreshold(s.counts)
    requires NoDuplicates(s.roster) && i < |s.roster| && !probes[i]
    ensures var t := Sweep(s, probes);
      s.roster[i] in t.excluded && Count(t.counts, s.roster[i]) == 0 && s.roster[i] !in ActiveOf(t)
  {
    SweepLastProbeFails(s, probes, i);
  }

  /** Hysteresis, for a provider listed once: a failed probe excludes it with counter 0; a
      healthy probe moves an excluded provider's counter from 0 to 1 and keeps it excluded,
      and from 1 to re-inclusion with counter 0; a healthy active provider is unchanged. */
  lemma SweepHysteresis(s: State, probes: seq<bool>, i: nat)
    requires |probes| == |s.roster| && CountersBelowThreshold(s.counts)
    requires i < |s.roster|
    requires forall j :: 0 <= j < |s.roster| && s.roster[j] == s.roster[i] ==> j == i
    ensures var p, t := s.roster[i], Sweep(s, probes);
      && (!probes[i] ==> p in t.excluded && Count(t.counts, p) == 0)
      && (probes[i] && p !in s.excluded ==> p !in t.excluded && Count(t.counts, p) == Count(s.counts, p))
      && (probes[i] && p in s.excluded && Count(s.counts, p) == 0 ==> p in t.excluded && Count(t.counts, p) == 1)
      && (probes[i] && p in s.excluded && Count(s.counts, p) == 1 ==> p !in t.excluded && Count(t.counts, p) == 0)
  {
    var p := s.roster[i];
    SweepStanding(s, probes, p);
    ProbesOfUnique(s.roster, probes, i);
    TrackSnoc(StandingOf(s, p), [], probes[i]);
    assert [] + [probes[i]] == [probes[i]];
    if p in s.counts {
      assert Count(s.counts, p) < ReinclusionThreshold;
    }
  }

  /** A provider excluded with counter 0 (as a failed probe leaves it) and listed once is
      active again after two sweeps exactly when both of its probes succeed, and never after
      just one. */
  lemma TwoHealthySweepsReinclude(s: State, first: seq<bool>, second: seq<bool>, i: nat)
    requires |first| == |s.roster| && |second| == |s.roster| && CountersBelowThreshold(s.counts)
    requires i < |s.roster|
    requires forall j :: 0 <= j < |s.roster| && s.roster[j] == s.roster[i] ==> j == i
    requires s.roster[i] in s.excluded && Count(s.counts, s.roster[i]) == 0
    ensures var p, t := s.roster[i], Sweep(s, first);
      && p !in ActiveOf(t)
      && (p in ActiveOf(Sweep(t, second)) <==> first[i] && second[i])
  {
    var p := s.roster[i];
    SweepHysteresis(s, first, i);
    var t := Sweep(s, first);
    SweepHysteresis(t, second, i);
    var u := Sweep(t, second);
    ActiveMembers(t.roster, t.excluded, p);
    ActiveMembers(u.roster, u.excluded, p);
  }

  /** An active provider whose probes all succeed stays active with its counter unchanged. */
  lemma SweepHealthyActiveUnchanged(s: State, probes: seq<bool>, p: Provider)
    requires |probes| == |s.roster| && CountersBelowThreshold(s.counts)
    requires p !in s.excluded
    requires forall j :: 0 <= j < |s.roster| && s.roster[j] == p ==> probes[j]
    ensures var t := Sweep(s, probes); p !in t.excluded && Count(t.counts, p) == Count(s.counts, p)
  {
    SweepStanding(s, probes, p);
    HealthyTrackUnchanged(s.roster, probes, p, StandingOf(s, p));
    if p in s.counts {
      assert Count(s.counts, p) < ReinclusionThreshold;
    }
  }

  lemma {:induction false} HealthyTrackUnchanged(visited: seq<Provider>, results: seq<bool>, p: Provider, st: Standing)
    requires |visited| == |results| && !st.excluded
    requires forall j :: 0 <= j < |visited| && visited[j] == p ==> results[j]
    ensures Track(st, ProbesOf(visited, results, p)) == st
    decreases |visited|
  {
    if visited != [] {
      var n := |visited| - 1;
      HealthyTrackUnchanged(visited[..n], results[..n], p, st);
      var before := ProbesOf(visited[..n], results[..n], p);
      if visited[n] == p {
        TrackSnoc(st, before, results[n]);
      } else {
        assert before + [] == before;
      }
    }
  }

  /** The roster may list a provider more than once, and then it is probed once per entry:
      a provider listed three times whose probes fail, succeed, succeed is active again
      after that single sweep. */
  lemma DuplicateEntriesShortenHysteresis(p: Provider)
    ensures var s := State([p, p, p], {}, map[]);
      p in ActiveOf(Sweep(s, [false, true, true]))
  {
    var s := State([p, p, p], {}, map[]);
    var probes := [false, true, true];
    SweepStanding(s, probes, p);
    var r := s.roster;
    assert ProbesOf(r[..1], probes[..1], p) == [false] by {
      assert r[..1][..0] == [] && probes[..1][..0] == [];
    }
    assert ProbesOf(r[..2], probes[..2], p) == [false, true] by {
      assert r[..2][..1] == r[..1] && probes[..2][..1] == probes[..1];
    }
    assert ProbesOf(r, probes, p) == [false, true, true] by {
      assert probes[..2] == [false, true];
    }
    var st := StandingOf(s, p);
    TrackSnoc(st, [], false);
    TrackSnoc(st, [false], true);
    TrackSnoc(st, [false, true], true);
    assert [] + [false] == [false] && [false] + [true] == [false, true];
    assert [false, true] + [true] == [false, true, true];
    var t := Sweep(s, probes);
    ActiveMembers(t.roster, t.excluded, p);
  }

  /** include_provider does not reset the re-inclusion counter. A provider left excluded with
      counter 1 by one healthy sweep, then included and excluded again by hand, is inactive
      with every counter below the threshold, yet one more healthy sweep makes it active. */
  lemma ManualIncludeKeepsCounter(p: Provider)
    ensures var s1 := Sweep(State([p], {}, map[]), [false]);
      var s2 := Sweep(s1, [true]);
      var s3 := Exclude(Include(s2, p), p);
      && p !in ActiveOf(s2) && Count(s2.counts, p) == 1
      && p !in ActiveOf(s3) && CountersBelowThreshold(s3.counts) && |s3.roster| == 1
      && p in ActiveOf(Sweep(s3, [true]))
  {
    var s0 := State([p], {}, map[]);
    SweepHysteresis(s0, [false], 0);
    var s1 := Sweep(s0, [false]);
    SweepHysteresis(s1, [true], 0);
    var s2 := Sweep(s1, [true]);
    var s3 := Exclude(Include(s2, p), p);
    assert s3.roster == [p] && s3.counts == s2.counts && p in s3.excluded;
    SweepHysteresis(s3, [true], 0);
    var s4 := Sweep(s3, [true]);
    ActiveSingleton(p, s2.excluded);
    ActiveSingleton(p, s3.excluded);
    ActiveSingleton(p, s4.excluded);
  }

  /** A health check that raises ends the probing loop early and skips the re-inclusion loop.
      Here the roster is [a, b], a is excluded with counter 1, a's check succeeds and b's
      raises: a is left due for re-inclusion with its counter at the threshold, a state no
      completed sweep leaves behind. */
  lemma RaisingCheckLeavesCounterDue(a: Provider, b: Provider)
    ensures var t := Probed(State([a, b], {a}, map[a := 1]), [a], [true]);
      && a in t.excluded && Count(t.counts, a) == ReinclusionThreshold
      && a in Due(t.counts) && !CountersBelowThreshold(t.counts)
  {
  }

  lemma ActiveSingleton(p: Provider, excluded: set<Provider>)
    ensures Active([p], excluded) == if p in excluded then [] else [p]
  {
  }

  /** One provider whose probe fails, then succeeds twice: inactive after the first and the
      second sweep, active after the third. */
  lemma HeartbeatScenario(p: Provider)
    ensures var s0 := State([p], {}, map[]);
      var s1 := Sweep(s0, [false]);
      var s2 := Sweep(s1, [true]);
      var s3 := Sweep(s2, [true]);
      && ActiveOf(s0) == [p] && ActiveOf(s1) == [] && ActiveOf(s2) == [] && ActiveOf(s3) == [p]
  {
    var s0 := State([p], {}, map[]);
    SweepHysteresis(s0, [false], 0);
    var s1 := Sweep(s0, [false]);
    SweepHysteresis(s1, [true], 0);
    var s2 := Sweep(s1, [true]);
    SweepHysteresis(s2, [true], 0);
    var s3 := Sweep(s2, [true]);
    ActiveSingleton(p, s0.excluded);
    ActiveSingleton(p, s1.excluded);
    ActiveSingleton(p, s2.excluded);
    ActiveSingleton(p, s3.excluded);
  }
}
