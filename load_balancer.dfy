/** The load balancer: its membership state updated in place, selection over the active
    view, and the health sweep. Each method is proved against the matching function of
    module Membership or ProviderSelectors. */
module LoadBalancing {
  import opened Providers
  import opened Results
  import opened ProviderSelectors
  import opened Membership

  /** The most providers a roster may be set to. */
  const MaxProviders: nat := 10

  /** The two ValueErrors of the roster setter. */
  datatype RosterSizeError = TooManyProviders | NoProviders

  /** The RuntimeError raised by `get` when every provider is excluded. */
  datatype GetError = NoProvidersAvailable

  /** The roster setter's size check: more than the maximum is refused first, then empty. */
  function CheckRosterSize(value: seq<Provider>): (o: Outcome<RosterSizeError>)
    ensures o.Pass? <==> 1 <= |value| <= MaxProviders
    ensures o == Fail(TooManyProviders) <==> |value| > MaxProviders
    ensures o == Fail(NoProviders) <==> |value| == 0
  {
    if |value| > MaxProviders then Fail(TooManyProviders)
    else if |value| == 0 then Fail(NoProviders)
    else Pass
  }

  /** The selector class a load balancer is built with. */
  datatype SelectorKind = RandomSelection | RoundRobinSelection

  /** The selector instance a load balancer owns: the random one has no state, the round-robin
      one is an object with a cursor. */
  datatype Selector = Random | RoundRobin(cursor: RoundRobinSelector)
  {
    function Footprint(): set<object>
    {
      if RoundRobin? then {cursor} else {}
    }
  }

  class LoadBalancer {
    var providers: seq<Provider>
    var excludedProviders: set<Provider>
    var reinclusionCounts: map<Provider, nat>
    const selector: Selector

    /** Between calls the roster is non-empty (the setter refuses an empty list, inclusion
        only appends, a sweep keeps the roster) and, when no health check has raised, every
        counter is below the threshold (each completed sweep resets the ones that reach it,
        and nothing else raises a counter). */
    ghost predicate Valid()
      reads this
    {
      providers != [] && CountersBelowThreshold(reinclusionCounts)
    }

    function Snapshot(): State
      reads this
    {
      State(providers, excludedProviders, reinclusionCounts)
    }

    /** active_providers: the roster filtered by exclusion, order kept. */
    function ActiveProviders(): (a: seq<Provider>)
      reads this
      ensures IsSubsequence(a, providers)
      ensures forall i :: 0 <= i < |a| ==> a[i] !in excludedProviders
    {
      ActiveIsSubsequence(providers, excludedProviders);
      Active(providers, excludedProviders)
    }

    /** The state `__init__` sets up before it assigns the roster. */
    constructor Init(kind: SelectorKind)
      ensures providers == [] && excludedProviders == {} && reinclusionCounts == map[]
      ensures kind == RandomSelection ==> selector.Random?
      ensures kind == RoundRobinSelection ==> selector.RoundRobin? && selector.cursor.index == 0
      ensures fresh(selector.Footprint())
    {
      providers := [];
      excludedProviders := {};
      reinclusionCounts := map[];
      if kind == RoundRobinSelection {
        var cursor := new RoundRobinSelector();
        selector := RoundRobin(cursor);
      } else {
        selector := Random;
      }
    }

    /** `__init__`: fails as the roster setter does; otherwise the roster is the given
        sequence and nothing is excluded. */
    static method New(value: seq<Provider>, kind: SelectorKind) returns (r: Result<LoadBalancer, RosterSizeError>)
      ensures r.Err? <==> CheckRosterSize(value).Fail?
      ensures r.Err? ==> r.error == CheckRosterSize(value).error
      ensures r.Ok? ==> fresh(r.value) && fresh(r.value.selector.Footprint()) && r.value.Valid()
      ensures r.Ok? ==> r.value.providers == value && r.value.ActiveProviders() == value
      ensures r.Ok? ==> r.value.excludedProviders == {} && r.value.reinclusionCounts == map[]
      ensures r.Ok? && kind == RandomSelection ==> r.value.selector.Random?
      ensures r.Ok? && kind == RoundRobinSelection ==>
                r.value.selector.RoundRobin? && r.value.selector.cursor.index == 0
    {
      var lb := new LoadBalancer.Init(kind);
      var o := lb.SetProviders(value);
      if o.Fail? {
        return Err(o.error);
      }
      ActiveNothingExcluded(value);
      r := Ok(lb);
    }

    /** The roster setter: refuses a size outside 1..MaxProviders and otherwise replaces the
        roster. */
    method SetProviders(value: seq<Provider>) returns (o: Outcome<RosterSizeError>)
      modifies this
      ensures o == CheckRosterSize(value)
      ensures providers == if o.Pass? then value else old(providers)
      ensures excludedProviders == old(excludedProviders) && reinclusionCounts == old(reinclusionCounts)
    {
      if |value| > MaxProviders {
        return Fail(TooManyProviders);
      }
      if |value| == 0 {
        return Fail(NoProviders);
      }
      providers := value;
      o := Pass;
    }

    method IncludeProvider(p: Provider)
      modifies this
      ensures Snapshot() == Include(old(Snapshot()), p)
    {
      excludedProviders := excludedProviders - {p};
      if p !in providers {
        providers := providers + [p];
      }
    }

    method ExcludeProvider(p: Provider)
      modifies this
      ensures Snapshot() == Exclude(old(Snapshot()), p)
    {
      excludedProviders := excludedProviders + {p};
    }

    /** `get`, up to the choice of a provider: fails when no provider is active, otherwise
        the selector chooses from the active view. The chosen provider's own `get` is not
        part of this model. */
    method Get() returns (r: Result<Provider, GetError>)
      modifies selector.Footprint()
      ensures ActiveProviders() == [] ==> r == Err(NoProvidersAvailable)
      ensures ActiveProviders() != [] ==> r.Ok? && r.value in ActiveProviders()
      ensures r.Ok? ==> r.value in providers && r.value !in excludedProviders
      ensures selector.RoundRobin? && r.Err? ==> selector.cursor.index == old(selector.cursor.index)
      ensures selector.RoundRobin? && r.Ok? ==>
                (Ok(r.value), selector.cursor.index) == RoundRobinStep(ActiveProviders(), old(selector.cursor.index))
    {
      var active := ActiveProviders();
      if |active| == 0 {
        return Err(NoProvidersAvailable);
      }
      var chosen: Result<Provider, SelectError>;
      match selector {
        case Random =>
          chosen := RandomSelect(active);
        case RoundRobin(cursor) =>
          chosen := cursor.SelectProvider(active);
      }
      r := Ok(chosen.value);
      ActiveMembers(providers, excludedProviders, r.value);
    }

    /** check_heartbeats, with `probes[i]` the result of the health check of `providers[i]`:
        the probing loop, then the re-inclusion loop. */
    method CheckHeartbeats(probes: seq<bool>)
      requires Valid() && |probes| == |providers|
      modifies this
      ensures Valid()
      ensures Snapshot() == Sweep(old(Snapshot()), probes)
    {
      ghost var s := Snapshot();
      ProbeAll(probes);
      ProbedDueOnRoster(s, s.roster, probes);
      ReincludeDue();
    }

    /** The probing loop of check_heartbeats: each roster entry in order, with its result. */
    method ProbeAll(probes: seq<bool>)
      requires Valid() && |probes| == |providers|
      modifies this
      ensures Snapshot() == Probed(old(Snapshot()), old(providers), probes)
    {
      ghost var s := Snapshot();
      var roster := providers;
      var i := 0;
      while i < |roster|
        invariant 0 <= i <= |roster| && roster == s.roster
        invariant Snapshot() == Probed(s, roster[..i], probes[..i])
      {
        var p := roster[i];
        if probes[i] {
          if p in excludedProviders {
            reinclusionCounts := reinclusionCounts[p := Count(reinclusionCounts, p) + 1];
          }
        } else {
          ExcludeProvider(p);
          reinclusionCounts := reinclusionCounts[p := 0];
        }
        assert roster[..i + 1][..i] == roster[..i] && probes[..i + 1][..i] == probes[..i];
        i := i + 1;
      }
      assert roster[..i] == roster && probes[..i] == probes;
    }

    /** The re-inclusion loop of check_heartbeats: every counter that has reached the
        threshold is reset and its provider included again. When every provider due is on
        the roster, no inclusion appends. */
    method ReincludeDue()
      requires forall q :: q in Due(reinclusionCounts) ==> q in providers
      modifies this
      ensures Snapshot() == Reincluded(old(Snapshot()))
    {
      ghost var t := Snapshot();
      ghost var due := Due(t.counts);
      var pending := reinclusionCounts.Keys;
      while pending != {}
        invariant pending <= t.counts.Keys
        invariant providers == t.roster
        invariant reinclusionCounts.Keys == t.counts.Keys
        invariant forall q :: q in t.counts ==>
          reinclusionCounts[q] == if q in pending || t.counts[q] < ReinclusionThreshold then t.counts[q] else 0
        invariant excludedProviders == t.excluded - (due - pending)
        decreases pending
      {
        var p :| p in pending;
        if reinclusionCounts[p] >= ReinclusionThreshold {
          reinclusionCounts := reinclusionCounts[p := 0];
          IncludeProvider(p);
        }
        pending := pending - {p};
      }
      assert reinclusionCounts == Reincluded(t).counts;
    }
  }

  /** The round-robin scenario: four providers, nothing excluded, six calls of `get`. */
  method RoundRobinGetScenario(p1: Provider, p2: Provider, p3: Provider, p4: Provider) returns (got: seq<Provider>)
    ensures got == [p1, p2, p3, p4, p1, p2]
  {
    var ps := [p1, p2, p3, p4];
    var created := LoadBalancer.New(ps, RoundRobinSelection);
    var lb := created.value;
    got := [];
    var k := 0;
    while k < 6
      invariant 0 <= k <= 6 && |got| == k
      invariant lb.ActiveProviders() == ps && lb.selector.RoundRobin?
      invariant lb.selector.cursor.index == CursorAfter(ps, k)
      invariant forall j :: 0 <= j < k ==> got[j] == ps[j % 4]
    {
      RoundRobinCycles(ps, k);
      CursorAfterCycles(ps, k + 1);
      var r := lb.Get();
      got := got + [r.value];
      k := k + 1;
    }
    assert 4 % 4 == 0 && 5 % 4 == 1;
  }

  /** The heartbeat scenario: one provider whose check fails once and then succeeds twice;
      the active view before and after each sweep. */
  method HeartbeatSweepScenario(p: Provider) returns (views: seq<seq<Provider>>)
    ensures views == [[p], [], [], [p]]
  {
    var created := LoadBalancer.New([p], RoundRobinSelection);
    var lb := created.value;
    HeartbeatScenario(p);
    views := [lb.ActiveProviders()];
    lb.CheckHeartbeats([false]);
    views := views + [lb.ActiveProviders()];
    lb.CheckHeartbeats([true]);
    views := views + [lb.ActiveProviders()];
    lb.CheckHeartbeats([true]);
    views := views + [lb.ActiveProviders()];
  }
}
