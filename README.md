# Load balancer membership and selection, modelled in Dafny

This project models the routing core of a small asyncio load balancer. It has two parts.

The `LoadBalancer` keeps three pieces of state:

- a roster of providers, in order;
- a set of excluded providers;
- a re-inclusion counter per provider.

From these it derives the *active* view: the roster without the excluded providers, in roster order. `get` hands that view to a provider selector. `check_heartbeats` runs one health sweep with hysteresis. A failed health check excludes the provider and sets its counter to 0. A healthy check on an excluded provider adds one to its counter. After the loop, every provider whose counter has reached 2 gets its counter reset and is included again.

There are two selectors. One makes a random choice. The other is round-robin: a cursor that wraps to 0 when it is out of range and then retries once.

Files:

- `providers.dfy`: module `Providers`, where a provider is an opaque object identity (the provider class defines a hash but no equality, so equality is identity). Module `Results` holds the `Result`/`Outcome` types that stand for raised exceptions.
- `provider_selectors.dfy`: module `ProviderSelectors`. It holds the random choice as a nondeterministic method; the round-robin step as a function; the `RoundRobinSelector` class, whose cursor field the method updates in place and which is proved against that function; and the cycling lemmas.
- `membership.dfy`: module `Membership`, the membership state as values. It defines `Active`, `Include`, `Exclude`, the probing loop (`Probed`), the re-inclusion loop (`Reincluded`) and one sweep (`Sweep`). Its lemmas state what each of these does. A provider's fate in a sweep is reduced to its *standing*: whether it is excluded, and its counter. That standing is folded over that provider's own probe results.
- `load_balancer.dfy`: module `LoadBalancing`. It holds the `LoadBalancer` class, whose fields are updated in place. Each method's `ensures` ties the new state to the matching `Membership` or `ProviderSelectors` function applied to the old state. Two client methods replay the round-robin and heartbeat scenarios of the repository's tests against the class.

`CheckHeartbeats` runs its two loops as two methods, `ProbeAll` and `ReincludeDue`. One sweep's health checks are a parameter: `probes[i]` is the result the check of `providers[i]` returned, one per iteration of the loop. A provider listed twice is therefore checked twice. The invariant `Valid()` says that between calls the roster is non-empty and, when no health check has raised, every counter is below the threshold. `New` establishes it; `Init` is only the step before the roster is set. `CheckHeartbeats` restores it. The other methods do not touch the counters, and they either keep the roster or leave it non-empty. `ProbeAll` and `ReincludeDue` are the two halves of `CheckHeartbeats`, not operations of their own. Between them the counters may stand at 2, as they do in the source between its two loops. Under that invariant every provider due for re-inclusion is on the roster. `CheckHeartbeats` proves this, so in a sweep in which no health check raises, re-inclusion never appends and the roster does not change.

One might expect the roster to hold no duplicates and between 1 and 10 entries, the excluded providers to be drawn from the roster, and a provider to return only after two consecutive healthy checks. The code keeps these only in part, and the model follows the code:

- The roster setter accepts duplicate providers. The model allows them, and `Membership.DuplicateEntriesShortenHysteresis` shows the effect: a provider listed three times whose checks fail, succeed and succeed is active again after that single sweep.
- `include_provider` appends without checking the maximum, so the roster can grow past 10 after construction (`Membership.IncludeEffect`).
- `exclude_provider` accepts providers that are not on the roster.
- `include_provider` does not reset the re-inclusion counter. A provider left excluded with counter 1 by one healthy sweep, then included and excluded by hand, returns after a single healthy sweep (`Membership.ManualIncludeKeepsCounter`).
- The roster setter keeps the exclusions and counters of providers it drops from the roster. This is why `Membership.Sweep` promises only that every counter belongs to a provider that had one before or is on the roster, not that counters exist only for roster members.
- The setter raises `ValueError`, `get` raises `RuntimeError` when nothing is active, and the round-robin selector raises `RuntimeError` on an empty sequence. `random.choice` raises `IndexError` on an empty sequence.
- Health-check exceptions are not caught by `check_heartbeats`, so the model has no "exception counts as failure" path.

## Model

| member | source | states |
|---|---|---|
| `LoadBalancing.CheckRosterSize` | load_balancer/load_balancer.py:28-35 | a roster size is accepted exactly when it is 1..10; more than 10 yields the too-many error, 0 the empty error |
| `LoadBalancing.LoadBalancer.SetProviders` | load_balancer/load_balancer.py:28-36 | the setter fails exactly as `CheckRosterSize` says and leaves the roster unchanged; on success the roster equals the given sequence; exclusion and counters are untouched |
| `LoadBalancing.LoadBalancer.Init` | load_balancer/load_balancer.py:14-18 | the state `__init__` sets up around the setter call: an empty roster, nothing excluded, no counters (lines 14-16), and a fresh selector of the requested kind whose cursor is 0 (line 18) |
| `LoadBalancing.LoadBalancer.New` | load_balancer/load_balancer.py:11-18 | construction fails exactly when the roster size is refused; otherwise the roster and the active view both equal the given sequence, nothing is excluded, and the invariant (non-empty roster, counters below 2) holds |
| `LoadBalancing.LoadBalancer.IncludeProvider` | load_balancer/load_balancer.py:38-44 | the new state is `Membership.Include` of the old one |
| `LoadBalancing.LoadBalancer.ExcludeProvider` | load_balancer/load_balancer.py:46-47 | the new state is `Membership.Exclude` of the old one |
| `LoadBalancing.LoadBalancer.Get` | load_balancer/load_balancer.py:49-54 | with an empty active view it fails and leaves the cursor alone; otherwise it returns an active provider (on the roster and not excluded) and changes nothing but the selector; under round-robin the result and new cursor are those of `RoundRobinStep` on the active view |
| `LoadBalancing.LoadBalancer.CheckHeartbeats` | load_balancer/load_balancer.py:56-68 | the two loops together turn the old state into `Membership.Sweep` of it, and the counter invariant is kept |
| `LoadBalancing.LoadBalancer.ProbeAll` | load_balancer/load_balancer.py:57-64 | the probing loop turns the old state into `Membership.Probed` over the roster and the given results |
| `LoadBalancing.LoadBalancer.ReincludeDue` | load_balancer/load_balancer.py:65-68 | when every provider due is on the roster, the re-inclusion loop turns the old state into `Membership.Reincluded` of it: re-including calls `include_provider` but never appends |
| `LoadBalancing.RoundRobinGetScenario` | load_balancer/tests/test_load_balancer.py:50-68 | four providers under round-robin with nothing excluded: six `get` calls return P1, P2, P3, P4, P1, P2 |
| `LoadBalancing.HeartbeatSweepScenario` | load_balancer/tests/test_load_balancer.py:86-100 | one provider whose check fails, then succeeds twice: the active view is [p], then [], then [], then [p] |
| `ProviderSelectors.RandomSelect` | load_balancer/provider_selectors.py:16-18 | fails exactly on an empty sequence; otherwise returns some element of it |
| `ProviderSelectors.RoundRobinStep` | load_balancer/provider_selectors.py:25-34 | on an empty sequence the call fails and the cursor stays put; otherwise it succeeds, the new cursor lies in 1..N and the result is the element just before it; an in-range cursor advances by one; an out-of-range cursor on a non-empty sequence wraps, giving the first element and cursor 1 |
| `ProviderSelectors.RoundRobinSelector.constructor` | load_balancer/provider_selectors.py:22-23 | a new round-robin selector has cursor 0 |
| `ProviderSelectors.RoundRobinSelector.SelectProvider` | load_balancer/provider_selectors.py:25-34 | an in-range cursor i returns `providers[i]` and becomes i+1; an out-of-range cursor on a non-empty sequence wraps, returns `providers[0]` and becomes 1 after one nested call; an empty sequence fails with the cursor unchanged |
| `ProviderSelectors.CursorAfterCycles` | load_balancer/provider_selectors.py:25-34 | on a fixed non-empty sequence of N providers, a fresh cursor is 0 before the first call and (k-1) mod N + 1 after the k-th |
| `ProviderSelectors.RoundRobinCycles` | load_balancer/provider_selectors.py:25-34 | on a fixed non-empty sequence, call k (counting from 0) of a fresh selector returns `providers[k mod N]` |
| `ProviderSelectors.RoundRobinResultsCycle` | load_balancer/provider_selectors.py:22-34 | each of the first k calls of a fresh selector returns the provider at its call number mod N: the sequence in order, repeated |
| `ProviderSelectors.FourProvidersInTurn` | load_balancer/tests/test_load_balancer.py:50-60 | with four providers, six calls return P1, P2, P3, P4, P1, P2 |
| `Membership.Active` | load_balancer/load_balancer.py:24-26 | the active view is no longer than the roster and holds no excluded provider; `ActiveMembers` gives exact membership and `ActiveIsSubsequence` the roster order |
| `LoadBalancing.LoadBalancer.ActiveProviders` | load_balancer/load_balancer.py:24-26 | the `active_providers` property: a subsequence of the roster (roster order kept) with no excluded provider in it |
| `Membership.Include` | load_balancer/load_balancer.py:38-44 | after include_provider, the old roster is a prefix of the new one, which is at most one entry longer and holds p; p is not excluded, no provider becomes excluded, and the counters are untouched |
| `Membership.Exclude` | load_balancer/load_balancer.py:46-47 | after exclude_provider, roster and counters are untouched, p is excluded, and p is the only provider that may have become excluded |
| `Membership.ActiveMembers` | load_balancer/load_balancer.py:24-26 | a provider is in the active view exactly when it is on the roster and not excluded |
| `Membership.ActiveIsSubsequence` | load_balancer/load_balancer.py:24-26 | the active view is a subsequence of the roster (roster order kept) |
| `Membership.ActiveDependsOnRosterOnly` | load_balancer/load_balancer.py:24-26 | excluding providers not on the roster does not change the active view |
| `Membership.ActiveAppend` | load_balancer/load_balancer.py:24-26 | appending a provider to the roster appends it to the active view unless it is excluded |
| `Membership.ActiveNothingExcluded` | load_balancer/load_balancer.py:24-26 | with nothing excluded the active view is the whole roster |
| `Membership.ActiveExcludeOne` | load_balancer/load_balancer.py:24-26 | excluding a provider removes exactly that provider from the active view, keeping the order of the rest |
| `Membership.IncludeEffect` | load_balancer/load_balancer.py:38-44 | after include, p is on the roster, not excluded and active; the roster is unchanged if p was there and gains p at the end otherwise; a duplicate-free roster stays duplicate-free; no other provider's exclusion and no counter changes |
| `Membership.IncludeNewcomer` | load_balancer/tests/test_load_balancer.py:71-76 | including a provider the roster lacks appends it to the active view |
| `Membership.IncludeActiveIsNoOp` | load_balancer/load_balancer.py:38-44 | including an already active provider leaves the state unchanged |
| `Membership.IncludeIdempotent` | load_balancer/load_balancer.py:38-44 | including twice has the effect of including once |
| `Membership.ExcludeEffect` | load_balancer/load_balancer.py:46-47 | after exclude, the roster and counters are unchanged, p is excluded and inactive, the active view is the old one without p, and every other provider keeps its activity |
| `Membership.ExcludeIdempotent` | load_balancer/load_balancer.py:46-47 | excluding twice has the effect of excluding once |
| `Membership.ProbeStep` | load_balancer/load_balancer.py:59-64 | one iteration of the probing loop moves p's standing (excluded?, counter) by `StandingStep` (failure: excluded with 0; healthy and excluded: counter plus 1; healthy and active: unchanged), keeps every other provider's standing and the roster, and gives a counter to no provider but p |
| `Membership.Probed` | load_balancer/load_balancer.py:57-64 | the probing loop over the visited providers keeps the roster and gives counters only to providers that had one or were visited |
| `Membership.Reincluded` | load_balancer/load_balancer.py:65-68 | when every due provider is on the roster, the re-inclusion loop keeps the roster and the set of counted providers, leaves every counter below 2, makes every due provider non-excluded, and keeps every other exclusion |
| `Membership.RaisingCheckLeavesCounterDue` | load_balancer/load_balancer.py:57-61 | when a later check in the sweep raises, a provider whose healthy check took its counter to 2 is left excluded and due, with its counter at the threshold |
| `Membership.Sweep` | load_balancer/load_balancer.py:56-68 | a sweep keeps the roster, leaves every counter below the threshold, and creates counters only for roster members |
| `Membership.ProbedStanding` | load_balancer/load_balancer.py:57-64 | after the probing loop, whether a provider is excluded and its counter depend only on its previous standing and its own probe results, in visiting order |
| `Membership.ProbedDueOnRoster` | load_balancer/load_balancer.py:57-66 | from counters below the threshold, every counter that reaches the threshold in the probing loop belongs to a visited provider |
| `Membership.ReincludedStanding` | load_balancer/load_balancer.py:65-68 | the re-inclusion loop makes a provider whose counter reached 2 active with counter 0 and leaves every other provider's standing unchanged |
| `Membership.SweepStanding` | load_balancer/load_balancer.py:56-68 | a provider's standing after a sweep is its probe results tracked from its old standing, then settled by re-inclusion |
| `Membership.SweepLastProbeFails` | load_balancer/load_balancer.py:62-68 | a provider whose last check in the sweep fails ends the sweep excluded, inactive and with counter 0 |
| `Membership.SweepProbeFails` | load_balancer/load_balancer.py:62-68 | on a duplicate-free roster, a failed check leaves its provider excluded, inactive and with counter 0 at the end of the sweep |
| `Membership.SweepHysteresis` | load_balancer/load_balancer.py:59-68 | for a provider listed once: a failed check means excluded with counter 0; a healthy active provider keeps its counter; a healthy excluded one goes from counter 0 to excluded with 1, and from 1 to active with 0 |
| `Membership.TwoHealthySweepsReinclude` | load_balancer/load_balancer.py:59-68 | an excluded provider with counter 0, listed once, is still inactive after one sweep and is active after a second exactly when both checks succeeded |
| `Membership.SweepHealthyActiveUnchanged` | load_balancer/load_balancer.py:59-61 | a non-excluded provider whose checks all succeed stays non-excluded with its counter unchanged |
| `Membership.DuplicateEntriesShortenHysteresis` | load_balancer/load_balancer.py:57-68 | a provider listed three times whose checks fail, succeed, succeed is active again after that one sweep |
| `Membership.ManualIncludeKeepsCounter` | load_balancer/load_balancer.py:38-47 | because including does not reset the counter, a provider left at counter 1, then included and excluded by hand, is inactive with all counters below 2 and is active again after one healthy sweep |
| `Membership.HeartbeatScenario` | load_balancer/tests/test_load_balancer.py:86-100 | one provider: active, then inactive after a failed sweep, still inactive after one healthy sweep, active after the second |

## Left out

- Async and concurrency: the awaits on `provider.check()` and on the chosen provider's `get`, and anything other tasks do during them, are not modelled. A sweep is one sequential loop over given check results.
- The chosen provider's own `get` (load_balancer/load_balancer.py:52-54) is collaborator code. `Get` returns the chosen provider instead of that provider's response.
- `LoadBalancing.LoadBalancer.Get`: with the random selector it states only that the result is active, not which active provider is chosen.
- `ProviderSelectors.RandomSelect`: states only that an element is returned, not the uniform distribution or the seeding of `random.choice`; the seed-dependent sequence in the tests is therefore not modelled.
- Aliasing: the `providers` getter returns the internal list itself, so a caller could mutate the roster through it. In the model the roster is a sequence value, read as the `providers` field; the setter's copy (`list(value)`) is a value assignment, so the balancer never shares the caller's sequence.
- The order in which the re-inclusion loop visits the counters (dictionary insertion order) is left arbitrary. When no health check has raised, the resulting state does not depend on it, because every provider that is due is already on the roster.
- Exceptions raised by a provider's health check propagate out of `check_heartbeats` in the source (load_balancer/load_balancer.py:58). They are not modelled, and neither is their absorption. One consequence is outside the model. A check that raises ends the probing loop before the re-inclusion loop runs, so a counter can stay at 2 (`Membership.RaisingCheckLeavesCounterDue`). If the roster setter then drops that provider, the next sweep re-includes it by appending it to the roster; with several such providers, they are appended in the counters' insertion order. `CheckHeartbeats`, `Sweep` and `Reincluded` assume that no check raised, which is why they keep the roster.
- The capacity gate (`CapacityExceeded`), `heartbeat_loop` and `HEARTBEAT_INTERVAL_SECONDS` are used by the tests but are not implemented in load_balancer/load_balancer.py. The `exceptions` module is not part of this model.
- load_balancer/provider.py (uuid generation, the constant healthy check, the hash) is represented only by the opaque `Provider` identity.
- Visibility: Dafny has no private members, so `Init`, `ProbeAll` and `ReincludeDue` can be called on their own. Called that way, they reach states the Python object never shows between calls: an empty roster after `Init`, or counters at 2 after `ProbeAll`. Only `New` and `CheckHeartbeats` promise `Valid()`.
