/** The two selection strategies: a random choice and a round-robin cursor. */
module ProviderSelectors {
  import opened Providers
  import opened Results

  /** What a selector raises when handed an empty sequence. */
  datatype SelectError =
    | RegistryEmpty    // RuntimeError raised by the round-robin selector
    | ChoiceFromEmpty  // IndexError raised by the random choice

  /** The random selector: some element of the sequence it is given. Which element (the
      distribution and the seed of the random source) is left open. */
  method RandomSelect(providers: seq<Provider>) returns (r: Result<Provider, SelectError>)
    ensures providers == [] <==> r.Err?
    ensures r.Err? ==> r.error == ChoiceFromEmpty
    ensures r.Ok? ==> r.value in providers
  {
    if providers == [] {
      return Err(ChoiceFromEmpty);
    }
    var i :| 0 <= i < |providers|;
    r := Ok(providers[i]);
  }

  /** One round-robin call with the cursor at `index`: the result and the new cursor.
      An out-of-range cursor wraps to 0 and the call is retried once. */
  function RoundRobinStep(providers: seq<Provider>, index: nat): (out: (Result<Provider, SelectError>, nat))
    ensures providers == [] ==> out == (Err(RegistryEmpty), index)
    ensures providers != [] ==> out.0.Ok? && 1 <= out.1 <= |providers|
    ensures providers != [] ==> out.0.value == providers[out.1 - 1]
    ensures index < |providers| ==> out.1 == index + 1
    ensures providers != [] && |providers| <= index ==> out == (Ok(providers[0]), 1)
  {
    if index < |providers| then (Ok(providers[index]), index + 1)
    else if providers == [] then (Err(RegistryEmpty), index)
    else (Ok(providers[0]), 1)
  }

  /** The round-robin selector: a cursor into whatever sequence the next call is given. */
  class RoundRobinSelector {
    var index: nat

    constructor ()
      ensures index == 0
    {
      index := 0;
    }

    method SelectProvider(providers: seq<Provider>) returns (r: Result<Provider, SelectError>)
      modifies this
      decreases if index < |providers| then 0 else 1
      ensures (r, index) == RoundRobinStep(providers, old(index))
      ensures old(index) < |providers| ==> r == Ok(providers[old(index)]) && index == old(index) + 1
      ensures providers != [] && |providers| <= old(index) ==> r == Ok(providers[0]) && index == 1
      ensures providers == [] ==> r == Err(RegistryEmpty) && index == old(index)
    {
      if index < |providers| {
        r := Ok(providers[index]);
        index := index + 1;
      } else {
        if providers == [] {
          return Err(RegistryEmpty);
        }
        index := 0;
        r := SelectProvider(providers);
      }
    }
  }

  /** The cursor of a fresh selector after `k` calls on the same sequence. */
  function CursorAfter(providers: seq<Provider>, k: nat): nat
  {
    if k == 0 then 0 else RoundRobinStep(providers, CursorAfter(providers, k - 1)).1
  }

  /** The results of the first `k` calls of a fresh selector on the same sequence. */
  function RoundRobinResults(providers: seq<Provider>, k: nat): (rs: seq<Result<Provider, SelectError>>)
    ensures |rs| == k
  {
    if k == 0 then []
    else RoundRobinResults(providers, k - 1) + [RoundRobinStep(providers, CursorAfter(providers, k - 1)).0]
  }

  lemma MulBound(d: int, n: int)
    requires n > 0 && -n < d * n < n
    ensures d == 0
  {
  }

  lemma ModUnique(k: int, n: int, q: int, r: int)
    requires n > 0 && 0 <= r < n && k == q * n + r
    ensures k % n == r
  {
    var q', r' := k / n, k % n;
    assert k == q' * n + r';
    assert (q - q') * n == q * n - q' * n;
    MulBound(q - q', n);
  }

  lemma ModSuccessor(k: nat, n: nat)
    requires n > 0
    ensures (k + 1) % n == if k % n == n - 1 then 0 else k % n + 1
  {
    var q, r := k / n, k % n;
    assert k == q * n + r;
    if r == n - 1 {
      assert k + 1 == (q + 1) * n + 0;
      ModUnique(k + 1, n, q + 1, 0);
    } else {
      ModUnique(k + 1, n, q, r + 1);
    }
  }

  /** On a fixed non-empty sequence, a fresh selector's cursor is 0 before the first call
      and `(k - 1) % N + 1` after the k-th. */
  lemma {:induction false} CursorAfterCycles(providers: seq<Provider>, k: nat)
    requires providers != []
    ensures CursorAfter(providers, k) == if k == 0 then 0 else (k - 1) % |providers| + 1
  {
    var n := |providers|;
    if k == 1 {
      assert CursorAfter(providers, 0) == 0;
      assert 0 % n == 0;
    } else if k > 1 {
      CursorAfterCycles(providers, k - 1);
      ModSuccessor(k - 2, n);
      var c := CursorAfter(providers, k - 1);
      assert CursorAfter(providers, k) == RoundRobinStep(providers, c).1;
    }
  }

  /** Call number k (from 0) of a fresh selector on a fixed non-empty sequence returns
      `providers[k % N]`. */
  lemma RoundRobinCycles(providers: seq<Provider>, k: nat)
    requires providers != []
    ensures RoundRobinStep(providers, CursorAfter(providers, k)).0 == Ok(providers[k % |providers|])
  {
    var n := |providers|;
    CursorAfterCycles(providers, k);
    var c := CursorAfter(providers, k);
    if k == 0 {
      assert 0 % n == 0;
    } else {
      ModSuccessor(k - 1, n);
      if c < n {
        assert RoundRobinStep(providers, c).0 == Ok(providers[c]);
      }
    }
  }

  /** Every one of the first `k` calls on a fixed non-empty sequence returns the provider
      at the call's number modulo the sequence length: the sequence in order, then again. */
  lemma {:induction false} RoundRobinResultsCycle(providers: seq<Provider>, k: nat)
    requires providers != []
    ensures forall i :: 0 <= i < k ==> RoundRobinResults(providers, k)[i] == Ok(providers[i % |providers|])
  {
    if k > 0 {
      RoundRobinResultsCycle(providers, k - 1);
      RoundRobinCycles(providers, k - 1);
    }
  }

  /** Four providers served in turn by six calls. */
  lemma FourProvidersInTurn(p1: Provider, p2: Provider, p3: Provider, p4: Provider)
    ensures RoundRobinResults([p1, p2, p3, p4], 6) == [Ok(p1), Ok(p2), Ok(p3), Ok(p4), Ok(p1), Ok(p2)]
  {
    var ps := [p1, p2, p3, p4];
    RoundRobinResultsCycle(ps, 6);
    assert 4 % 4 == 0 && 5 % 4 == 1;
  }
}
