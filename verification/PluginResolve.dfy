/**
 * plugin_resolve_locked: place plugins whose requirements are met by the ones
 * already placed until a pass places nobody. The arrays are the source's.
 */
module PluginResolve {
  import opened Seqs
  import opened PluginGraph

  datatype Verdict = Ordered | Missing | Circular

  /** After `n` placements: `done` are the plugins placed, in order. */
  ghost predicate Placement(arr: seq<Plugin>, placed: seq<bool>, order: seq<int>, n: nat, done: seq<Plugin>) {
    && |placed| == |arr| && |order| == |arr| && n == |done| <= |arr|
    && (forall k :: 0 <= k < n ==> 0 <= order[k] < |arr| && arr[order[k]] == done[k])
    && (forall i :: 0 <= i < |arr| ==> (placed[i] <==> arr[i] in done))
    && NoDup(done) && Resolved(done)
  }

  method Offers(p: Plugin, feature: string) returns (r: bool)
    ensures r <==> feature in p.offers
  {
    for k := 0 to |p.offers|
      invariant feature !in p.offers[..k]
    {
      if p.offers[k] == feature { return true; }
    }
    return false;
  }

  /** resolve_feature_in. */
  method FeatureIn(feature: string, arr: seq<Plugin>, order: array<int>, n: nat, ghost done: seq<Plugin>) returns (r: bool)
    requires n == |done| <= order.Length
    requires forall k :: 0 <= k < n ==> 0 <= order[k] < |arr| && arr[order[k]] == done[k]
    ensures r <==> Provided(done, feature)
  {
    for j := 0 to n
      invariant forall k :: 0 <= k < j ==> feature !in done[k].offers
    {
      var hit := Offers(arr[order[j]], feature);
      if hit { return true; }
    }
    return false;
  }

  /** resolve_feature_exists. */
  method FeatureExists(feature: string, arr: seq<Plugin>, skip: nat) returns (r: bool)
    ensures r <==> ProvidedElsewhere(arr, skip, feature)
  {
    for j := 0 to |arr|
      invariant forall k :: 0 <= k < j && k != skip ==> feature !in arr[k].offers
    {
      if j != skip {
        var hit := Offers(arr[j], feature);
        if hit { return true; }
      }
    }
    return false;
  }

  method Satisfied(p: Plugin, arr: seq<Plugin>, order: array<int>, n: nat, ghost done: seq<Plugin>) returns (r: bool)
    requires n == |done| <= order.Length
    requires forall k :: 0 <= k < n ==> 0 <= order[k] < |arr| && arr[order[k]] == done[k]
    ensures r <==> Met(p, done)
  {
    for i := 0 to |p.needs|
      invariant forall f :: f in p.needs[..i] ==> Provided(done, f)
    {
      var hit := FeatureIn(p.needs[i], arr, order, n, done);
      if !hit { return false; }
    }
    assert p.needs[..|p.needs|] == p.needs;
    return true;
  }

  lemma PlaceOne(arr: seq<Plugin>, placed: seq<bool>, order: seq<int>, n: nat, done: seq<Plugin>, i: nat)
    requires NoDup(arr) && Placement(arr, placed, order, n, done) && i < |arr| && !placed[i] && Met(arr[i], done)
    ensures n < |arr|
    ensures Placement(arr, placed[i := true], order[n := i], n + 1, done + [arr[i]])
  {
    var d := done + [arr[i]];
    NoDupSplit(done, [arr[i]]);
    forall k | 0 <= k < |d| ensures d[k] in arr {}
    ChainFits(arr, d);
    forall k | 0 <= k < |d| ensures Met(d[k], d[..k]) {
      if k < n { assert d[..k] == done[..k]; } else { assert d[..k] == done; }
    }
  }

  /** One pass over the plugins; it makes no progress exactly when it leaves the loop stuck. */
  method Pass(arr: seq<Plugin>, placed: array<bool>, order: array<int>, n0: nat, ghost done0: seq<Plugin>)
    returns (n: nat, progress: bool, ghost done: seq<Plugin>)
    requires placed.Length == |arr| && order.Length == |arr| && NoDup(arr)
    requires Placement(arr, placed[..], order[..], n0, done0)
    modifies placed, order
    ensures Placement(arr, placed[..], order[..], n, done)
    ensures progress <==> n > n0
    ensures n >= n0
    ensures !progress ==> Stuck(arr, done)
  {
    n, progress, done := n0, false, done0;
    for i := 0 to |arr|
      invariant n >= n0
      invariant Placement(arr, placed[..], order[..], n, done)
      invariant progress <==> n > n0
      invariant !progress ==> forall k :: 0 <= k < i && arr[k] !in done ==> !Met(arr[k], done)
    {
      if !placed[i] {
        var ok := Satisfied(arr[i], arr, order, n, done);
        if ok {
          PlaceOne(arr, placed[..], order[..], n, done, i);
          order[n] := i;
          placed[i] := true;
          n, progress, done := n + 1, true, done + [arr[i]];
        }
      }
    }
  }

  /** resolve_report_failures: whose requirement nobody else provides, or a cycle. */
  method Report(arr: seq<Plugin>, placed: array<bool>, ghost done: seq<Plugin>) returns (v: Verdict)
    requires placed.Length == |arr|
    requires forall i :: 0 <= i < |arr| ==> (placed[i] <==> arr[i] in done)
    ensures v == if AllExist(arr, done) then Circular else Missing
  {
    var allExist := true;
    for i := 0 to |arr|
      invariant allExist <==> forall k :: 0 <= k < i && arr[k] !in done ==> HasProviders(arr, k)
    {
      if !placed[i] {
        var here := true;
        for r := 0 to |arr[i].needs|
          invariant here <==> forall f :: f in arr[i].needs[..r] ==> ProvidedElsewhere(arr, i, f)
        {
          var found := FeatureExists(arr[i].needs[r], arr, i);
          here := here && found;
        }
        assert arr[i].needs[..|arr[i].needs|] == arr[i].needs;
        allExist := allExist && here;
      }
    }
    v := if allExist then Circular else Missing;
  }

  lemma {:induction false} SameMembers<T>(a: seq<T>, b: seq<T>)
    requires NoDup(a) && |a| == |b| && forall i :: 0 <= i < |a| ==> a[i] in b
    ensures multiset(a) == multiset(b)
  {
    if |a| > 0 {
      var n := |a| - 1;
      var k :| 0 <= k < |b| && b[k] == a[n];
      var rest := b[..k] + b[k + 1..];
      forall i | 0 <= i < n ensures a[..n][i] in rest {
        var m :| 0 <= m < |b| && b[m] == a[i];
        assert rest[if m < k then m else m - 1] == a[i];
      }
      SameMembers(a[..n], rest);
      assert a == a[..n] + [a[n]];
      assert b == b[..k] + [b[k]] + b[k + 1..];
    }
  }

  /** Passes until everybody is placed or a pass places nobody. */
  method PlaceAll(arr: seq<Plugin>) returns (placed: array<bool>, order: array<int>, n: nat, ghost done: seq<Plugin>)
    requires NoDup(arr)
    ensures fresh(placed) && fresh(order)
    ensures Placement(arr, placed[..], order[..], n, done)
    ensures n < |arr| ==> Stuck(arr, done)
  {
    placed := new bool[|arr|](_ => false);
    order := new int[|arr|](_ => 0);
    var progress := true;
    n, done := 0, [];
    while progress && n < |arr|
      invariant Placement(arr, placed[..], order[..], n, done)
      invariant fresh(placed) && fresh(order) && placed.Length == |arr| && order.Length == |arr|
      invariant !progress ==> Stuck(arr, done)
      decreases |arr| - n, progress
    {
      n, progress, done := Pass(arr, placed, order, n, done);
    }
  }

  /**
   * The whole resolution of a registry. It succeeds iff some order of the
   * plugins meets every requirement, and then yields such an order; a missing
   * verdict means exactly that some plugin requires what nobody else provides;
   * a circular one comes with a real cycle among the plugins its own placement
   * `done` left over.
   */
  method Resolve(arr: seq<Plugin>) returns (v: Verdict, sorted: seq<Plugin>, ghost done: seq<Plugin>)
    requires NoDup(arr)
    ensures v.Ordered? <==> exists order :: Permuted(arr, order) && Resolved(order)
    ensures v.Ordered? ==> Permuted(arr, sorted) && Resolved(sorted)
    ensures !v.Ordered? ==> sorted == arr
    ensures v.Ordered? ==> done == sorted
    ensures !v.Ordered? ==> Stuck(arr, done)
    ensures v.Circular? ==> exists cycle :: Cycle(cycle) && Leftovers(arr, done, cycle)
    ensures v.Missing? <==> exists i :: 0 <= i < |arr| && !HasProviders(arr, i)
  {
    var placed, order, n;
    placed, order, n, done := PlaceAll(arr);
    forall i | 0 <= i < |arr| && arr[i] in done ensures HasProviders(arr, i) {
      PlacedHasProviders(arr, placed[..], order[..], n, done, i);
    }
    if n == |arr| {
      sorted := [];
      for i := 0 to n
        invariant sorted == done[..i]
      {
        sorted := sorted + [arr[order[i]]];
      }
      assert sorted == done;
      SameMembers(done, arr);
      PermutedMembers(done, arr);
      v := Ordered;
    } else {
      sorted := arr;
      v := Report(arr, placed, done);
      NotAllPlaced(arr, done);
      forall o | Permuted(arr, o) ensures !Resolved(o) { StuckMeansNoOrder(arr, done, o); }
      if v.Circular? {
        ghost var p :| p in arr && p !in done;
        ghost var cycle := StuckMeansCycle(arr, done, [p]);
      }
    }
  }

  lemma PlacedHasProviders(arr: seq<Plugin>, placed: seq<bool>, order: seq<int>, n: nat, done: seq<Plugin>, i: nat)
    requires Placement(arr, placed, order, n, done) && i < |arr| && arr[i] in done
    ensures HasProviders(arr, i)
  {
    var k :| 0 <= k < |done| && done[k] == arr[i];
    assert Met(done[k], done[..k]);
    forall f | f in arr[i].needs ensures ProvidedElsewhere(arr, i, f) {
      assert Provided(done[..k], f);
      var m :| 0 <= m < k && f in done[..k][m].offers;
      assert arr[order[m]] == done[m] && done[m] != done[k];
    }
  }

  lemma NotAllPlaced(arr: seq<Plugin>, done: seq<Plugin>)
    requires NoDup(arr) && |done| < |arr|
    ensures exists p :: p in arr && p !in done
  {
    if forall p :: p in arr ==> p in done {
      ChainFits(done, arr);
    }
  }
}
