/**
 * Plugins as the loader sees them, what it means for a list of them to be in
 * dependency order, and when no order exists (core/plugin.c).
 */
module PluginGraph {
  import opened Seqs

  /** A loaded plugin: its descriptor's feature lists, whether it is a .so, and where from. */
  datatype Plugin = Plugin(name: string, offers: seq<string>, needs: seq<string>, mapped: bool, path: string)

  ghost predicate Provided(list: seq<Plugin>, feature: string) {
    exists i :: 0 <= i < |list| && feature in list[i].offers
  }

  ghost predicate Met(p: Plugin, before: seq<Plugin>) {
    forall f :: f in p.needs ==> Provided(before, f)
  }

  /** Every required feature has an earlier provider. */
  ghost predicate Resolved(list: seq<Plugin>) {
    forall i {:trigger Met(list[i], list[..i])} :: 0 <= i < |list| ==> Met(list[i], list[..i])
  }

  ghost predicate Permuted(a: seq<Plugin>, b: seq<Plugin>) {
    multiset(a) == multiset(b)
  }

  /** No plugin left over can follow the ones placed. */
  ghost predicate Stuck(list: seq<Plugin>, done: seq<Plugin>) {
    forall p {:trigger Met(p, done)} :: p in list && p !in done ==> !Met(p, done)
  }

  lemma ProvidedMonotone(a: seq<Plugin>, b: seq<Plugin>, f: string)
    requires Provided(a, f) && forall p :: p in a ==> p in b
    ensures Provided(b, f)
  {
    var i :| 0 <= i < |a| && f in a[i].offers;
    assert a[i] in b;
    var j :| 0 <= j < |b| && b[j] == a[i];
  }

  lemma MetMonotone(p: Plugin, a: seq<Plugin>, b: seq<Plugin>)
    requires Met(p, a) && forall q :: q in a ==> q in b
    ensures Met(p, b)
  {
    forall f | f in p.needs ensures Provided(b, f) { ProvidedMonotone(a, b, f); }
  }

  lemma PermutedMembers(a: seq<Plugin>, b: seq<Plugin>)
    requires Permuted(a, b)
    ensures |a| == |b|
    ensures forall p :: p in a <==> p in b
  {
    assert |multiset(a)| == |a| && |multiset(b)| == |b|;
    forall p ensures p in a <==> p in b { assert p in multiset(a) <==> p in multiset(b); }
  }

  /** When the placement loop is stuck with plugins left over, no order of the list satisfies everyone. */
  lemma StuckMeansNoOrder(list: seq<Plugin>, done: seq<Plugin>, order: seq<Plugin>)
    requires Stuck(list, done) && Permuted(list, order)
    requires exists p :: p in list && p !in done
    ensures !Resolved(order)
  {
    PermutedMembers(list, order);
    var p :| p in list && p !in done;
    var k :| 0 <= k < |order| && order[k] == p;
    var m := FirstOutside(order, done, k);
    if Met(order[m], order[..m]) {
      MetMonotone(order[m], order[..m], done);
    }
  }

  lemma {:induction false} FirstOutside(order: seq<Plugin>, done: seq<Plugin>, k: nat) returns (m: nat)
    requires k < |order| && order[k] !in done
    ensures m <= k && order[m] !in done
    ensures forall p :: p in order[..m] ==> p in done
  {
    m := 0;
    while order[m] in done
      invariant m <= k
      invariant forall p :: p in order[..m] ==> p in done
      decreases k - m
    {
      m := m + 1;
    }
  }

  // ---- Cycles -------------------------------------------------------------

  ghost predicate Needs(p: Plugin, q: Plugin) {
    exists f :: f in p.needs && f in q.offers
  }

  /** Position `i` of a chain needs a feature of the plugin after it. */
  ghost predicate Link(c: seq<Plugin>, i: int)
    requires 0 <= i < |c| - 1
  {
    Needs(c[i], c[i + 1])
  }

  ghost predicate Linked(c: seq<Plugin>) {
    |c| > 0 && NoDup(c) && forall i :: 0 <= i < |c| - 1 ==> Link(c, i)
  }

  /** Each member needs a feature of the next, and the last one of the first. */
  ghost predicate Cycle(c: seq<Plugin>) {
    Linked(c) && Needs(c[|c| - 1], c[0])
  }

  /** All of `c` are plugins of the list that were not placed. */
  ghost predicate Leftovers(list: seq<Plugin>, done: seq<Plugin>, c: seq<Plugin>) {
    forall i :: 0 <= i < |c| ==> c[i] in list && c[i] !in done
  }

  lemma CloseCycle(c: seq<Plugin>, k: nat)
    requires Linked(c) && k < |c| && Needs(c[|c| - 1], c[k])
    ensures Cycle(c[k..])
  {
    var d := c[k..];
    forall i | 0 <= i < |d| - 1 ensures Link(d, i) { assert Link(c, k + i); }
  }

  lemma ExtendChain(c: seq<Plugin>, q: Plugin)
    requires Linked(c) && q !in c && Needs(c[|c| - 1], q)
    ensures Linked(c + [q])
  {
    var d := c + [q];
    NoDupSplit(c, [q]);
    forall i | 0 <= i < |d| - 1 ensures Link(d, i) {
      if i < |c| - 1 { assert Link(c, i); }
    }
  }

  ghost predicate ProvidedElsewhere(list: seq<Plugin>, i: nat, f: string) {
    exists j :: 0 <= j < |list| && j != i && f in list[j].offers
  }

  /** Every requirement of the `i`th plugin has some provider other than itself. */
  ghost predicate HasProviders(list: seq<Plugin>, i: nat)
    requires i < |list|
  {
    forall f :: f in list[i].needs ==> ProvidedElsewhere(list, i, f)
  }

  /** resolve_report_failures found nobody missing a provider. */
  ghost predicate AllExist(list: seq<Plugin>, done: seq<Plugin>) {
    forall i {:trigger HasProviders(list, i)} :: 0 <= i < |list| && list[i] !in done ==> HasProviders(list, i)
  }

  lemma NextUnplaced(list: seq<Plugin>, done: seq<Plugin>, p: Plugin) returns (q: Plugin)
    requires Stuck(list, done) && AllExist(list, done) && p in list && p !in done
    ensures q in list && q !in done && Needs(p, q)
  {
    var i :| 0 <= i < |list| && list[i] == p;
    assert !Met(p, done) && HasProviders(list, i);
    var f :| f in p.needs && !Provided(done, f);
    assert ProvidedElsewhere(list, i, f);
    var j :| 0 <= j < |list| && j != i && f in list[j].offers;
    q := list[j];
    assert q !in done;
  }

  /** A stuck loop whose leftovers all have providers has gone round a real cycle of leftovers. */
  lemma {:induction false} StuckMeansCycle(list: seq<Plugin>, done: seq<Plugin>, c: seq<Plugin>) returns (cycle: seq<Plugin>)
    requires Stuck(list, done) && AllExist(list, done) && Linked(c) && Leftovers(list, done, c)
    ensures Cycle(cycle) && Leftovers(list, done, cycle)
    decreases |list| - |c|
  {
    var q := NextUnplaced(list, done, c[|c| - 1]);
    if q in c {
      var k :| 0 <= k < |c| && c[k] == q;
      cycle := c[k..];
      CloseCycle(c, k);
    } else {
      ExtendChain(c, q);
      ChainFits(list, c + [q]);
      cycle := StuckMeansCycle(list, done, c + [q]);
    }
  }

  lemma {:induction false} ChainFits(list: seq<Plugin>, c: seq<Plugin>)
    requires NoDup(c) && forall i :: 0 <= i < |c| ==> c[i] in list
    ensures |c| <= |list|
  {
    if |c| > 0 {
      var n := |c| - 1;
      var k :| 0 <= k < |list| && list[k] == c[n];
      var rest := list[..k] + list[k + 1..];
      forall i | 0 <= i < n ensures c[..n][i] in rest {
        var m :| 0 <= m < |list| && list[m] == c[i];
        assert rest[if m < k then m else m - 1] == c[i];
      }
      ChainFits(rest, c[..n]);
    }
  }
}
