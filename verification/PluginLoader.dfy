/** The plugin registry changed in place: load, unload, resolve and reload (core/plugin.c). */
module PluginLoader {
  import opened Options
  import opened Seqs
  import opened PluginGraph
  import opened PluginResolve
  import opened PluginReload
  import opened PluginTeardown

  /** find_by_name. */
  function FindByName(list: seq<Plugin>, name: string): (r: Option<Plugin>)
    ensures r.Some? ==> r.value in list && r.value.name == name
    ensures r.None? ==> forall i :: 0 <= i < |list| ==> list[i].name != name
  {
    if list == [] then None
    else if list[0].name == name then Some(list[0])
    else FindByName(list[1..], name)
  }

  lemma FindUnique(list: seq<Plugin>, p: Plugin)
    requires UniqueNames(list) && p in list
    ensures FindByName(list, p.name) == Some(p)
  {
    assert SameName(p, FindByName(list, p.name).value);
  }

  lemma PrependUnique(list: seq<Plugin>, p: Plugin)
    requires FindByName(list, p.name).None?
    ensures UniqueNames(list) ==> UniqueNames([p] + list)
  {
    NoDupSplit([p], list);
    forall q | q in list ensures !SameName(p, q) && !SameName(q, p) && p != q {
      var i :| 0 <= i < |list| && list[i] == q;
    }
  }

  lemma {:induction false} RemoveMultiset<T>(s: seq<T>, x: T)
    requires x in s
    ensures multiset(Remove(s, x)) + multiset{x} == multiset(s)
  {
    assert s == [s[0]] + s[1..];
    if s[0] != x { RemoveMultiset(s[1..], x); }
  }

  lemma RemoveUnique(list: seq<Plugin>, t: Plugin)
    requires UniqueNames(list) && t in list
    ensures UniqueNames(Remove(list, t))
  {
    RemoveMembers(list, t);
  }

  /** A plugin of `whole` still to be loaded back has no namesake in what is loaded. */
  lemma NoNamesake(whole: seq<Plugin>, list: seq<Plugin>, p: Plugin, rest: seq<Plugin>)
    requires UniqueNames(whole) && multiset(list) + multiset([p] + rest) <= multiset(whole)
    ensures forall i :: 0 <= i < |list| ==> list[i].name != p.name
  {
    OneEach(whole, p);
    assert p in multiset([p] + rest);
    assert p in multiset(whole) && p in whole;
    forall i | 0 <= i < |list| ensures list[i].name != p.name {
      assert list[i] in multiset(list);
      assert list[i] in multiset(whole) && list[i] in whole;
      assert list[i] != p by { assert multiset(whole)[p] == 1; }
      assert !SameName(list[i], p);
    }
  }

  lemma {:induction false} OneEach<T>(s: seq<T>, x: T)
    requires NoDup(s)
    ensures multiset(s)[x] <= 1
  {
    if s != [] {
      assert s == [s[0]] + s[1..];
      NoDupSplit([s[0]], s[1..]);
      OneEach(s[1..], x);
    }
  }

  lemma TwiceCounts<T>(s: seq<T>, i: nat, j: nat)
    requires i < j < |s| && s[i] == s[j]
    ensures multiset(s)[s[i]] >= 2
  {
    assert s == s[..j] + [s[j]] + s[j + 1..];
    assert s[..j][i] == s[i] && s[i] in multiset(s[..j]);
  }

  lemma PermutedUnique(a: seq<Plugin>, b: seq<Plugin>)
    requires UniqueNames(a) && Permuted(a, b)
    ensures UniqueNames(b)
  {
    PermutedMembers(a, b);
    forall i, j | 0 <= i < j < |b| ensures b[i] != b[j] {
      OneEach(a, b[i]);
      if b[i] == b[j] { TwiceCounts(b, i, j); }
    }
  }

  /** The dependency check of plugin_unload_locked. */
  method DependedOn(list: seq<Plugin>, t: Plugin) returns (r: bool)
    ensures r <==> Refused(list, t)
  {
    for i := 0 to |list|
      invariant forall k :: 0 <= k < i && list[k] != t ==> !Needs(list[k], t)
    {
      if list[i] != t {
        for m := 0 to |list[i].needs|
          invariant forall k :: 0 <= k < m ==> list[i].needs[k] !in t.offers
        {
          var hit := Offers(t, list[i].needs[m]);
          if hit {
            assert Needs(list[i], t);
            return true;
          }
        }
      }
    }
    return false;
  }

  /** Member `i` does not go down: it refuses, or an earlier member requires it. */
  ghost predicate Stays(out: seq<Plugin>, refusing: set<Plugin>, i: nat)
    requires i < |out|
  {
    out[i] in refusing || Depended(out, i)
  }

  /** Every plugin of a reload closure can be taken down and brought back. */
  ghost predicate CanCycle(out: seq<Plugin>, refusing: set<Plugin>, lost: set<Plugin>) {
    && (forall i :: 0 <= i < |out| ==> !Stays(out, refusing, i))
    && (forall i :: 0 <= i < |out| ==> out[i] !in lost)
  }

  /** What a resolution makes of a list: a dependency order of it if there is one, else the list as it is. */
  ghost predicate ComesOut(before: seq<Plugin>, after: seq<Plugin>) {
    if exists order :: Permuted(before, order) && Resolved(order)
    then Permuted(after, before) && Resolved(after)
    else after == before
  }

  lemma ResolvedComesOut(list: seq<Plugin>)
    requires Resolved(list)
    ensures ComesOut(list, list)
  {
    assert Permuted(list, list);
  }

  /** The registry once a snapshot has been loaded into it, but for the plugins that would not load. */
  function LoadedBack(list: seq<Plugin>, snap: seq<Plugin>, lost: set<Plugin>): seq<Plugin>
    decreases |snap|
  {
    if |snap| == 0 then list
    else LoadedBack(if snap[0] in lost then list else [snap[0]] + list, snap[1..], lost)
  }

  lemma LoadedBackStep(list: seq<Plugin>, snap: seq<Plugin>, i: nat, lost: set<Plugin>)
    requires i < |snap|
    ensures LoadedBack(list, snap[i..], lost) ==
      LoadedBack(if snap[i] in lost then list else [snap[i]] + list, snap[i + 1..], lost)
  {
    assert snap[i..][0] == snap[i] && snap[i..][1..] == snap[i + 1..];
  }

  /** How far down a closure goes: past every member from the end that lets it. */
  ghost function StopsAt(out: seq<Plugin>, refusing: set<Plugin>, n: nat): (left: nat)
    requires n <= |out|
    ensures left <= n && (left > 0 ==> Stays(out, refusing, left - 1))
    ensures forall i :: left <= i < n ==> !Stays(out, refusing, i)
  {
    if n == 0 || Stays(out, refusing, n - 1) then n else StopsAt(out, refusing, n - 1)
  }

  class Loader {
    var plugins: seq<Plugin>

    /** plugin_load_locked, for a .so whose descriptor is well formed; `fails` is dlopen's answer. */
    method Load(p: Plugin, fails: bool) returns (ok: bool)
      modifies this
      ensures ok <==> !fails && FindByName(old(plugins), p.name).None?
      ensures plugins == if ok then [p] + old(plugins) else old(plugins)
      ensures old(UniqueNames(plugins)) ==> UniqueNames(plugins)
    {
      ok := !fails && FindByName(plugins, p.name).None?;
      if ok {
        assert old(UniqueNames(plugins)) ==> UniqueNames([p] + plugins) by { PrependUnique(plugins, p); }
        plugins := [p] + plugins;
      }
    }

    /** plugin_unload_locked; `refuses` stands for a bound bot, a running command, stop() or the audit. */
    method Unload(name: string, refuses: bool) returns (ok: bool)
      requires UniqueNames(plugins)
      modifies this
      ensures UniqueNames(plugins)
      ensures var t := FindByName(old(plugins), name);
        && (ok <==> t.Some? && !Refused(old(plugins), t.value) && !refuses)
        && plugins == if ok then Remove(old(plugins), t.value) else old(plugins)
    {
      var t := FindByName(plugins, name);
      if t.None? { return false; }
      var depended := DependedOn(plugins, t.value);
      if depended { return false; }
      if refuses { return false; }
      RemoveUnique(plugins, t.value);
      plugins := Remove(plugins, t.value);
      return true;
    }

    /** plugin_resolve_locked: relink on success, leave the list alone on failure. */
    method ResolveAll() returns (v: Verdict)
      requires UniqueNames(plugins)
      modifies this
      ensures v.Ordered? <==> exists order :: Permuted(old(plugins), order) && Resolved(order)
      ensures ComesOut(old(plugins), plugins) && UniqueNames(plugins)
    {
      var sorted;
      ghost var done;
      v, sorted, done := Resolve(plugins);
      if v.Ordered? { PermutedUnique(plugins, sorted); }
      plugins := sorted;
    }

    method LoadNext(snap: seq<Plugin>, i: nat, lost: set<Plugin>, all: bool, ghost whole: seq<Plugin>) returns (ok: bool)
      requires UniqueNames(whole) && UniqueNames(plugins) && i < |snap| && Fits(whole, plugins, snap[i..], all)
      modifies this
      ensures UniqueNames(plugins) && (ok <==> snap[i] !in lost)
      ensures Fits(whole, plugins, snap[i + 1..], all && ok)
      ensures plugins == if ok then [snap[i]] + old(plugins) else old(plugins)
    {
      LoadOne(whole, plugins, snap, i, all);
      ok := Load(snap[i], snap[i] in lost);
    }

    /** The loading half of plugin_restore. */
    method LoadAll(snap: seq<Plugin>, lost: set<Plugin>, ghost whole: seq<Plugin>) returns (loaded: nat)
      requires UniqueNames(whole) && UniqueNames(plugins)
      requires multiset(plugins) + multiset(snap) == multiset(whole)
      modifies this
      ensures UniqueNames(plugins) && loaded <= |snap|
      ensures plugins == LoadedBack(old(plugins), snap, lost)
      ensures loaded == 0 ==> plugins == old(plugins)
      ensures loaded == |snap| <==> forall i :: 0 <= i < |snap| ==> snap[i] !in lost
      ensures loaded == |snap| ==> Permuted(plugins, whole)
    {
      loaded := 0;
      for i := 0 to |snap|
        invariant UniqueNames(plugins) && loaded <= i
        invariant LoadedBack(plugins, snap[i..], lost) == LoadedBack(old(plugins), snap, lost)
        invariant loaded == 0 ==> plugins == old(plugins)
        invariant loaded == i <==> forall k :: 0 <= k < i ==> snap[k] !in lost
        invariant Fits(whole, plugins, snap[i..], loaded == i)
      {
        LoadedBackStep(plugins, snap, i, lost);
        var ok := LoadNext(snap, i, lost, loaded == i, whole);
        if ok { loaded := loaded + 1; }
      }
      assert snap[|snap|..] == [];
    }

    /** plugin_restore: load each snapshot in forward order, then resolve once. */
    method Restore(snap: seq<Plugin>, lost: set<Plugin>, ghost whole: seq<Plugin>) returns (loaded: nat)
      requires UniqueNames(whole) && Resolved(whole) && UniqueNames(plugins) && Resolved(plugins)
      requires multiset(plugins) + multiset(snap) == multiset(whole)
      modifies this
      ensures UniqueNames(plugins)
      ensures loaded == |snap| <==> forall i :: 0 <= i < |snap| ==> snap[i] !in lost
      ensures loaded == |snap| ==> Permuted(plugins, whole) && Resolved(plugins)
      ensures ComesOut(LoadedBack(old(plugins), snap, lost), plugins)
    {
      ResolvedComesOut(plugins);
      loaded := LoadAll(snap, lost, whole);
      if loaded > 0 {
        var v := ResolveAll();
        assert loaded == |snap| ==> v.Ordered?;
      }
    }

    /** The last member still up goes down unless an earlier one requires it or it refuses for its own reasons. */
    method TakeOne(out: seq<Plugin>, left: nat, refusing: set<Plugin>, ghost list: seq<Plugin>, ghost have: seq<Plugin>)
      returns (rest: nat)
      requires NoDup(list) && ClosedIn(list, have) && out == Restrict(list, have)
      requires left > 0 && Down(list, out, left, plugins)
      modifies this
      ensures rest == if Stays(out, refusing, left - 1) then left else left - 1
      ensures Down(list, out, rest, plugins)
    {
      DownOne(list, have, left, plugins);
      var ok := Unload(out[left - 1].name, out[left - 1] in refusing);
      rest := if ok then left - 1 else left;
    }

    /** Down in reverse list order, up to the first member that refuses or is refused. */
    method TakeDown(out: seq<Plugin>, refusing: set<Plugin>, ghost have: seq<Plugin>) returns (left: nat)
      requires UniqueNames(plugins) && Resolved(plugins)
      requires ClosedIn(plugins, have) && out == Restrict(plugins, have)
      modifies this
      ensures Down(old(plugins), out, left, plugins)
      ensures left == StopsAt(out, refusing, |out|)
    {
      NothingDown(plugins, have);
      left := TakeRest(out, refusing, plugins, have);
    }

    method TakeRest(out: seq<Plugin>, refusing: set<Plugin>, ghost list: seq<Plugin>, ghost have: seq<Plugin>)
      returns (left: nat)
      requires NoDup(list) && ClosedIn(list, have) && out == Restrict(list, have) && Down(list, out, |out|, plugins)
      modifies this
      ensures Down(list, out, left, plugins)
      ensures left == StopsAt(out, refusing, |out|)
    {
      left := |out|;
      while left > 0
        invariant left <= |out| && Down(list, out, left, plugins)
        invariant StopsAt(out, refusing, left) == StopsAt(out, refusing, |out|)
      {
        var rest := TakeOne(out, left, refusing, list, have);
        if rest == left { return; }
        left := rest;
      }
    }

    /**
     * plugin_reload_locked. It succeeds iff the target is a loadable plugin
     * whose closure fits, has paths, suspends, and has no member that refuses,
     * that an earlier member requires, or that fails to load back. With one
     * provider per feature the dependency refusal never stands in its way.
     * A refusal before anything is taken down leaves the registry alone; past
     * that the registry is what was not taken down and what of the rest loads
     * back, in a dependency order if it has one. When everything loads back it
     * holds the same plugins in a dependency order.
     */
    method Reload(name: string, suspends: bool, refusing: set<Plugin>, lost: set<Plugin>)
      returns (ok: bool, ghost have: seq<Plugin>)
      requires UniqueNames(plugins) && Resolved(plugins)
      modifies this
      ensures UniqueNames(plugins)
      ensures var t := FindByName(old(plugins), name);
        if t.None? then !ok && plugins == old(plugins)
        else LeastClosure(old(plugins), t.value, have) &&
             (ok <==> Reloadable(t.value, Restrict(old(plugins), have), suspends, refusing, lost)) &&
             (OneProvider(old(plugins)) ==> ForwardOnly(Restrict(old(plugins), have))) &&
             (if Startable(t.value, Restrict(old(plugins), have), suspends)
              then Cycled(old(plugins), Restrict(old(plugins), have), refusing, lost, plugins)
              else plugins == old(plugins))
      ensures lost == {} ==> Permuted(plugins, old(plugins)) && Resolved(plugins)
    {
      ghost var list := plugins;
      have := [];
      var t := FindByName(plugins, name);
      if t.None? { return false, have; }
      var out;
      out, have := Closure(plugins, t.value, MAX_CLOSURE);
      if OneProvider(plugins) { ResolvedForwardOnly(plugins, have); }
      if !t.value.mapped || out.None? { return false, have; }
      var whole := true;
      for i := 0 to |out.value|
        invariant plugins == list
        invariant whole <==> forall k :: 0 <= k < i ==> out.value[k].path != ""
      {
        if out.value[i].path == "" { whole := false; }
      }
      if !whole || !suspends { return false, have; }
      ok := CycleClosure(out.value, refusing, lost, have);
    }

    /** The part of a reload past the point where a refusal costs nothing. */
    method CycleClosure(out: seq<Plugin>, refusing: set<Plugin>, lost: set<Plugin>, ghost have: seq<Plugin>) returns (ok: bool)
      requires UniqueNames(plugins) && Resolved(plugins)
      requires ClosedIn(plugins, have) && out == Restrict(plugins, have)
      modifies this
      ensures UniqueNames(plugins)
      ensures ok <==> CanCycle(out, refusing, lost)
      ensures Cycled(old(plugins), out, refusing, lost, plugins)
      ensures lost == {} ==> Permuted(plugins, old(plugins)) && Resolved(plugins)
    {
      ghost var list := plugins;
      var left := TakeDown(out, refusing, have);
      var cycled := Restore(out[left..], lost, list);
      ok := left == 0 && cycled == |out|;
      assert left == 0 ==> out[left..] == out;
    }
  }

  /** What plugin_reload_locked asks of a closure, and nothing else. */
  ghost predicate Reloadable(target: Plugin, out: seq<Plugin>, suspends: bool, refusing: set<Plugin>, lost: set<Plugin>) {
    Startable(target, out, suspends) && CanCycle(out, refusing, lost)
  }

  /** What it asks before anything is taken down. */
  ghost predicate Startable(target: Plugin, out: seq<Plugin>, suspends: bool) {
    && target.mapped && |out| <= MAX_CLOSURE && suspends
    && (forall i :: 0 <= i < |out| ==> out[i].path != "")
  }

  /** `now` is the registry after the closure `out` of `list` went down as far as it does and was put back. */
  ghost predicate Cycled(list: seq<Plugin>, out: seq<Plugin>, refusing: set<Plugin>, lost: set<Plugin>, now: seq<Plugin>) {
    var gone := out[StopsAt(out, refusing, |out|)..];
    ComesOut(LoadedBack(Minus(list, gone), gone, lost), now)
  }

  lemma NothingDown(list: seq<Plugin>, have: seq<Plugin>)
    requires UniqueNames(list) && Resolved(list)
    ensures Down(list, Restrict(list, have), |Restrict(list, have)|, list)
  {
    var out := Restrict(list, have);
    MinusNothing(list);
    assert out[|out|..] == [];
  }

  /** What is loaded and what is still to be loaded make up the registry being put back. */
  ghost predicate Fits(whole: seq<Plugin>, now: seq<Plugin>, rest: seq<Plugin>, all: bool) {
    && multiset(now) + multiset(rest) <= multiset(whole)
    && (all ==> multiset(now) + multiset(rest) == multiset(whole))
  }

  lemma LoadOne(whole: seq<Plugin>, now: seq<Plugin>, snap: seq<Plugin>, i: nat, all: bool)
    requires UniqueNames(whole) && i < |snap| && Fits(whole, now, snap[i..], all)
    ensures FindByName(now, snap[i].name).None?
    ensures Fits(whole, [snap[i]] + now, snap[i + 1..], all) && Fits(whole, now, snap[i + 1..], false)
  {
    assert snap[i..] == [snap[i]] + snap[i + 1..];
    NoNamesake(whole, now, snap[i], snap[i + 1..]);
  }

  /** The members from `left` on are down, and what is left is in dependency order. */
  ghost predicate Down(list: seq<Plugin>, out: seq<Plugin>, left: nat, now: seq<Plugin>) {
    && left <= |out| && UniqueNames(now) && Resolved(now)
    && now == Minus(list, out[left..])
    && multiset(now) + multiset(out[left..]) == multiset(list)
  }

  lemma DownOne(list: seq<Plugin>, have: seq<Plugin>, left: nat, now: seq<Plugin>)
    requires NoDup(list) && ClosedIn(list, have)
    requires left > 0 && Down(list, Restrict(list, have), left, now)
    ensures var out := Restrict(list, have); var t := out[left - 1];
      && FindByName(now, t.name) == Some(t) && (Refused(now, t) <==> Depended(out, left - 1))
      && (!Depended(out, left - 1) ==> Down(list, out, left - 1, Remove(now, t)))
  {
    var out := Restrict(list, have);
    StillThere(list, have, left - 1);
    FindUnique(now, out[left - 1]);
    RemoveUnique(now, out[left - 1]);
    if !Depended(out, left - 1) { TookOne(list, have, left - 1, now); }
  }

  /** The next member to go is still loaded, and refused exactly when an earlier member requires it. */
  lemma StillThere(list: seq<Plugin>, have: seq<Plugin>, i: nat)
    requires NoDup(list) && ClosedIn(list, have) && i < |Restrict(list, have)|
    ensures var out := Restrict(list, have); var now := Minus(list, out[i + 1..]);
      out[i] in now && (Refused(now, out[i]) <==> Depended(out, i))
  {
    var out := Restrict(list, have);
    RestrictMembers(list, have);
    MinusMembers(list, out[i + 1..]);
    assert out[i] in out && out[i] !in out[i + 1..];
    RefusedIff(list, have, i);
  }

  lemma TookOne(list: seq<Plugin>, have: seq<Plugin>, i: nat, now: seq<Plugin>)
    requires NoDup(list) && ClosedIn(list, have) && i < |Restrict(list, have)| && !Depended(Restrict(list, have), i)
    requires Down(list, Restrict(list, have), i + 1, now)
    ensures var out := Restrict(list, have); var next := Remove(now, out[i]);
      next == Minus(list, out[i..]) && Resolved(next) && multiset(next) + multiset(out[i..]) == multiset(list)
  {
    var out := Restrict(list, have);
    StillThere(list, have, i);
    RestrictMembers(list, have);
    TookShape(list, out, i);
    RemoveMultiset(now, out[i]);
    RemoveKeepsResolved(now, out[i]);
  }

  lemma TookShape(list: seq<Plugin>, out: seq<Plugin>, i: nat)
    requires NoDup(list) && NoDup(out) && i < |out|
    ensures Remove(Minus(list, out[i + 1..]), out[i]) == Minus(list, out[i..])
    ensures multiset(out[i..]) == multiset{out[i]} + multiset(out[i + 1..])
  {
    assert out[i] !in out[i + 1..];
    assert out[i..] == [out[i]] + out[i + 1..];
    MinusRemove(list, out[i], out[i + 1..]);
  }
}
