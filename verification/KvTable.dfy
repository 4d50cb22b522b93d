/**
 * The KV registry of core/kv.c in its own form: 64 hash chains updated in
 * place, the loaded flag, and the database table. Each public call is
 * proved to do to every key what the cell model says, and to nothing else.
 */
module KvTable {
  import opened Options
  import opened KvCodec
  import opened KvCell
  import opened Seqs

  const BUCKETS := 64

  datatype Node = Node(key: Key, e: Entry)

  /** util_djb2 in 32-bit arithmetic. */
  function Djb2(s: string): (h: int)
    ensures 0 <= h < 0x1_0000_0000
  {
    if |s| == 0 then 5381
    else (33 * Djb2(s[..|s| - 1]) + s[|s| - 1] as int % 256) % 0x1_0000_0000
  }

  function Hash(k: Key): (b: int)
    ensures 0 <= b < BUCKETS
  {
    Djb2(k.name) % BUCKETS
  }

  // One chain

  predicate Distinct(s: seq<Node>) { forall i, j :: 0 <= i < j < |s| ==> s[i].key != s[j].key }

  function FindIn(s: seq<Node>, k: Key): Option<Entry> {
    if |s| == 0 then None else if s[0].key == k then Some(s[0].e) else FindIn(s[1..], k)
  }

  lemma {:induction false} FindAt(s: seq<Node>, i: nat)
    requires Distinct(s) && i < |s|
    ensures FindIn(s, s[i].key) == Some(s[i].e)
  {
    if i > 0 { FindAt(s[1..], i - 1); }
  }

  lemma {:induction false} FindNone(s: seq<Node>, k: Key)
    ensures FindIn(s, k).None? <==> forall i :: 0 <= i < |s| ==> s[i].key != k
  {
    if |s| > 0 {
      FindNone(s[1..], k);
      assert forall i :: 1 <= i < |s| ==> s[i] == s[1..][i - 1];
    }
  }

  lemma {:induction false} FindConcat(s: seq<Node>, t: seq<Node>, k: Key)
    ensures FindIn(s + t, k) == if FindIn(s, k).Some? then FindIn(s, k) else FindIn(t, k)
  {
    if |s| == 0 {
      assert s + t == t;
    } else {
      assert (s + t)[1..] == s[1..] + t;
      FindConcat(s[1..], t, k);
    }
  }

  lemma FindCons(n: Node, s: seq<Node>, k: Key)
    ensures FindIn([n] + s, k) == if n.key == k then Some(n.e) else FindIn(s, k)
    ensures Distinct([n] + s) <==> Distinct(s) && FindIn(s, n.key).None?
  {
    assert ([n] + s)[1..] == s;
    FindNone(s, n.key);
    assert Distinct([n] + s) ==> forall i :: 0 <= i < |s| ==> s[i] == ([n] + s)[i + 1];
  }

  /** Writing one node's entry changes what its own key finds, and no other. */
  lemma {:induction false} FindUpdate(s: seq<Node>, i: nat, e: Entry, k: Key)
    requires Distinct(s) && i < |s|
    ensures FindIn(s[i := Node(s[i].key, e)], k) == if k == s[i].key then Some(e) else FindIn(s, k)
  {
    if i > 0 {
      FindUpdate(s[1..], i - 1, e, k);
      assert s[i := Node(s[i].key, e)][1..] == s[1..][i - 1 := Node(s[i].key, e)];
    }
  }

  /** Unlinking one node hides its own key, and no other. */
  lemma {:induction false} FindUnlinked(s: seq<Node>, i: nat, k: Key)
    requires Distinct(s) && i < |s|
    ensures FindIn(s[..i] + s[i + 1..], k) == if k == s[i].key then None else FindIn(s, k)
  {
    FindCons(s[0], s[1..], k);
    assert s == [s[0]] + s[1..];
    if i > 0 {
      FindUnlinked(s[1..], i - 1, k);
      FindCons(s[0], s[1..][..i - 1] + s[1..][i..], k);
      assert s[..i] + s[i + 1..] == [s[0]] + (s[1..][..i - 1] + s[1..][i..]);
    } else {
      assert s[..i] + s[i + 1..] == s[1..];
    }
  }

  // The table

  predicate BucketOk(s: seq<Node>, b: int) {
    Distinct(s) && forall i :: 0 <= i < |s| ==> Hash(s[i].key) == b && EntryOk(s[i].e)
  }

  // What a call leaves of a key

  /** A row as a registration reads it: the first 255 bytes, if they are of the type and parse, else the default. */
  function ReadBack(t: KvType, r: Row, def: Val): Val {
    var v := Parse(t, Truncate(r.text));
    if r.typ == TypeId(t) && v.Some? then v.value else def
  }

  /** A live entry with a row takes the row's value if it fits, and is clean; nothing else changes. */
  predicate LoadedFrom(c: Cell, c': Cell) {
    if c.entry.None? || c.row.None? then c' == c
    else
      var e, v := c.entry.value, Parse(c.entry.value.typ, c.row.value.text);
      var fits := c.row.value.typ == TypeId(e.typ) && v.Some?;
      c' == Cell(Some(Entry(e.typ, if fits then v.value else e.val, e.def, e.owner, false)), c.row)
  }

  lemma LoadMeans(k: Key, c: Cell, loaded: bool)
    requires CellOk(c)
    ensures LoadedFrom(c, Step(k, c, loaded, Load))
  {
  }

  /** A dirty entry is written out and clean; nothing else changes. */
  predicate FlushedFrom(c: Cell, c': Cell)
    requires CellOk(c)
  {
    if c.entry.None? || !c.entry.value.dirty then c' == c
    else
      var e := c.entry.value;
      c' == Cell(Some(Entry(e.typ, e.val, e.def, e.owner, false)), Some(Row(TypeId(e.typ), Show(e.typ, e.val))))
  }

  /** An entry whose owner lies in the range is gone, its value written out if it was dirty; nothing else changes. */
  predicate ReclaimedFrom(c: Cell, c': Cell, lo: int, hi: int)
    requires CellOk(c)
  {
    if c.entry.None? || c.entry.value.owner < lo || hi <= c.entry.value.owner then c' == c
    else
      var e := c.entry.value;
      c' == Cell(None, if e.dirty then Some(Row(TypeId(e.typ), Show(e.typ, e.val))) else c.row)
  }

  /** A row without an entry, of a known type that its text parses as, gets one with itself as the default. */
  predicate ClaimedFrom(c: Cell, c': Cell, loaded: bool, owner: int) {
    if c.entry.Some? || c.row.None? || TypeOf(c.row.value.typ).None? then c' == c
    else
      var t := TypeOf(c.row.value.typ).value;
      var v := Parse(t, c.row.value.text);
      if v.None? then c' == c
      else
        c' == Cell(Some(if loaded then Entry(t, ReadBack(t, c.row.value, v.value), v.value, owner, false)
                        else Entry(t, v.value, v.value, owner, true)), c.row)
  }

  class Table {
    const table: array<seq<Node>>
    var db: map<Key, Row>
    var loaded: bool

    ghost predicate Valid()
      reads this, table
    {
      table.Length == BUCKETS && forall b :: 0 <= b < BUCKETS ==> BucketOk(table[b], b)
    }

    constructor (rows: map<Key, Row>)
      ensures Valid() && !loaded && db == rows && fresh(table)
      ensures forall k :: At(k) == Boot(if k in rows then Some(rows[k]) else None)
    {
      table := new seq<Node>[BUCKETS](_ => []);
      db, loaded := rows, false;
    }

    /** The live entry and the row of a key. */
    ghost function At(k: Key): (c: Cell)
      requires Valid()
      reads this, table
      ensures CellOk(c)
    {
      var s := table[Hash(k)];
      FindIsOk(s, k, Hash(k));
      Cell(FindIn(s, k), if k in db then Some(db[k]) else None)
    }

    /** find_locked: walk the chain of the key's bucket. */
    method Find(key: Key) returns (i: int)
      requires Valid()
      ensures i < 0 ==> At(key).entry.None?
      ensures i >= 0 ==> i < |table[Hash(key)]| && table[Hash(key)][i].key == key
      ensures i >= 0 ==> At(key).entry == Some(table[Hash(key)][i].e)
    {
      var s := table[Hash(key)];
      i := 0;
      while i < |s|
        invariant 0 <= i <= |s| && forall j :: 0 <= j < i ==> s[j].key != key
      {
        if s[i].key == key {
          FindAt(s, i);
          return;
        }
        i := i + 1;
      }
      FindNone(s, key);
      i := -1;
    }

    /** Change the entry of one node in place. */
    method Write(b: int, i: int, e: Entry)
      requires Valid() && 0 <= b < BUCKETS && 0 <= i < |table[b]| && EntryOk(e)
      modifies table
      ensures Valid() && table[b] == old(table[b])[i := Node(old(table[b])[i].key, e)]
      ensures forall j :: 0 <= j < BUCKETS && j != b ==> table[j] == old(table[j])
      ensures forall k :: At(k) == if k == old(table[b])[i].key then old(At(k)).(entry := Some(e)) else old(At(k))
    {
      forall k { FindUpdate(table[b], i, e, k); }
      table[b] := table[b][i := Node(table[b][i].key, e)];
    }

    /** Link a new node at the head of its chain. */
    method Link(key: Key, e: Entry)
      requires Valid() && At(key).entry.None? && EntryOk(e)
      modifies table
      ensures Valid()
      ensures forall k :: At(k) == if k == key then old(At(k)).(entry := Some(e)) else old(At(k))
    {
      var b := Hash(key);
      forall k { FindCons(Node(key, e), table[b], k); }
      table[b] := [Node(key, e)] + table[b];
    }

    method Unlink(b: int, i: int)
      requires Valid() && 0 <= b < BUCKETS && 0 <= i < |table[b]|
      modifies table
      ensures Valid() && table[b] == old(table[b])[..i] + old(table[b])[i + 1..]
      ensures forall j :: 0 <= j < BUCKETS && j != b ==> table[j] == old(table[j])
      ensures forall k :: At(k) == if k == old(table[b])[i].key then old(At(k)).(entry := None) else old(At(k))
    {
      forall k { FindUnlinked(table[b], i, k); }
      table[b] := table[b][..i] + table[b][i + 1..];
    }

    /** kv_row_delete. */
    method DropRow(key: Key)
      requires Valid()
      modifies this`db
      ensures Valid() && forall k :: At(k) == if k == key then old(At(k)).(row := None) else old(At(k))
    {
      db := db - {key};
    }

    /** The half of a registration that runs after the load: take the persisted row if it fits. */
    method Rehydrate(key: Key, t: KvType, def: Val, owner: int)
      requires Valid() && loaded && HasType(t, def) && At(key).entry == Some(Entry(t, def, def, owner, true))
      modifies table
      ensures Valid()
      ensures forall k :: k != key ==> At(k) == old(At(k))
      ensures At(key) == old(At(key)).(entry := Some(Registered(old(At(key)).row, true, t, def, owner)))
    {
      if key in db {
        var i := Find(key);
        var row := RowVal(t, db[key].(text := Truncate(db[key].text)));
        Write(Hash(key), i, Entry(t, if row.Some? then row.value else def, def, owner, false));
      }
    }

    /** kv_register_owned. */
    method Register(key: Key, t: KvType, def: string, owner: int) returns (ok: bool)
      requires Valid()
      modifies table
      ensures Valid() && (ok <==> old(At(key)).entry.None? && Parse(t, def).Some?)
      ensures ok ==>
        var v, row := Parse(t, def).value, old(At(key)).row;
        At(key) == Cell(Some(if loaded && row.Some? then Entry(t, ReadBack(t, row.value, v), v, owner, false)
                             else Entry(t, v, v, owner, true)), row)
      ensures !ok ==> At(key) == old(At(key))
      ensures forall k :: k != key ==> At(k) == old(At(k))
      ensures forall k :: At(k) == Step(k, old(At(k)), loaded, KvCell.Register(key, t, def, owner))
    {
      var v := Parse(t, def);
      if v.None? { return false; }
      var i := Find(key);
      if i >= 0 { return false; }
      Link(key, Entry(t, v.value, v.value, owner, true));
      if loaded { Rehydrate(key, t, v.value, owner); }
      ok := true;
    }

    /** kv_set. */
    method Set(key: Key, text: string) returns (ok: bool)
      requires Valid()
      modifies table
      ensures Valid() && (ok <==> old(At(key)).entry.Some? && Parse(old(At(key)).entry.value.typ, text).Some?)
      ensures ok ==>
        var e := old(At(key)).entry.value;
        var v := Parse(e.typ, text).value;
        At(key) == Cell(Some(Entry(e.typ, v, e.def, e.owner, e.dirty || v != e.val)), old(At(key)).row)
      ensures !ok ==> At(key) == old(At(key))
      ensures forall k :: k != key ==> At(k) == old(At(k))
      ensures forall k :: At(k) == Step(k, old(At(k)), loaded, KvCell.Set(key, text))
    {
      var i := Find(key);
      if i < 0 { return false; }
      var e := table[Hash(key)][i].e;
      var v := Parse(e.typ, text);
      if v.None? { return false; }
      ChangedIff(e.typ, v.value, e.val);
      if Show(e.typ, v.value) != Show(e.typ, e.val) { Write(Hash(key), i, e.(val := v.value, dirty := true)); }
      ok := true;
    }

    /** kv_reset. */
    method Reset(key: Key) returns (ok: bool)
      requires Valid()
      modifies this`db, table
      ensures Valid() && (ok <==> key.name != "" && old(At(key)).entry.Some?)
      ensures ok ==>
        var e := old(At(key)).entry.value; At(key) == Cell(Some(Entry(e.typ, e.def, e.def, e.owner, false)), None)
      ensures !ok ==> At(key) == old(At(key))
      ensures forall k :: k != key ==> At(k) == old(At(k))
      ensures forall k :: At(k) == Step(k, old(At(k)), loaded, KvCell.Reset(key))
    {
      if key.name == "" { return false; }
      var i := Find(key);
      if i < 0 { return false; }
      var e := table[Hash(key)][i].e;
      Write(Hash(key), i, e.(val := e.def, dirty := false));
      DropRow(key);
      ok := true;
    }

    /** kv_delete. */
    method Delete(key: Key) returns (found: bool)
      requires Valid()
      modifies this`db, table
      ensures Valid() && (found <==> key.name != "" && old(At(key)).entry.Some?)
      ensures key.name != "" ==> At(key) == Cell(None, None)
      ensures key.name == "" ==> At(key) == old(At(key))
      ensures forall k :: k != key ==> At(k) == old(At(k))
      ensures forall k :: At(k) == Step(k, old(At(k)), loaded, KvCell.Delete(key))
    {
      if key.name == "" { return false; }
      found := Unregister(key);
      DropRow(key);
    }

    /** kv_unregister. */
    method Unregister(key: Key) returns (found: bool)
      requires Valid()
      modifies table
      ensures Valid() && (found <==> key.name != "" && old(At(key)).entry.Some?)
      ensures found ==> At(key) == Cell(None, old(At(key)).row)
      ensures !found ==> At(key) == old(At(key))
      ensures forall k :: k != key ==> At(k) == old(At(k))
      ensures forall k :: At(k) == Step(k, old(At(k)), loaded, KvCell.Unregister(key))
    {
      if key.name == "" { return false; }
      var i := Find(key);
      found := i >= 0;
      if found { Unlink(Hash(key), i); }
    }

    /** load_apply_row. */
    method LoadRow(key: Key)
      requires Valid() && key in db
      modifies table
      ensures Valid() && forall k :: At(k) == if k == key then Step(k, old(At(k)), loaded, Load) else old(At(k))
    {
      var i := Find(key);
      if i >= 0 { Write(Hash(key), i, Loaded(table[Hash(key)][i].e, db[key])); }
    }

    /** kv_load over the rows the database returns. */
    method LoadRows(rows: seq<Key>)
      requires Valid() && NoDup(rows) && forall k :: k in rows <==> k in db
      modifies this`loaded, table
      ensures Valid() && loaded
      ensures forall k :: LoadedFrom(old(At(k)), At(k))
      ensures forall k :: At(k) == Step(k, old(At(k)), old(loaded), Load)
    {
      for n := 0 to |rows|
        invariant Valid() && loaded == old(loaded)
        invariant forall k :: At(k) == if k in rows[..n] then Step(k, old(At(k)), loaded, Load) else old(At(k))
      {
        assert rows[n] !in rows[..n] && rows[..n + 1] == rows[..n] + [rows[n]] && rows[n] in rows;
        LoadRow(rows[n]);
      }
      assert rows[..|rows|] == rows;
      loaded := true;
      forall k { LoadMeans(k, old(At(k)), old(loaded)); }
    }

    /** kv_claim_orphans over the rows the database returns. */
    method Claim(rows: seq<Key>, owner: int)
      requires Valid() && NoDup(rows) && forall k :: k in rows <==> k in db
      modifies table
      ensures Valid()
      ensures forall k :: ClaimedFrom(old(At(k)), At(k), loaded, owner)
      ensures forall k :: At(k) == Step(k, old(At(k)), loaded, ClaimOrphans(owner))
    {
      for n := 0 to |rows|
        invariant Valid()
        invariant forall k :: At(k) == if k in rows[..n] then Step(k, old(At(k)), loaded, ClaimOrphans(owner)) else old(At(k))
      {
        assert rows[n] !in rows[..n] && rows[..n + 1] == rows[..n] + [rows[n]] && rows[n] in rows;
        var t := TypeOf(db[rows[n]].typ);
        if t.Some? {
          var _ := Register(rows[n], t.value, db[rows[n]].text, owner);
        }
      }
      assert rows[..|rows|] == rows;
    }

    /** Persist one dirty entry and mark it clean. */
    method Persist(b: int, i: int)
      requires Valid() && loaded && 0 <= b < BUCKETS && 0 <= i < |table[b]| && table[b][i].e.dirty
      modifies this`db, table
      ensures Valid() && table[b] == old(table[b])[i := Node(old(table[b])[i].key, old(table[b])[i].e.(dirty := false))]
      ensures forall j :: 0 <= j < BUCKETS && j != b ==> table[j] == old(table[j])
      ensures forall k :: At(k) == if k == old(table[b])[i].key then Step(k, old(At(k)), true, Flush) else old(At(k))
    {
      var n := table[b][i];
      FindAt(table[b], i);
      Write(b, i, n.e.(dirty := false));
      db := db[n.key := Saved(n.e)];
    }

    /** Each key is as it was or flushed. */
    twostate predicate Flushing()
      requires old(Valid()) && Valid()
      reads this, table
    {
      forall k :: At(k) == old(At(k)) || At(k) == Step(k, old(At(k)), true, Flush)
    }

    ghost predicate Clean(b: int, upto: int)
      requires Valid() && 0 <= b < BUCKETS
      reads this, table
    {
      forall i :: 0 <= i < |table[b]| && i < upto ==> !table[b][i].e.dirty
    }

    method FlushBucket(b: int)
      requires Valid() && loaded && 0 <= b < BUCKETS
      modifies this`db, table
      ensures Valid() && Flushing() && Clean(b, |table[b]|)
      ensures forall j :: 0 <= j < BUCKETS && j != b ==> table[j] == old(table[j])
    {
      var i := 0;
      while i < |table[b]|
        invariant 0 <= i <= |table[b]| && Valid() && Flushing() && Clean(b, i)
        invariant forall j :: 0 <= j < BUCKETS && j != b ==> table[j] == old(table[j])
        decreases |table[b]| - i
      {
        if table[b][i].e.dirty { Persist(b, i); }
        i := i + 1;
      }
    }

    /** kv_flush: nothing before the load, then every dirty entry of every chain. */
    method FlushAll()
      requires Valid()
      modifies this`db, table
      ensures Valid()
      ensures forall k :: if loaded then FlushedFrom(old(At(k)), At(k)) else At(k) == old(At(k))
      ensures forall k :: At(k) == Step(k, old(At(k)), loaded, Flush)
    {
      if !loaded { return; }
      for b := 0 to BUCKETS
        invariant Valid() && Flushing()
        invariant forall j :: 0 <= j < b ==> Clean(j, |table[j]|)
      {
        FlushBucket(b);
      }
      forall k ensures At(k) == Step(k, old(At(k)), loaded, Flush) {
        var s := table[Hash(k)];
        assert Clean(Hash(k), |s|);
        CleanFind(s, k);
      }
    }

    // Reclaim

    /** Unlinked entries are on the doomed list; every other key is as it was. */
    twostate predicate Reaping(doomed: seq<Node>, lo: int, hi: int)
      requires old(Valid()) && Valid()
      reads this, table
    {
      forall k ::
        var d := FindIn(doomed, k);
        if d.None? then At(k) == old(At(k))
        else old(At(k)).entry == d && Owned(d.value, lo, hi) && At(k) == old(At(k)).(entry := None)
    }

    ghost predicate Spared(b: int, upto: int, lo: int, hi: int)
      requires Valid() && 0 <= b < BUCKETS
      reads this, table
    {
      forall i :: 0 <= i < |table[b]| && i < upto ==> !Owned(table[b][i].e, lo, hi)
    }

    /** Unlink the owned entries of one chain, each pushed on the doomed list. */
    method ReapBucket(b: int, doomed: seq<Node>, lo: int, hi: int) returns (more: seq<Node>, ghost own: seq<Node>)
      requires Valid() && 0 <= b < BUCKETS
      modifies table
      ensures Valid() && Spared(b, |table[b]|, lo, hi)
      ensures forall j :: 0 <= j < BUCKETS && j != b ==> table[j] == old(table[j])
      ensures more == own + doomed && Grave(own) && Reaping(own, lo, hi)
    {
      more, own := doomed, [];
      var i := 0;
      while i < |table[b]|
        invariant 0 <= i <= |table[b]| && Valid() && Spared(b, i, lo, hi)
        invariant forall j :: 0 <= j < BUCKETS && j != b ==> table[j] == old(table[j])
        invariant more == own + doomed && Grave(own) && Reaping(own, lo, hi)
        decreases |table[b]| - i
      {
        var n := table[b][i];
        if Owned(n.e, lo, hi) {
          FindAt(table[b], i);
          assert At(n.key).entry == Some(n.e);
          forall k { FindCons(n, own, k); }
          Unlink(b, i);
          more, own := [n] + more, [n] + own;
        } else {
          i := i + 1;
        }
      }
    }

    /** Write what the doomed entries still owe the database. */
    method Bury(doomed: seq<Node>)
      requires Valid() && Grave(doomed)
      modifies this`db
      ensures Valid() && forall k :: At(k) == Buried(doomed, k, old(At(k)))
    {
      var i := 0;
      while i < |doomed|
        invariant 0 <= i <= |doomed| && Valid()
        invariant forall k :: At(k) == Buried(doomed[..i], k, old(At(k)))
      {
        BuryOne(doomed, i);
        assert doomed[..i + 1] == doomed[..i] + [doomed[i]];
        forall k ensures At(k) == Buried(doomed[..i + 1], k, old(At(k))) { BuriedMore(doomed, i, k, old(At(k))); }
        i := i + 1;
      }
      assert doomed[..i] == doomed;
    }

    method BuryOne(doomed: seq<Node>, i: int)
      requires Valid() && Grave(doomed) && 0 <= i < |doomed|
      modifies this`db
      ensures Valid() && forall k :: At(k) == Written(doomed[i], k, old(At(k)))
    {
      if doomed[i].e.dirty { db := db[doomed[i].key := Saved(doomed[i].e)]; }
    }

    /** kv_reclaim_owned: unlink every entry of the range, then persist the dirty ones. */
    method ReclaimOwned(lo: int, hi: int)
      requires Valid()
      modifies this`db, table
      ensures Valid()
      ensures forall k :: ReclaimedFrom(old(At(k)), At(k), lo, hi)
      ensures forall k :: At(k) == Step(k, old(At(k)), loaded, Reclaim(lo, hi))
    {
      var doomed: seq<Node> := [];
      for b := 0 to BUCKETS
        invariant Valid() && Reaping(doomed, lo, hi) && Grave(doomed)
        invariant forall j :: 0 <= j < b ==> Spared(j, |table[j]|, lo, hi)
      {
        ghost var before, own: seq<Node> := doomed, [];
        doomed, own := ReapBucket(b, doomed, lo, hi);
        forall k { FindConcat(own, before, k); }
        GraveConcat(own, before);
      }
      forall k ensures At(k).entry.Some? ==> !Owned(At(k).entry.value, lo, hi) {
        assert Spared(Hash(k), |table[Hash(k)]|, lo, hi);
        SparedFind(table[Hash(k)], k, lo, hi);
      }
      Bury(doomed);
    }
  }

  /** A list of unlinked entries, one per key. */
  predicate Grave(s: seq<Node>) { Distinct(s) && forall i :: 0 <= i < |s| ==> EntryOk(s[i].e) }

  lemma GraveConcat(s: seq<Node>, t: seq<Node>)
    requires Grave(s) && Grave(t) && forall k :: FindIn(s, k).Some? ==> FindIn(t, k).None?
    ensures Grave(s + t)
  {
    forall i, j | 0 <= i < |s| && 0 <= j < |t| ensures s[i].key != t[j].key {
      FindAt(s, i);
      FindAt(t, j);
    }
  }

  lemma {:induction false} SparedFind(s: seq<Node>, k: Key, lo: int, hi: int)
    requires forall i :: 0 <= i < |s| ==> !Owned(s[i].e, lo, hi)
    ensures FindIn(s, k).Some? ==> !Owned(FindIn(s, k).value, lo, hi)
  {
    if |s| > 0 { SparedFind(s[1..], k, lo, hi); }
  }

  function Written(n: Node, k: Key, c: Cell): Cell
    requires EntryOk(n.e)
  {
    if k == n.key && n.e.dirty then c.(row := Some(Saved(n.e))) else c
  }

  lemma BuriedMore(doomed: seq<Node>, i: int, k: Key, c: Cell)
    requires Grave(doomed) && 0 <= i < |doomed|
    ensures Buried(doomed[..i] + [doomed[i]], k, c) == Written(doomed[i], k, Buried(doomed[..i], k, c))
  {
    FindConcat(doomed[..i], [doomed[i]], k);
    FindNone(doomed[..i], doomed[i].key);
    FindCons(doomed[i], [], k);
    assert [doomed[i]] + [] == [doomed[i]];
  }

  /** A cell after the doomed entries have been written out. */
  function Buried(doomed: seq<Node>, k: Key, c: Cell): Cell {
    var d := FindIn(doomed, k);
    if d.Some? && d.value.dirty && EntryOk(d.value) then c.(row := Some(Saved(d.value))) else c
  }

  lemma {:induction false} CleanFind(s: seq<Node>, k: Key)
    requires forall i :: 0 <= i < |s| ==> !s[i].e.dirty
    ensures FindIn(s, k).Some? ==> !FindIn(s, k).value.dirty
  {
    if |s| > 0 { CleanFind(s[1..], k); }
  }

  lemma {:induction false} FindIsOk(s: seq<Node>, k: Key, b: int)
    requires BucketOk(s, b)
    ensures FindIn(s, k).Some? ==> EntryOk(FindIn(s, k).value)
  {
    if |s| > 0 { FindIsOk(s[1..], k, b); }
  }
}
