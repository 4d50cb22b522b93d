/**
 * Which runs of core/kv.c lose a value over a reload or a restart: exactly
 * those in which the last call to change the key left a clean entry that its
 * row does not say, and how a caller avoids them.
 */
module KvRestore {
  import opened Options
  import opened KvCodec
  import opened KvCell
  import opened KvTheorems

  /** Who reads the row back: the load after a restart, or a registration after a reload. */
  datatype Reader = ByLoad | ByRegistration

  function Read(who: Reader, t: KvType, r: Row): Option<Val> { if who.ByLoad? then Whole(t, r) else Cut(t, r) }

  /** A clean entry that holds something else than its row would bring back. */
  predicate Spoiled(c: Cell, who: Reader) {
    && c.entry.Some? && !c.entry.value.dirty && c.row.Some?
    && c.entry.value.val != OrDefault(Read(who, c.entry.value.typ, c.row.value), c.entry.value.def)
  }

  /** The declaration a call registers at `k`, where there is no entry. */
  function Declares(k: Key, c: Cell, op: Op): Option<(KvType, Val)> {
    if c.entry.Some? then None
    else if op.Register? && op.key == k then
      var v := Parse(op.typ, op.def);
      if v.None? then None else Some((op.typ, v.value))
    else if op.ClaimOrphans? && c.row.Some? then
      var t := TypeOf(c.row.value.typ);
      if t.None? then None
      else
        var v := Parse(t.value, c.row.value.text);
        if v.None? then None else Some((t.value, v.value))
    else None
  }

  /**
   * The calls that leave an entry its row does not say: a load that keeps a
   * value over a row it cannot read, or reads one that a registration reads
   * differently; and a registration after the load that reads a row the load
   * reads differently.
   */
  predicate Spoils(k: Key, c: Cell, loaded: bool, op: Op, who: Reader) {
    c.row.Some? &&
    if op.Load? then
      c.entry.Some? &&
      var e := c.entry.value;
      OrDefault(Whole(e.typ, c.row.value), e.val) != OrDefault(Read(who, e.typ, c.row.value), e.def)
    else
      var d := Declares(k, c, op);
      loaded && d.Some? &&
      OrDefault(Cut(d.value.0, c.row.value), d.value.1) != OrDefault(Read(who, d.value.0, c.row.value), d.value.1)
  }

  /** After a call the entry is spoiled exactly when that call spoils it, or it was and nothing changed. */
  lemma SpoiledStep(k: Key, c: Cell, loaded: bool, op: Op, who: Reader)
    requires CellOk(c)
    ensures Spoiled(Step(k, c, loaded, op), who) <==> Spoils(k, c, loaded, op, who) || (Spoiled(c, who) && Step(k, c, loaded, op) == c)
  {
    if op.Flush? || op.Reclaim? {
      if c.entry.Some? { SavedReads(c.entry.value); }
    } else if op.Register? || op.ClaimOrphans? {
      SpoiledDeclared(k, c, loaded, op, who);
    }
  }

  lemma SpoiledDeclared(k: Key, c: Cell, loaded: bool, op: Op, who: Reader)
    requires CellOk(c) && (op.Register? || op.ClaimOrphans?)
    ensures Spoiled(Step(k, c, loaded, op), who) <==> Spoils(k, c, loaded, op, who) || (Spoiled(c, who) && Step(k, c, loaded, op) == c)
  {
    var d := Declares(k, c, op);
    if d.Some? {
      assert Step(k, c, loaded, op).entry == Some(Registered(c.row, loaded, d.value.0, d.value.1, op.owner));
    } else {
      assert Step(k, c, loaded, op) == c;
    }
  }

  // Over a run

  lemma {:induction false} RunSnoc(k: Key, c: Cell, loaded: bool, ops: seq<Op>, n: nat)
    requires CellOk(c) && n < |ops|
    ensures Run(k, c, loaded, ops[..n + 1]) ==
      var r := Run(k, c, loaded, ops[..n]); (Step(k, r.0, r.1, ops[n]), NowLoaded(r.1, ops[n]))
    decreases n
  {
    var first := ops[..n + 1];
    assert first[0] == ops[0] && first[1..] == ops[1..][..n];
    if n > 0 {
      assert ops[..n][0] == ops[0] && ops[..n][1..] == ops[1..][..n - 1];
      RunSnoc(k, Step(k, c, loaded, ops[0]), NowLoaded(loaded, ops[0]), ops[1..], n - 1);
    }
  }

  /** The cell and the loaded flag before call `i` of the run. */
  function Before(k: Key, row: Option<Row>, ops: seq<Op>, i: nat): (r: (Cell, bool))
    requires i <= |ops|
    ensures CellOk(r.0)
  {
    Run(k, Boot(row), false, ops[..i])
  }

  ghost predicate SpoilsAt(k: Key, row: Option<Row>, ops: seq<Op>, who: Reader, i: nat)
    requires i < |ops|
  {
    var b := Before(k, row, ops, i); Spoils(k, b.0, b.1, ops[i], who)
  }

  /** Call `i` leaves the entry and the row of `k` alone. */
  ghost predicate Idle(k: Key, row: Option<Row>, ops: seq<Op>, i: nat)
    requires i < |ops|
  {
    var b := Before(k, row, ops, i); Step(k, b.0, b.1, ops[i]) == b.0
  }

  /** One of the first `n` calls spoils the entry, and none of them after it changes the key. */
  ghost predicate LeftSpoiled(k: Key, row: Option<Row>, ops: seq<Op>, who: Reader, n: nat)
    requires n <= |ops|
  {
    exists i :: 0 <= i < n && SpoilsAt(k, row, ops, who, i) && forall j :: i < j < n ==> Idle(k, row, ops, j)
  }

  lemma LeftSpoiledStep(k: Key, row: Option<Row>, ops: seq<Op>, who: Reader, n: nat)
    requires n < |ops|
    ensures LeftSpoiled(k, row, ops, who, n + 1) <==>
      SpoilsAt(k, row, ops, who, n) || (LeftSpoiled(k, row, ops, who, n) && Idle(k, row, ops, n))
  {
    if LeftSpoiled(k, row, ops, who, n) && Idle(k, row, ops, n) {
      var i :| 0 <= i < n && SpoilsAt(k, row, ops, who, i) && forall j :: i < j < n ==> Idle(k, row, ops, j);
      assert forall j :: i < j < n + 1 ==> Idle(k, row, ops, j);
    }
  }

  /** After any run, an entry is spoiled exactly when the run left it so. */
  lemma {:induction false} SpoiledIff(k: Key, row: Option<Row>, ops: seq<Op>, who: Reader, n: nat)
    requires n <= |ops|
    ensures Spoiled(Before(k, row, ops, n).0, who) <==> LeftSpoiled(k, row, ops, who, n)
  {
    if n > 0 {
      var b := Before(k, row, ops, n - 1);
      SpoiledIff(k, row, ops, who, n - 1);
      RunSnoc(k, Boot(row), false, ops, n - 1);
      SpoiledStep(k, b.0, b.1, ops[n - 1], who);
      LeftSpoiledStep(k, row, ops, who, n - 1);
    }
  }

  lemma SpoiledMeans(c: Cell)
    requires c.entry.Some?
    ensures Spoiled(c, ByRegistration) <==> Stranded(c, CutOf(c)) || Drifted(c, CutOf(c))
    ensures Spoiled(c, ByLoad) <==> Stranded(c, WholeOf(c)) || Drifted(c, WholeOf(c))
  {
  }

  // Reload and restart

  /** Unload the owner and register the same declaration again. */
  function Reloaded(k: Key, c: Cell, lo: int, hi: int, text: string): Cell
    requires CellOk(c) && c.entry.Some?
  {
    var e := c.entry.value;
    Step(k, Step(k, c, true, Reclaim(lo, hi)), true, Register(k, e.typ, text, e.owner))
  }

  /** Flush, stop, register the same declaration and load. */
  function Restarted(k: Key, c: Cell, text: string): Cell
    requires CellOk(c) && c.entry.Some?
  {
    var e := c.entry.value;
    Step(k, Step(k, Boot(Step(k, c, true, Flush).row), false, Register(k, e.typ, text, e.owner)), false, Load)
  }

  /** `c'` has the value of `c` back. */
  predicate Restored(c: Cell, c': Cell) {
    c.entry.Some? && c'.entry.Some? && c'.entry.value.val == c.entry.value.val
  }

  /** A reload loses a value exactly when the run left it spoiled for the registration that reads it back. */
  lemma ReloadLosesIff(k: Key, row: Option<Row>, ops: seq<Op>, lo: int, hi: int, text: string)
    requires Run(k, Boot(row), false, ops).1 && Run(k, Boot(row), false, ops).0.entry.Some?
    requires var e := Run(k, Boot(row), false, ops).0.entry.value; Owned(e, lo, hi) && Parse(e.typ, text) == Some(e.def)
    ensures var c := Run(k, Boot(row), false, ops).0;
      !Restored(c, Reloaded(k, c, lo, hi, text)) <==> LeftSpoiled(k, row, ops, ByRegistration, |ops|)
  {
    assert ops[..|ops|] == ops;
    ReloadRestoresIff(k, row, ops, lo, hi, text);
    SpoiledMeans(Run(k, Boot(row), false, ops).0);
    SpoiledIff(k, row, ops, ByRegistration, |ops|);
  }

  /** A restart loses a value exactly when the run left it spoiled for the load that reads it back. */
  lemma RestartLosesIff(k: Key, row: Option<Row>, ops: seq<Op>, text: string)
    requires Run(k, Boot(row), false, ops).1 && Run(k, Boot(row), false, ops).0.entry.Some?
    requires var e := Run(k, Boot(row), false, ops).0.entry.value; Parse(e.typ, text) == Some(e.def)
    ensures var c := Run(k, Boot(row), false, ops).0;
      !Restored(c, Restarted(k, c, text)) <==> LeftSpoiled(k, row, ops, ByLoad, |ops|)
  {
    assert ops[..|ops|] == ops;
    RestartRestoresIff(k, row, ops, text);
    SpoiledMeans(Run(k, Boot(row), false, ops).0);
    SpoiledIff(k, row, ops, ByLoad, |ops|);
  }

  // What a caller can see to

  predicate ShortRow(c: Cell) { c.row.Some? ==> |c.row.value.text| <= STR_MAX }

  /** A load that meets a value other than the default over a row it cannot read. */
  predicate LoadStrands(c: Cell, op: Op) {
    && op.Load? && c.entry.Some? && c.row.Some?
    && Whole(c.entry.value.typ, c.row.value).None? && c.entry.value.val != c.entry.value.def
  }

  predicate NeverStrands(k: Key, c: Cell, loaded: bool, ops: seq<Op>)
    requires CellOk(c)
    decreases |ops|
  {
    |ops| > 0 ==>
      !LoadStrands(c, ops[0]) && NeverStrands(k, Step(k, c, loaded, ops[0]), NowLoaded(loaded, ops[0]), ops[1..])
  }

  lemma ShortStep(k: Key, c: Cell, loaded: bool, op: Op)
    requires CellOk(c) && ShortRow(c)
    ensures ShortRow(Step(k, c, loaded, op))
    ensures !LoadStrands(c, op) ==> forall who :: !Spoils(k, c, loaded, op, who)
  {
    if c.entry.Some? { ShowFits(c.entry.value.typ, c.entry.value.val); }
    if c.row.Some? {
      forall t ensures Whole(t, c.row.value) == Cut(t, c.row.value) { ReadingsAgree(t, c.row.value); }
    }
  }

  lemma {:induction false} NeverSpoiled(k: Key, c: Cell, loaded: bool, ops: seq<Op>)
    requires CellOk(c) && ShortRow(c) && (forall who :: !Spoiled(c, who)) && NeverStrands(k, c, loaded, ops)
    ensures forall who :: !Spoiled(Run(k, c, loaded, ops).0, who)
    decreases |ops|
  {
    if |ops| > 0 {
      ShortStep(k, c, loaded, ops[0]);
      forall who ensures !Spoiled(Step(k, c, loaded, ops[0]), who) { SpoiledStep(k, c, loaded, ops[0], who); }
      NeverSpoiled(k, Step(k, c, loaded, ops[0]), NowLoaded(loaded, ops[0]), ops[1..]);
    }
  }

  /**
   * With a row of at most 255 bytes at the start, if no load of the run meets a
   * value other than the default over a row it cannot read, then a reload and
   * a restart both restore the value.
   */
  lemma QuietLoadsRestore(k: Key, row: Option<Row>, ops: seq<Op>, lo: int, hi: int, text: string)
    requires ShortRow(Boot(row)) && NeverStrands(k, Boot(row), false, ops)
    requires Run(k, Boot(row), false, ops).1 && Run(k, Boot(row), false, ops).0.entry.Some?
    requires var e := Run(k, Boot(row), false, ops).0.entry.value; Owned(e, lo, hi) && Parse(e.typ, text) == Some(e.def)
    ensures var c := Run(k, Boot(row), false, ops).0;
      Restored(c, Reloaded(k, c, lo, hi, text)) && Restored(c, Restarted(k, c, text))
  {
    NeverSpoiled(k, Boot(row), false, ops);
    ReloadRestoresIff(k, row, ops, lo, hi, text);
    RestartRestoresIff(k, row, ops, text);
    SpoiledMeans(Run(k, Boot(row), false, ops).0);
  }

  /** No set of `k` comes before a load. */
  predicate SetsAfterLoads(k: Key, ops: seq<Op>) {
    forall i, j :: 0 <= i < j < |ops| && ops[i].Set? && ops[i].key == k ==> !ops[j].Load?
  }

  /** Nobody has set the key: over a row it cannot read an entry has its default. */
  predicate Untried(c: Cell) {
    c.entry.Some? && c.row.Some? && Whole(c.entry.value.typ, c.row.value).None? ==> c.entry.value.val == c.entry.value.def
  }

  lemma UntriedSaved(e: Entry, c: Cell)
    requires EntryOk(e) && c.row == Some(Saved(e)) && (c.entry.Some? ==> c.entry.value.typ == e.typ)
    ensures Untried(c)
  {
    SavedReads(e);
  }

  lemma UntriedRegistered(c: Cell, loaded: bool, t: KvType, def: string, owner: int)
    requires CellOk(c) && ShortRow(c) && Untried(c)
    ensures Untried(RegisterCell(c, loaded, t, def, owner))
  {
    if c.row.Some? { ReadingsAgree(t, c.row.value); }
  }

  lemma UntriedStep(k: Key, c: Cell, loaded: bool, op: Op)
    requires CellOk(c) && ShortRow(c) && Untried(c) && !(op.Set? && op.key == k)
    ensures Untried(Step(k, c, loaded, op)) && !LoadStrands(c, op)
  {
    match op
    case Register(_, t, def, owner) => UntriedRegistered(c, loaded, t, def, owner);
    case ClaimOrphans(owner) =>
      if c.row.Some? && TypeOf(c.row.value.typ).Some? {
        UntriedRegistered(c, loaded, TypeOf(c.row.value.typ).value, c.row.value.text, owner);
      }
    case Flush =>
      if loaded && c.entry.Some? && c.entry.value.dirty { UntriedSaved(c.entry.value, Step(k, c, loaded, op)); }
    case _ =>
  }

  lemma {:induction false} NoLoads(k: Key, c: Cell, loaded: bool, ops: seq<Op>)
    requires CellOk(c) && forall i :: 0 <= i < |ops| ==> !ops[i].Load?
    ensures NeverStrands(k, c, loaded, ops)
    decreases |ops|
  {
    if |ops| > 0 { NoLoads(k, Step(k, c, loaded, ops[0]), NowLoaded(loaded, ops[0]), ops[1..]); }
  }

  /** In particular when every set of the key comes after the last load, which a caller can see to. */
  lemma {:induction false} LateSetsAreSafe(k: Key, c: Cell, loaded: bool, ops: seq<Op>)
    requires CellOk(c) && ShortRow(c) && Untried(c) && SetsAfterLoads(k, ops)
    ensures NeverStrands(k, c, loaded, ops)
    decreases |ops|
  {
    if |ops| > 0 {
      var c', rest := Step(k, c, loaded, ops[0]), ops[1..];
      if ops[0].Set? && ops[0].key == k {
        NoLoads(k, c', NowLoaded(loaded, ops[0]), rest);
      } else {
        ShortStep(k, c, loaded, ops[0]);
        UntriedStep(k, c, loaded, ops[0]);
        LateSetsAreSafe(k, c', NowLoaded(loaded, ops[0]), rest);
      }
    }
  }
}
