/** What core/kv.c promises about a key and its row, over every run of calls. */
module KvTheorems {
  import opened Options
  import opened KvCodec
  import opened KvCell

  // A row nobody touched

  /** The calls by which a caller means to change the row of `k`. */
  predicate Touches(k: Key, op: Op) { (op.Set? || op.Reset? || op.Delete?) && op.key == k }

  predicate HandsOff(k: Key, ops: seq<Op>) { forall i :: 0 <= i < |ops| ==> !Touches(k, ops[i]) }

  /** The row is as it was, and once loaded no live entry is waiting to be written over it. */
  predicate Kept(c: Cell, loaded: bool, r: Row) {
    c.row == Some(r) && (loaded && c.entry.Some? ==> !c.entry.value.dirty)
  }

  /** The one call that overwrites an untouched row: a reclaim before the load, of a dirty entry that differs. */
  predicate Clobbers(c: Cell, loaded: bool, op: Op)
    requires CellOk(c)
  {
    && !loaded && op.Reclaim? && c.entry.Some? && Owned(c.entry.value, op.lo, op.hi)
    && c.entry.value.dirty && Some(Saved(c.entry.value)) != c.row
  }

  lemma KeptStep(k: Key, c: Cell, loaded: bool, op: Op, r: Row)
    requires CellOk(c) && Kept(c, loaded, r) && !Touches(k, op)
    ensures Kept(Step(k, c, loaded, op), NowLoaded(loaded, op), r) <==> !Clobbers(c, loaded, op)
    ensures Step(k, c, loaded, op).row == Some(r) <==> !Clobbers(c, loaded, op)
  {
  }

  /** The row is `r` now and after every call of the run. */
  predicate RowAlways(k: Key, c: Cell, loaded: bool, ops: seq<Op>, r: Row)
    requires CellOk(c)
    decreases |ops|
  {
    c.row == Some(r) &&
    (|ops| > 0 ==> RowAlways(k, Step(k, c, loaded, ops[0]), NowLoaded(loaded, ops[0]), ops[1..], r))
  }

  predicate NeverClobbers(k: Key, c: Cell, loaded: bool, ops: seq<Op>)
    requires CellOk(c)
    decreases |ops|
  {
    |ops| > 0 ==>
      !Clobbers(c, loaded, ops[0]) &&
      NeverClobbers(k, Step(k, c, loaded, ops[0]), NowLoaded(loaded, ops[0]), ops[1..])
  }

  lemma {:induction false} RowAlwaysIff(k: Key, c: Cell, loaded: bool, ops: seq<Op>, r: Row)
    requires CellOk(c) && Kept(c, loaded, r) && HandsOff(k, ops)
    ensures RowAlways(k, c, loaded, ops, r) <==> NeverClobbers(k, c, loaded, ops)
    decreases |ops|
  {
    if |ops| > 0 {
      assert !Touches(k, ops[0]);
      KeptStep(k, c, loaded, ops[0], r);
      if !Clobbers(c, loaded, ops[0]) {
        RowAlwaysIff(k, Step(k, c, loaded, ops[0]), NowLoaded(loaded, ops[0]), ops[1..], r);
      }
    }
  }

  /**
   * No run of register, load, flush, reclaim, unregister and orphan claim
   * changes an existing row, whatever its type or text, unless it reclaims,
   * before the load, an entry that holds something else.
   */
  lemma UntouchedRowSurvives(k: Key, ops: seq<Op>, r: Row)
    requires HandsOff(k, ops)
    ensures RowAlways(k, Boot(Some(r)), false, ops, r) <==> NeverClobbers(k, Boot(Some(r)), false, ops)
  {
    RowAlwaysIff(k, Boot(Some(r)), false, ops, r);
  }

  /** Every reclaim in the run comes after a load. */
  predicate ReclaimsLoaded(loaded: bool, ops: seq<Op>)
    decreases |ops|
  {
    |ops| > 0 ==> (ops[0].Reclaim? ==> loaded) && ReclaimsLoaded(NowLoaded(loaded, ops[0]), ops[1..])
  }

  /** In particular when every reclaim comes after the load, which a caller can see to. */
  lemma {:induction false} LateReclaimsAreSafe(k: Key, c: Cell, loaded: bool, ops: seq<Op>)
    requires CellOk(c) && ReclaimsLoaded(loaded, ops)
    ensures NeverClobbers(k, c, loaded, ops)
    decreases |ops|
  {
    if |ops| > 0 { LateReclaimsAreSafe(k, Step(k, c, loaded, ops[0]), NowLoaded(loaded, ops[0]), ops[1..]); }
  }

  // Clean entries agree with the database

  /** The row as the load reads it. */
  function Whole(t: KvType, r: Row): Option<Val> { RowVal(t, r) }

  /** The row as a registration after the load reads it, through its buffer. */
  function Cut(t: KvType, r: Row): Option<Val> { RowVal(t, r.(text := Truncate(r.text))) }

  function OrDefault(v: Option<Val>, def: Val): Val { if v.Some? then v.value else def }

  /** The two readings can differ only on a number written in more than 255 bytes. */
  lemma ReadingsAgree(t: KvType, r: Row)
    ensures |r.text| <= STR_MAX || t == Str || t == Bool ==> Whole(t, r) == Cut(t, r)
  {
    assert |"true"| == 4 && |"false"| == 5;
  }

  /**
   * A clean entry holds its default when there is no row, and otherwise one of
   * the two readings of a row that can be read whole.
   */
  predicate Agrees(c: Cell) {
    c.entry.Some? && !c.entry.value.dirty ==>
      var e := c.entry.value;
      && (c.row.None? ==> e.val == e.def)
      && (c.row.Some? && Whole(e.typ, c.row.value).Some? ==>
            || Whole(e.typ, c.row.value) == Some(e.val)
            || e.val == OrDefault(Cut(e.typ, c.row.value), e.def))
  }

  lemma AgreesStep(k: Key, c: Cell, loaded: bool, op: Op)
    requires CellOk(c) && Agrees(c)
    ensures Agrees(Step(k, c, loaded, op))
  {
    if c.entry.Some? && (op.Flush? || op.Reclaim?) { SavedReads(c.entry.value); }
  }

  lemma SavedReads(e: Entry)
    requires EntryOk(e)
    ensures Whole(e.typ, Saved(e)) == Some(e.val) == Cut(e.typ, Saved(e))
  {
    RoundTrip(e.typ, e.val);
    ShowFits(e.typ, e.val);
  }

  /** After any run of calls, whatever the row was, every clean entry agrees with the database. */
  lemma {:induction false} CleanAgrees(k: Key, c: Cell, loaded: bool, ops: seq<Op>)
    requires CellOk(c) && Agrees(c)
    ensures Agrees(Run(k, c, loaded, ops).0)
    decreases |ops|
  {
    if |ops| > 0 {
      AgreesStep(k, c, loaded, ops[0]);
      CleanAgrees(k, Step(k, c, loaded, ops[0]), NowLoaded(loaded, ops[0]), ops[1..]);
    }
  }

  // Reload and restart

  /** A value that lives only in memory: the entry is clean, but its row, read as `v`, says nothing. */
  predicate Stranded(c: Cell, v: Option<Val>) {
    && c.entry.Some? && !c.entry.value.dirty && c.row.Some?
    && v.None? && c.entry.value.val != c.entry.value.def
  }

  /** A clean entry whose row, read as `v`, says something else. */
  predicate Drifted(c: Cell, v: Option<Val>) {
    && c.entry.Some? && !c.entry.value.dirty && c.row.Some?
    && v.Some? && c.entry.value.val != v.value
  }

  /** An entry can only drift where the load and a registration read its row differently. */
  lemma DriftNeedsTwoReadings(c: Cell)
    requires Agrees(c) && c.entry.Some? && c.row.Some?
    requires var t := c.entry.value.typ; Drifted(c, Cut(t, c.row.value)) || Drifted(c, Whole(t, c.row.value))
    ensures Whole(c.entry.value.typ, c.row.value) != Cut(c.entry.value.typ, c.row.value)
  {
  }

  /** The reading of the row of a live entry by a registration; None without a row. */
  function CutOf(c: Cell): Option<Val>
    requires c.entry.Some?
  {
    if c.row.Some? then Cut(c.entry.value.typ, c.row.value) else None
  }

  function WholeOf(c: Cell): Option<Val>
    requires c.entry.Some?
  {
    if c.row.Some? then Whole(c.entry.value.typ, c.row.value) else None
  }

  lemma ReloadCell(k: Key, c: Cell, lo: int, hi: int, text: string)
    requires CellOk(c) && Agrees(c) && c.entry.Some? && Owned(c.entry.value, lo, hi)
    requires Parse(c.entry.value.typ, text) == Some(c.entry.value.def)
    ensures var e := c.entry.value;
      var c' := Step(k, Step(k, c, true, Reclaim(lo, hi)), true, Register(k, e.typ, text, e.owner));
      c'.entry.Some? && c'.entry.value.typ == e.typ && c'.entry.value.def == e.def &&
      (c'.entry.value.val == e.val <==> !Stranded(c, CutOf(c)) && !Drifted(c, CutOf(c)))
  {
    SavedReads(c.entry.value);
  }

  /**
   * Unloading an owner and registering the same declaration again restores
   * the value, exactly when it is neither stranded nor drifted; the latter
   * only happens on a row the load and the registration read differently.
   */
  lemma ReloadRestoresIff(k: Key, row: Option<Row>, ops: seq<Op>, lo: int, hi: int, text: string)
    requires Run(k, Boot(row), false, ops).1 && Run(k, Boot(row), false, ops).0.entry.Some?
    requires var e := Run(k, Boot(row), false, ops).0.entry.value; Owned(e, lo, hi) && Parse(e.typ, text) == Some(e.def)
    ensures
      var c := Run(k, Boot(row), false, ops).0;
      var e := c.entry.value;
      var c' := Step(k, Step(k, c, true, Reclaim(lo, hi)), true, Register(k, e.typ, text, e.owner));
      c'.entry.Some? && c'.entry.value.typ == e.typ && c'.entry.value.def == e.def &&
      (c'.entry.value.val == e.val <==> !Stranded(c, CutOf(c)) && !Drifted(c, CutOf(c)))
    ensures var c := Run(k, Boot(row), false, ops).0; Drifted(c, CutOf(c)) ==> WholeOf(c) != CutOf(c)
  {
    var c := Run(k, Boot(row), false, ops).0;
    CleanAgrees(k, Boot(row), false, ops);
    ReloadCell(k, c, lo, hi, text);
    if Drifted(c, CutOf(c)) { DriftNeedsTwoReadings(c); }
  }

  lemma RestartCell(k: Key, c: Cell, text: string)
    requires CellOk(c) && Agrees(c) && c.entry.Some? && Parse(c.entry.value.typ, text) == Some(c.entry.value.def)
    ensures var e := c.entry.value;
      var boot := Boot(Step(k, c, true, Flush).row);
      var c' := Step(k, Step(k, boot, false, Register(k, e.typ, text, e.owner)), false, Load);
      c'.entry.Some? && (c'.entry.value.val == e.val <==> !Stranded(c, WholeOf(c)) && !Drifted(c, WholeOf(c)))
  {
    SavedReads(c.entry.value);
  }

  /** Flushing, stopping, registering the same declaration and loading: the same, by the load's reading. */
  lemma RestartRestoresIff(k: Key, row: Option<Row>, ops: seq<Op>, text: string)
    requires Run(k, Boot(row), false, ops).1 && Run(k, Boot(row), false, ops).0.entry.Some?
    requires var e := Run(k, Boot(row), false, ops).0.entry.value; Parse(e.typ, text) == Some(e.def)
    ensures
      var c := Run(k, Boot(row), false, ops).0;
      var e := c.entry.value;
      var boot := Boot(Step(k, c, true, Flush).row);
      var c' := Step(k, Step(k, boot, false, Register(k, e.typ, text, e.owner)), false, Load);
      c'.entry.Some? && (c'.entry.value.val == e.val <==> !Stranded(c, WholeOf(c)) && !Drifted(c, WholeOf(c)))
    ensures var c := Run(k, Boot(row), false, ops).0; Drifted(c, WholeOf(c)) ==> WholeOf(c) != CutOf(c)
  {
    var c := Run(k, Boot(row), false, ops).0;
    CleanAgrees(k, Boot(row), false, ops);
    RestartCell(k, c, text);
    if Drifted(c, WholeOf(c)) { DriftNeedsTwoReadings(c); }
  }

  // Reset

  /** The calls after a reset declare the key as it was and never set it. */
  predicate NoNewValue(k: Key, ops: seq<Op>, t: KvType, def: Val) {
    forall i :: 0 <= i < |ops| ==>
      (ops[i].Set? ==> ops[i].key != k) &&
      (ops[i].Register? && ops[i].key == k ==> ops[i].typ == t && Parse(t, ops[i].def) == Some(def))
  }

  predicate AtDefault(c: Cell, t: KvType, def: Val)
    requires HasType(t, def)
  {
    && (c.entry.Some? ==> c.entry.value.typ == t && c.entry.value.val == def && c.entry.value.def == def)
    && (c.row.Some? ==> c.row.value == Row(TypeId(t), Show(t, def)))
  }

  lemma DefaultStep(k: Key, c: Cell, loaded: bool, op: Op, t: KvType, def: Val)
    requires CellOk(c) && HasType(t, def) && AtDefault(c, t, def) && NoNewValue(k, [op], t, def)
    ensures AtDefault(Step(k, c, loaded, op), t, def)
  {
    var row := Row(TypeId(t), Show(t, def));
    DefaultRow(t, def, row);
    assert op == [op][0];
  }

  /** The row a default is saved as reads back as that default, for that type and no other. */
  lemma DefaultRow(t: KvType, def: Val, row: Row)
    requires HasType(t, def) && row == Row(TypeId(t), Show(t, def))
    ensures RowVal(t, row) == Some(def) && row.(text := Truncate(row.text)) == row
    ensures TypeOf(row.typ) == Some(t) && Parse(t, row.text) == Some(def)
  {
    RoundTrip(t, def);
    ShowFits(t, def);
    TypeOfId(t);
  }

  lemma TypeOfId(t: KvType)
    ensures TypeOf(TypeId(t)) == Some(t)
  {
  }

  lemma {:induction false} StaysDefault(k: Key, c: Cell, loaded: bool, ops: seq<Op>, t: KvType, def: Val)
    requires CellOk(c) && HasType(t, def) && AtDefault(c, t, def) && NoNewValue(k, ops, t, def)
    ensures AtDefault(Run(k, c, loaded, ops).0, t, def)
    decreases |ops|
  {
    if |ops| > 0 {
      DefaultStep(k, c, loaded, ops[0], t, def);
      StaysDefault(k, Step(k, c, loaded, ops[0]), NowLoaded(loaded, ops[0]), ops[1..], t, def);
    }
  }

  /**
   * A reset sticks: whatever is flushed, reclaimed, reloaded or registered
   * again afterwards, neither the entry nor the row holds anything but the
   * default until somebody sets the key.
   */
  lemma ResetSticks(k: Key, c: Cell, loaded: bool, ops: seq<Op>)
    requires CellOk(c) && k.name != "" && c.entry.Some? && NoNewValue(k, ops, c.entry.value.typ, c.entry.value.def)
    ensures Step(k, c, loaded, Reset(k)).row.None? && !Step(k, c, loaded, Reset(k)).entry.value.dirty
    ensures AtDefault(Run(k, Step(k, c, loaded, Reset(k)), loaded, ops).0, c.entry.value.typ, c.entry.value.def)
  {
    StaysDefault(k, Step(k, c, loaded, Reset(k)), loaded, ops, c.entry.value.typ, c.entry.value.def);
  }
}
