/**
 * What becomes of a value that was set (core/kv.c): flushed and restarted it
 * comes back, unless the entry was dropped or loaded over before it was
 * written; and exactly when a set is written at all.
 */
module KvSurvives {
  import opened Options
  import opened KvCodec
  import opened KvCell
  import opened KvTheorems
  import opened KvRestore

  function RowOf(t: KvType, v: Val): Row
    requires HasType(t, v)
  {
    Row(TypeId(t), Show(t, v))
  }

  /** The value waits in a dirty entry, or is in the row with nothing waiting to be written over it. */
  predicate Holds(c: Cell, t: KvType, v: Val)
    requires HasType(t, v)
  {
    if c.entry.Some? && c.entry.value.dirty then c.entry.value.typ == t && c.entry.value.val == v
    else c.row == Some(RowOf(t, v))
  }

  /** A call that means to change the value, or that meets it unwritten and drops it or loads over it. */
  predicate Disturbs(k: Key, c: Cell, op: Op) {
    || Touches(k, op)
    || (c.entry.Some? && c.entry.value.dirty && ((op == Unregister(k) && k.name != "") || (op.Load? && c.row.Some?)))
  }

  predicate Undisturbed(k: Key, c: Cell, ops: seq<Op>)
    requires CellOk(c)
    decreases |ops|
  {
    |ops| > 0 ==> !Disturbs(k, c, ops[0]) && Undisturbed(k, Step(k, c, true, ops[0]), ops[1..])
  }

  lemma HoldsStep(k: Key, c: Cell, op: Op, t: KvType, v: Val)
    requires CellOk(c) && HasType(t, v) && Holds(c, t, v) && !Disturbs(k, c, op)
    ensures Holds(Step(k, c, true, op), t, v)
  {
  }

  lemma {:induction false} HoldsRun(k: Key, c: Cell, ops: seq<Op>, t: KvType, v: Val)
    requires CellOk(c) && HasType(t, v) && Holds(c, t, v) && Undisturbed(k, c, ops)
    ensures Holds(Run(k, c, true, ops).0, t, v)
    decreases |ops|
  {
    if |ops| > 0 {
      HoldsStep(k, c, ops[0], t, v);
      HoldsRun(k, Step(k, c, true, ops[0]), ops[1..], t, v);
    }
  }

  /** Flush, stop, start, register with any default and load. */
  function Rebooted(k: Key, c: Cell, t: KvType, def: string, owner: int): Cell
    requires CellOk(c)
  {
    Step(k, Step(k, Boot(Step(k, c, true, Flush).row), false, Register(k, t, def, owner)), false, Load)
  }

  lemma HeldIsFlushed(k: Key, c: Cell, t: KvType, v: Val)
    requires CellOk(c) && HasType(t, v) && Holds(c, t, v)
    ensures Step(k, c, true, Flush).row == Some(RowOf(t, v))
  {
  }

  lemma LoadTakesRow(k: Key, c: Cell, t: KvType, r: Row, v: Val)
    requires CellOk(c) && c.entry.Some? && c.entry.value.typ == t && c.row == Some(r) && RowVal(t, r) == Some(v)
    ensures var c' := Step(k, c, false, Load); c'.entry.Some? && c'.entry.value.val == v && c'.row == Some(r)
  {
  }

  lemma RowIsRegistered(k: Key, r: Row, t: KvType, def: string, owner: int)
    requires Parse(t, def).Some?
    ensures var c := Step(k, Boot(Some(r)), false, Register(k, t, def, owner));
      c.entry.Some? && c.entry.value.typ == t && c.row == Some(r)
  {
  }

  lemma RowReads(t: KvType, v: Val)
    requires HasType(t, v)
    ensures RowVal(t, RowOf(t, v)) == Some(v)
  {
    RoundTrip(t, v);
  }

  lemma HeldComesBack(k: Key, c: Cell, t: KvType, v: Val, def: string, owner: int)
    requires CellOk(c) && HasType(t, v) && Holds(c, t, v) && Parse(t, def).Some?
    ensures var c' := Rebooted(k, c, t, def, owner); c'.entry.Some? && c'.entry.value.val == v && c'.row == Some(RowOf(t, v))
  {
    var r := RowOf(t, v);
    HeldIsFlushed(k, c, t, v);
    RowReads(t, v);
    RowIsRegistered(k, r, t, def, owner);
    LoadTakesRow(k, Step(k, Boot(Some(r)), false, Register(k, t, def, owner)), t, r, v);
  }

  /**
   * A set that changes the value, or meets one not yet written. Whatever
   * calls follow, as long as none sets, resets or deletes the key, and none
   * unregisters it or loads over it before it is written, a flush and a
   * restart bring back exactly what was set.
   */
  lemma SetSurvives(k: Key, c: Cell, text: string, ops: seq<Op>, def: string, owner: int)
    requires CellOk(c) && c.entry.Some?
    requires var e := c.entry.value;
      Parse(e.typ, text).Some? && Parse(e.typ, def).Some? && (e.dirty || Parse(e.typ, text).value != e.val)
    requires Undisturbed(k, Step(k, c, true, Set(k, text)), ops)
    ensures var t := c.entry.value.typ;
      var c' := Rebooted(k, Run(k, c, true, [Set(k, text)] + ops).0, t, def, owner);
      c'.entry.Some? && Some(c'.entry.value.val) == Parse(t, text)
  {
    var t := c.entry.value.typ;
    var v, c1 := Parse(t, text).value, Step(k, c, true, Set(k, text));
    assert ([Set(k, text)] + ops)[1..] == ops;
    HoldsRun(k, c1, ops, t, v);
    HeldComesBack(k, Run(k, c1, true, ops).0, t, v, def, owner);
  }

  /** In particular after calls none of which is a load or names the key in a set, reset, delete or unregister. */
  lemma {:induction false} QuietCalls(k: Key, c: Cell, ops: seq<Op>)
    requires CellOk(c) && forall i :: 0 <= i < |ops| ==> !ops[i].Load? && !Touches(k, ops[i]) && ops[i] != Unregister(k)
    ensures Undisturbed(k, c, ops)
    decreases |ops|
  {
    if |ops| > 0 { QuietCalls(k, Step(k, c, true, ops[0]), ops[1..]); }
  }

  /**
   * Right after an accepted set, a flush and a restart bring back what was set
   * exactly when the set had something to write, or the row, or the default
   * where there is none, already said so.
   */
  lemma SetComesBackIff(k: Key, c: Cell, text: string, def: string, owner: int)
    requires CellOk(c) && c.entry.Some?
    requires Parse(c.entry.value.typ, text).Some? && Parse(c.entry.value.typ, def) == Some(c.entry.value.def)
    ensures var e := c.entry.value;
      var v, c' := Parse(e.typ, text).value, Rebooted(k, Step(k, c, true, Set(k, text)), e.typ, def, owner);
      && c'.entry.Some?
      && (c'.entry.value.val == v <==>
          || e.dirty || v != e.val
          || v == if c.row.Some? then OrDefault(Whole(e.typ, c.row.value), e.def) else e.def)
  {
    var e := c.entry.value;
    var v, c1 := Parse(e.typ, text).value, Step(k, c, true, Set(k, text));
    if e.dirty || v != e.val {
      HeldComesBack(k, c1, e.typ, v, def, owner);
    }
  }

  /** A set that is unregistered before it is written is forgotten. */
  lemma UnregisterForgets(k: Key)
    requires k.name != ""
    ensures var c := Cell(Some(Entry(Bool, Flag(false), Flag(false), 7, false)), Some(Row(12, "false")));
      var c1 := Step(k, Step(k, c, true, Set(k, "true")), true, Unregister(k));
      var c2 := Rebooted(k, c1, Bool, "false", 7);
      c2.entry.Some? && c2.entry.value.val == Flag(false)
  {
    assert Parse(Bool, "true") == Some(Flag(true));
    assert "false"[0] == 'f' && Parse(Bool, "false") == Some(Flag(false));
  }
}
