/**
 * What each public call of core/kv.c does to one key: the key's live entry,
 * if any, and its database row, if any. Every call is atomic and database
 * operations succeed. The table methods are proved against these cells, and
 * the persistence guarantees are theorems about runs of them.
 */
module KvCell {
  import opened Options
  import opened KvCodec

  datatype Key = Key(name: string)
  datatype Entry = Entry(typ: KvType, val: Val, def: Val, owner: int, dirty: bool)
  datatype Row = Row(typ: int, text: string)
  datatype Cell = Cell(entry: Option<Entry>, row: Option<Row>)

  datatype Op =
    | Register(key: Key, typ: KvType, def: string, owner: int)
    | Set(key: Key, text: string)
    | Load
    | Flush
    | Reset(key: Key)
    | Delete(key: Key)
    | Unregister(key: Key)
    | Reclaim(lo: int, hi: int)
    | ClaimOrphans(owner: int)

  /** The enumeration value stored in a row's type column. */
  function TypeId(t: KvType): int {
    match t
    case Int8 => 0 case UInt8 => 1 case Int16 => 2 case UInt16 => 3
    case Int32 => 4 case UInt32 => 5 case Int64 => 6 case UInt64 => 7
    case Str => 11 case Bool => 12
  }

  function TypeOf(id: int): (t: Option<KvType>)
    ensures t.Some? ==> TypeId(t.value) == id
    ensures t.None? ==> forall u :: TypeId(u) != id
  {
    if id == 0 then Some(Int8) else if id == 1 then Some(UInt8)
    else if id == 2 then Some(Int16) else if id == 3 then Some(UInt16)
    else if id == 4 then Some(Int32) else if id == 5 then Some(UInt32)
    else if id == 6 then Some(Int64) else if id == 7 then Some(UInt64)
    else if id == 11 then Some(Str) else if id == 12 then Some(Bool) else None
  }

  predicate EntryOk(e: Entry) { HasType(e.typ, e.val) && HasType(e.typ, e.def) }

  predicate CellOk(c: Cell) { c.entry.Some? ==> EntryOk(c.entry.value) }

  /** What the row says for a declaration of type `t`: None when the type differs or the text does not parse. */
  function RowVal(t: KvType, r: Row): (v: Option<Val>)
    ensures v.Some? ==> HasType(t, v.value)
  {
    if r.typ == TypeId(t) then Parse(t, r.text) else None
  }

  /** persist_entry. */
  function Saved(e: Entry): Row
    requires EntryOk(e)
  {
    Row(TypeId(e.typ), Show(e.typ, e.val))
  }

  /** kv_register_owned for a key with no live entry. A row is read back through a 256-byte buffer. */
  function Registered(row: Option<Row>, loaded: bool, t: KvType, def: Val, owner: int): (e: Entry)
    requires HasType(t, def)
    ensures EntryOk(e) && e.typ == t && e.def == def && e.owner == owner
    ensures e.dirty <==> row.None? || !loaded
    ensures e.val != def ==> !e.dirty && RowVal(t, row.value.(text := Truncate(row.value.text))) == Some(e.val)
  {
    if !loaded || row.None? then Entry(t, def, def, owner, true)
    else
      var v := RowVal(t, row.value.(text := Truncate(row.value.text)));
      Entry(t, if v.Some? then v.value else def, def, owner, false)
  }

  /** apply_val: only a changed value dirties the entry. */
  function Assigned(e: Entry, v: Val): Entry { if v != e.val then e.(val := v, dirty := true) else e }

  /** load_apply_row: a row the declaration cannot take leaves the value, and the entry clean. */
  function Loaded(e: Entry, r: Row): Entry {
    var v := RowVal(e.typ, r);
    e.(val := if v.Some? then v.value else e.val, dirty := false)
  }

  function RegisterCell(c: Cell, loaded: bool, t: KvType, def: string, owner: int): Cell {
    var v := Parse(t, def);
    if c.entry.Some? || v.None? then c else c.(entry := Some(Registered(c.row, loaded, t, v.value, owner)))
  }

  predicate Owned(e: Entry, lo: int, hi: int) { lo <= e.owner < hi }

  /** One call, seen at the key `k`. */
  function Step(k: Key, c: Cell, loaded: bool, op: Op): (c': Cell)
    requires CellOk(c)
    ensures CellOk(c')
  {
    match op
    case Register(key, t, def, owner) => if key == k then RegisterCell(c, loaded, t, def, owner) else c
    case Set(key, text) =>
      if key != k || c.entry.None? then c
      else
        var v := Parse(c.entry.value.typ, text);
        if v.None? then c else c.(entry := Some(Assigned(c.entry.value, v.value)))
    case Load =>
      if c.entry.Some? && c.row.Some? then c.(entry := Some(Loaded(c.entry.value, c.row.value))) else c
    case Flush =>
      if loaded && c.entry.Some? && c.entry.value.dirty then
        Cell(Some(c.entry.value.(dirty := false)), Some(Saved(c.entry.value)))
      else c
    case Reset(key) =>
      if key != k || key.name == "" || c.entry.None? then c
      else Cell(Some(c.entry.value.(val := c.entry.value.def, dirty := false)), None)
    case Delete(key) => if key == k && key.name != "" then Cell(None, None) else c
    case Unregister(key) => if key == k && key.name != "" then c.(entry := None) else c
    case Reclaim(lo, hi) =>
      if c.entry.None? || !Owned(c.entry.value, lo, hi) then c
      else Cell(None, if c.entry.value.dirty then Some(Saved(c.entry.value)) else c.row)
    case ClaimOrphans(owner) =>
      if c.row.None? then c
      else
        var t := TypeOf(c.row.value.typ);
        if t.None? then c else RegisterCell(c, loaded, t.value, c.row.value.text, owner)
  }

  predicate NowLoaded(loaded: bool, op: Op) { loaded || op.Load? }

  /** A run of calls, seen at the key `k`. */
  function Run(k: Key, c: Cell, loaded: bool, ops: seq<Op>): (r: (Cell, bool))
    requires CellOk(c)
    ensures CellOk(r.0)
    decreases |ops|
  {
    if |ops| == 0 then (c, loaded)
    else Run(k, Step(k, c, loaded, ops[0]), NowLoaded(loaded, ops[0]), ops[1..])
  }

  /** The process has just started: no entry is registered, nothing is loaded, the row is whatever it is. */
  function Boot(row: Option<Row>): Cell { Cell(None, row) }
}
