/** Runs of core/kv.c that show the conditions of the persistence theorems are needed. */
module KvWitnesses {
  import opened Options
  import opened KvCodec
  import opened KvCell
  import opened KvTheorems

  lemma RunTwo(k: Key, c: Cell, loaded: bool, a: Op, b: Op)
    requires CellOk(c)
    ensures Run(k, c, loaded, [a, b]).0 ==
            Step(k, Step(k, c, loaded, a), NowLoaded(loaded, a), b)
    ensures Run(k, c, loaded, [a, b]).1 == (loaded || a.Load? || b.Load?)
  {
    assert [a, b][1..] == [b] && [b][1..] == [];
    var c1, l1 := Step(k, c, loaded, a), NowLoaded(loaded, a);
    assert Run(k, c1, l1, [b]) == (Step(k, c1, l1, b), NowLoaded(l1, b));
  }

  /** A reclaim before the load does write a registration default over a stored value. */
  lemma EarlyReclaimOverwrites(k: Key)
    ensures var ops := [Register(k, Bool, "true", 7), Reclaim(0, 10)];
      HandsOff(k, ops) && Run(k, Boot(Some(Row(12, "false"))), false, ops).0.row == Some(Row(12, "true"))
  {
    RunTwo(k, Boot(Some(Row(12, "false"))), false, Register(k, Bool, "true", 7), Reclaim(0, 10));
    assert Parse(Bool, "true") == Some(Flag(true));
  }

  /** A value set before the load, over a row of another type, is stranded by the load. */
  lemma SetBeforeLoadStrands(k: Key)
    ensures var c := Run(k, Boot(Some(Row(0, "9"))), false, [Register(k, Bool, "false", 7), Set(k, "true")]).0;
      var c' := Step(k, c, false, Load);
      c'.entry.Some? && Stranded(c', CutOf(c')) && Stranded(c', WholeOf(c'))
  {
    RunTwo(k, Boot(Some(Row(0, "9"))), false, Register(k, Bool, "false", 7), Set(k, "true"));
    assert Parse(Bool, "true") == Some(Flag(true));
    assert "false"[0] == 'f' && Parse(Bool, "false") == Some(Flag(false));
  }

  function Zeros(n: nat): (s: string)
    ensures |s| == n && (forall i :: 0 <= i < n ==> s[i] == '0') && Decimal(s) == 0
  {
    if n == 0 then ""
    else
      var s := Zeros(n - 1) + "0";
      assert s[..n - 1] == Zeros(n - 1);
      s
  }

  lemma ZerosRead()
    ensures Parse(Int64, Zeros(255) + "5") == Some(Num(5))
    ensures Truncate(Zeros(255) + "5") == Zeros(255) && Parse(Int64, Zeros(255)) == Some(Num(0))
    ensures Parse(Int64, "1") == Some(Num(1))
  {
    var z := Zeros(255);
    var long := z + "5";
    assert long[..255] == z && AllDigits(long);
    assert SkipSpace(long) == long && Decimal(long) == 5;
    assert SkipSpace(z) == z && AllDigits(z);
    assert SkipSpace("1") == "1" && AllDigits("1") && Decimal("1") == 1;
  }

  /** A loaded row and the same row after a reload: one is parsed whole, the other cut to 255 bytes. */
  lemma RowReadTwice(k: Key, text: string, def: string, whole: Val, cut: Val)
    requires Parse(Int64, def).Some? && Parse(Int64, text) == Some(whole) && Parse(Int64, Truncate(text)) == Some(cut)
    ensures
      var c := Run(k, Boot(Some(Row(6, text))), false, [Register(k, Int64, def, 7), Load]).0;
      var c' := Step(k, Step(k, c, true, Reclaim(0, 10)), true, Register(k, Int64, def, 7));
      && c.entry.Some? && c.entry.value.val == whole && c'.entry.Some? && c'.entry.value.val == cut
      && (whole != cut ==> Drifted(c, CutOf(c)))
  {
    RunTwo(k, Boot(Some(Row(6, text))), false, Register(k, Int64, def, 7), Load);
  }

  /** So a long row can change its meaning over a reload: 255 zeros and a 5 load as 5 and come back as 0. */
  lemma LongRowDrifts(k: Key) returns (text: string)
    ensures
      var c := Run(k, Boot(Some(Row(6, text))), false, [Register(k, Int64, "1", 7), Load]).0;
      var c' := Step(k, Step(k, c, true, Reclaim(0, 10)), true, Register(k, Int64, "1", 7));
      c.entry.Some? && Drifted(c, CutOf(c)) && c.entry.value.val == Num(5) && c'.entry.Some? && c'.entry.value.val == Num(0)
  {
    text := Zeros(255) + "5";
    ZerosRead();
    RowReadTwice(k, text, "1", Num(5), Num(0));
  }
}
