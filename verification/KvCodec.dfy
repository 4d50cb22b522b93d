/**
 * The text form of a KV value in core/kv.c: str_to_val with the strtoll and
 * strtoull it calls, val_to_str, and val_changed. A string is a C string, so
 * it holds no NUL. The floating-point types are not modelled.
 */
module KvCodec {
  import opened Ascii
  import opened Options

  const STR_MAX := 255   // KV_STR_SZ - 1
  const LLONG_MIN := -0x8000_0000_0000_0000
  const LLONG_MAX := 0x7FFF_FFFF_FFFF_FFFF
  const ULLONG_MAX := 0xFFFF_FFFF_FFFF_FFFF

  datatype KvType = Int8 | UInt8 | Int16 | UInt16 | Int32 | UInt32 | Int64 | UInt64 | Str | Bool
  datatype Val = Num(n: int) | Text(s: string) | Flag(b: bool)

  predicate Signed(t: KvType) { t.Int8? || t.Int16? || t.Int32? || t.Int64? }

  function Lowest(t: KvType): int {
    match t
    case Int8 => -0x80
    case Int16 => -0x8000
    case Int32 => -0x8000_0000
    case Int64 => LLONG_MIN
    case _ => 0
  }

  function Highest(t: KvType): int {
    match t
    case Int8 => 0x7F
    case UInt8 => 0xFF
    case Int16 => 0x7FFF
    case UInt16 => 0xFFFF
    case Int32 => 0x7FFF_FFFF
    case UInt32 => 0xFFFF_FFFF
    case Int64 => LLONG_MAX
    case UInt64 => ULLONG_MAX
    case _ => 0
  }

  /** A value its type can hold. */
  predicate HasType(t: KvType, v: Val) {
    match t
    case Str => v.Text? && |v.s| <= STR_MAX
    case Bool => v.Flag?
    case _ => v.Num? && Lowest(t) <= v.n <= Highest(t)
  }

  predicate IsSpace(c: char) { c == ' ' || '\t' <= c <= '\r' }

  predicate IsDigit(c: char) { '0' <= c <= '9' }

  function SkipSpace(s: string): string { if |s| > 0 && IsSpace(s[0]) then SkipSpace(s[1..]) else s }

  predicate AllDigits(s: string) { |s| > 0 && forall i :: 0 <= i < |s| ==> IsDigit(s[i]) }

  function Digit(c: char): (d: int)
    requires IsDigit(c)
    ensures 0 <= d < 10
  {
    c as int - '0' as int
  }

  function Decimal(s: string): (n: int)
    requires forall i :: 0 <= i < |s| ==> IsDigit(s[i])
    ensures n >= 0
  {
    if |s| == 0 then 0 else 10 * Decimal(s[..|s| - 1]) + Digit(s[|s| - 1])
  }

  function Clamp(n: int, lo: int, hi: int): int { if n < lo then lo else if n > hi then hi else n }

  /** strtoll of a whole string, None when it stops before the end or finds no digit. */
  function ScanSigned(s: string): Option<int> {
    var t := SkipSpace(s);
    var minus := |t| > 0 && t[0] == '-';
    var body := if |t| > 0 && (t[0] == '-' || t[0] == '+') then t[1..] else t;
    if !AllDigits(body) then None
    else Some(Clamp(if minus then -Decimal(body) else Decimal(body), LLONG_MIN, LLONG_MAX))
  }

  /** strtoull of a whole string: a minus sign negates modulo 2^64, an overflow gives ULLONG_MAX. */
  function ScanUnsigned(s: string): Option<int> {
    var t := SkipSpace(s);
    var minus := |t| > 0 && t[0] == '-';
    var body := if |t| > 0 && (t[0] == '-' || t[0] == '+') then t[1..] else t;
    if !AllDigits(body) then None
    else
      var n := Decimal(body);
      Some(if n > ULLONG_MAX then ULLONG_MAX else if minus && n > 0 then ULLONG_MAX + 1 - n else n)
  }

  function Truncate(s: string): string { if |s| <= STR_MAX then s else s[..STR_MAX] }

  /** str_to_val. */
  function Parse(t: KvType, s: string): (r: Option<Val>)
    ensures r.Some? ==> HasType(t, r.value)
  {
    match t
    case Str => Some(Text(Truncate(s)))
    case Bool =>
      if s == "1" || SameFold(s, "true") then Some(Flag(true))
      else if s == "0" || SameFold(s, "false") then Some(Flag(false))
      else None
    case _ =>
      var n := if Signed(t) then ScanSigned(s) else ScanUnsigned(s);
      if n.None? || n.value < Lowest(t) || n.value > Highest(t) then None else Some(Num(n.value))
  }

  // Which texts are numbers

  /** Blanks, then at most one sign, then at least one digit, and nothing else. */
  ghost predicate Numeral(s: string, minus: bool, body: string) {
    exists k :: 0 <= k <= |s| && Blank(s, k) && SignedBody(s[k..], minus, body)
  }

  predicate Blank(s: string, k: nat)
    requires k <= |s|
  {
    forall i :: 0 <= i < k ==> s[i] as int in {9, 10, 11, 12, 13, 32}
  }

  predicate SignedBody(t: string, minus: bool, body: string) {
    AllDigits(body) && (if minus then t == "-" + body else t == body || t == "+" + body)
  }

  lemma {:induction false} SkipBlank(s: string, k: nat)
    requires k <= |s| && Blank(s, k) && (k < |s| ==> !IsSpace(s[k]))
    ensures SkipSpace(s) == s[k..]
    decreases k
  {
    if k > 0 {
      assert forall i :: 0 <= i < k - 1 ==> s[1..][i] == s[i + 1];
      SkipBlank(s[1..], k - 1);
    }
  }

  lemma {:induction false} SkippedIsBlank(s: string) returns (k: nat)
    ensures k <= |s| && Blank(s, k) && SkipSpace(s) == s[k..]
  {
    if |s| > 0 && IsSpace(s[0]) {
      var j := SkippedIsBlank(s[1..]);
      k := j + 1;
      assert forall i :: 1 <= i < k ==> s[i] == s[1..][i - 1];
    } else {
      k := 0;
    }
  }

  lemma NumeralIff(s: string, minus: bool, body: string)
    ensures Numeral(s, minus, body) <==> SignedBody(SkipSpace(s), minus, body)
  {
    if Numeral(s, minus, body) {
      var k :| 0 <= k <= |s| && Blank(s, k) && SignedBody(s[k..], minus, body);
      assert s[k..][0] == s[k];
      SkipBlank(s, k);
    }
    var k := SkippedIsBlank(s);
  }

  /** The value of a numeral to strtoll or strtoull, which clamp or wrap. */
  function Scanned(t: KvType, minus: bool, body: string): int
    requires AllDigits(body)
  {
    var n := Decimal(body);
    if Signed(t) then Clamp(if minus then -n else n, LLONG_MIN, LLONG_MAX)
    else if n > ULLONG_MAX then ULLONG_MAX
    else if minus && n > 0 then ULLONG_MAX + 1 - n
    else n
  }

  /** A text is accepted as a number exactly when it is a numeral whose value is in range. */
  lemma ParseNumberIff(t: KvType, s: string, n: int)
    requires t != Str && t != Bool
    ensures Parse(t, s) == Some(Num(n)) <==>
      exists minus, body :: Numeral(s, minus, body) && n == Scanned(t, minus, body) && Lowest(t) <= n <= Highest(t)
  {
    var u := SkipSpace(s);
    var minus, body := Minus(u), Body(u);
    ParseIs(t, s);
    if exists m, b :: Numeral(s, m, b) && n == Scanned(t, m, b) && Lowest(t) <= n <= Highest(t) {
      var m, b :| Numeral(s, m, b) && n == Scanned(t, m, b) && Lowest(t) <= n <= Highest(t);
      NumeralIff(s, m, b);
      OneReading(u, m, b);
    }
    if AllDigits(body) {
      BodyReads(u);
      NumeralIff(s, minus, body);
    }
  }

  predicate Minus(u: string) { |u| > 0 && u[0] == '-' }

  function Body(u: string): string { if |u| > 0 && (u[0] == '-' || u[0] == '+') then u[1..] else u }

  /** Parse, by the sign and the digits past the blanks. */
  lemma ParseIs(t: KvType, s: string)
    requires t != Str && t != Bool
    ensures var u := SkipSpace(s);
      Parse(t, s) ==
      if !AllDigits(Body(u)) then None
      else
        var n := Scanned(t, Minus(u), Body(u));
        if n < Lowest(t) || n > Highest(t) then None else Some(Num(n))
  {
  }

  lemma BodyReads(u: string)
    requires AllDigits(Body(u))
    ensures SignedBody(u, Minus(u), Body(u))
  {
    assert |u| > 0 && u[0] == '-' ==> u == "-" + u[1..];
    assert |u| > 0 && u[0] == '+' ==> u == "+" + u[1..];
  }

  lemma OneReading(u: string, minus: bool, body: string)
    requires SignedBody(u, minus, body)
    ensures minus == Minus(u) && body == Body(u)
  {
    assert IsDigit(body[0]);
  }

  /** A text is accepted as a boolean exactly when it is 1 or 0, or spells true or false in any case. */
  lemma ParseBoolIff(s: string, b: bool)
    ensures Parse(Bool, s) == Some(Flag(b)) <==> if b then s == "1" || Spells(s, "true") else s == "0" || Spells(s, "false")
  {
    assert "true" != "false" && |"true"| == 4 && |"false"| == 5;
    SpellsIff(s, "true");
    SpellsIff(s, "false");
  }

  /** Letter by letter the same, but for the case of the ASCII letters. */
  predicate Spells(s: string, word: string) {
    |s| == |word| && forall i :: 0 <= i < |s| ==>
      s[i] == word[i] || ('A' <= s[i] <= 'Z' && 'a' <= word[i] <= 'z' && s[i] as int + 32 == word[i] as int)
  }

  lemma SpellsIff(s: string, word: string)
    requires forall i :: 0 <= i < |word| ==> 'a' <= word[i] <= 'z'
    ensures Spells(s, word) <==> SameFold(s, word)
  {
  }

  function Bits(t: KvType): nat {
    match t
    case Int8 => 8 case UInt8 => 8 case Int16 => 16 case UInt16 => 16
    case Int32 => 32 case UInt32 => 32 case _ => 64
  }

  function Pow2(k: nat): int { if k == 0 then 1 else 2 * Pow2(k - 1) }

  /** Each integer type holds exactly the values of its width, in two's complement. */
  lemma Ranges(t: KvType)
    requires t != Str && t != Bool
    ensures Lowest(t) == if t in {Int8, Int16, Int32, Int64} then -Pow2(Bits(t) - 1) else 0
    ensures Highest(t) == Lowest(t) + Pow2(Bits(t)) - 1
  {
    assert Pow2(8) == 0x100 && Pow2(16) == 0x1_0000;
    assert Pow2(24) == 0x100_0000 && Pow2(32) == 0x1_0000_0000;
    assert Pow2(40) == 0x100_0000_0000 && Pow2(48) == 0x1_0000_0000_0000;
    assert Pow2(56) == 0x100_0000_0000_0000 && Pow2(64) == 0x1_0000_0000_0000_0000;
  }

  function ShowNat(n: int): (s: string)
    requires n >= 0
    ensures AllDigits(s) && Decimal(s) == n && (n > 0 ==> s[0] != '0')
  {
    var last := [('0' as int + n % 10) as char];
    if n < 10 then last
    else
      var s := ShowNat(n / 10) + last;
      assert s[..|s| - 1] == ShowNat(n / 10);
      s
  }

  /** val_to_str. */
  function Show(t: KvType, v: Val): string
    requires HasType(t, v)
  {
    match v
    case Num(n) => if n < 0 then "-" + ShowNat(-n) else ShowNat(n)
    case Text(s) => s
    case Flag(b) => if b then "true" else "false"
  }

  lemma ScanShown(n: int, s: string)
    requires s == if n < 0 then "-" + ShowNat(-n) else ShowNat(n)
    ensures LLONG_MIN <= n <= LLONG_MAX ==> ScanSigned(s) == Some(n)
    ensures 0 <= n <= ULLONG_MAX ==> ScanUnsigned(s) == Some(n)
  {
    assert SkipSpace(s) == s;
    if n < 0 { assert s[1..] == ShowNat(-n); }
  }

  /** The serialised value reads back as the value, for every type and every value it can hold. */
  lemma RoundTrip(t: KvType, v: Val)
    requires HasType(t, v)
    ensures Parse(t, Show(t, v)) == Some(v)
  {
    if v.Num? { ScanShown(v.n, Show(t, v)); }
  }

  /** val_changed compares serialised text; that is the same as comparing values. */
  lemma ChangedIff(t: KvType, a: Val, b: Val)
    requires HasType(t, a) && HasType(t, b)
    ensures Show(t, a) != Show(t, b) <==> a != b
  {
    RoundTrip(t, a);
    RoundTrip(t, b);
  }

  function Pow10(k: nat): int { if k == 0 then 1 else 10 * Pow10(k - 1) }

  lemma {:induction false} ShowNatShort(n: int, k: nat)
    requires 0 <= n < Pow10(k) && k > 0
    ensures |ShowNat(n)| <= k
  {
    if n >= 10 { ShowNatShort(n / 10, k - 1); }
  }

  /** No serialised value is cut by the 256-byte buffer a row is read back through. */
  lemma ShowFits(t: KvType, v: Val)
    requires HasType(t, v)
    ensures Truncate(Show(t, v)) == Show(t, v)
  {
    if v.Num? {
      assert Pow10(7) == 10000000;
      assert Pow10(14) == 100000000000000;
      assert Pow10(20) == 100000000000000000000;
      ShowNatShort(if v.n < 0 then -v.n else v.n, 20);
    }
  }
}
