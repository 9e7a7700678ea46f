/** ULIDs: a 48-bit millisecond clock and 80 random bits, written as 26 Crockford
    base-32 symbols by shifting a 128-bit value held in two 64-bit words. */
module Ulid {
  import opened Text

  const ALPHABET := "0123456789ABCDEFGHJKMNPQRSTVWXYZ"

  // ---- machine words as naturals --------------------------------------------------

  /** x<<k without a word boundary. */
  function Shl(x: nat, k: nat): nat
  {
    if k == 0 then x else 2 * Shl(x, k - 1)
  }

  /** Bitwise or. */
  function Or(x: nat, y: nat): nat
  {
    if x == 0 && y == 0 then 0
    else 2 * Or(x / 2, y / 2) + (if x % 2 == 1 || y % 2 == 1 then 1 else 0)
  }

  lemma {:induction false} OrZero(x: nat)
    ensures Or(x, 0) == x && Or(0, x) == x
  {
    if x > 0 { OrZero(x / 2); }
  }

  /** Or of disjoint bit ranges is addition. */
  lemma {:induction false} OrDisjoint(x: nat, y: nat, k: nat)
    requires x < Shl(1, k)
    ensures Or(x, Shl(y, k)) == x + Shl(y, k)
  {
    if k == 0 {
      OrZero(y);
    } else {
      OrDisjoint(x / 2, y, k - 1);
    }
  }

  lemma {:induction false} ShlAdds(x: nat, a: nat, b: nat)
    ensures Shl(x, a + b) == Shl(Shl(x, a), b)
  {
    if b > 0 { ShlAdds(x, a, b - 1); }
  }

  lemma Shl10(x: nat)
    ensures Shl(x, 10) == 1024 * x && Shl(x, 9) == 512 * x
  {
    Shl3(x);
    ShlAdds(x, 3, 3);
    Shl3(8 * x);
    ShlAdds(x, 6, 3);
    Shl3(64 * x);
  }

  lemma Shl3(x: nat)
    ensures Shl(x, 3) == 8 * x
  {
    assert Shl(x, 1) == 2 * x;
    assert Shl(x, 2) == 4 * x;
  }

  lemma Shl59(x: nat)
    ensures Shl(x, 59) == x * 0x800_0000_0000_0000
  {
    Shl10(x);
    ShlAdds(x, 10, 10);
    Shl10(0x400 * x);
    ShlAdds(x, 20, 10);
    Shl10(0x10_0000 * x);
    ShlAdds(x, 30, 10);
    Shl10(0x4000_0000 * x);
    ShlAdds(x, 40, 10);
    Shl10(0x100_0000_0000 * x);
    ShlAdds(x, 50, 9);
    Shl10(0x4_0000_0000_0000 * x);
  }

  /** lo>>5 | hi<<59, the low word after a 128-bit shift right by five. */
  function ShiftedLow(hi: nat, lo: nat): nat
  {
    Or(lo / 32, (hi * 0x800_0000_0000_0000) % 0x1_0000_0000_0000_0000)
  }

  lemma ShiftCarries(hi: nat, lo: nat)
    requires hi < 0x1_0000_0000_0000_0000 && lo < 0x1_0000_0000_0000_0000
    ensures ShiftedLow(hi, lo) < 0x1_0000_0000_0000_0000
    ensures (hi / 32) * 0x1_0000_0000_0000_0000 + ShiftedLow(hi, lo) == (hi * 0x1_0000_0000_0000_0000 + lo) / 32
    ensures lo % 32 == (hi * 0x1_0000_0000_0000_0000 + lo) % 32
  {
    var carry := hi % 32;
    assert (hi * 0x800_0000_0000_0000) % 0x1_0000_0000_0000_0000 == carry * 0x800_0000_0000_0000;
    Shl59(1);
    Shl59(carry);
    OrDisjoint(lo / 32, carry, 59);
  }

  // ---- positional notation -----------------------------------------------------------

  function Quot(v: nat, b: nat): nat
    requires b >= 2
  {
    v / b
  }

  function Rem(v: nat, b: nat): (r: nat)
    requires b >= 2
    ensures r < b
  {
    v % b
  }

  /** The n least significant digits of v in base b, most significant first. */
  function Digits(v: nat, n: nat, b: nat): (s: seq<int>)
    requires b >= 2
    ensures |s| == n && forall i :: 0 <= i < n ==> 0 <= s[i] < b
    decreases n
  {
    if n == 0 then [] else Digits(Quot(v, b), n - 1, b) + [Rem(v, b)]
  }

  function Value(s: seq<int>, b: nat): int
  {
    if s == [] then 0 else Value(s[..|s| - 1], b) * b + s[|s| - 1]
  }

  function Power(b: nat, n: nat): (p: nat)
    requires b >= 2
    ensures p >= 1
  {
    if n == 0 then 1 else b * Power(b, n - 1)
  }

  lemma Ordered(b: nat, x: int, y: int)
    ensures x <= y ==> b * x <= b * y
  {
    if x <= y { assert b * (y - x) >= 0; assert b * (y - x) == b * y - b * x; }
  }

  lemma QuotRem(v: nat, b: nat)
    requires b >= 2
    ensures v == b * Quot(v, b) + Rem(v, b)
  {
  }

  lemma QuotLess(v: nat, b: nat, p: nat)
    requires b >= 2 && v < b * p
    ensures Quot(v, b) < p
  {
    hide *;
    QuotRem(v, b);
    Ordered(b, p, Quot(v, b));
  }

  lemma {:induction false} DigitsValue(v: nat, n: nat, b: nat)
    requires b >= 2 && v < Power(b, n)
    ensures Value(Digits(v, n, b), b) == v
    decreases n
  {
    hide Quot, Rem;
    if n > 0 {
      QuotLess(v, b, Power(b, n - 1));
      DigitsValue(Quot(v, b), n - 1, b);
      QuotRem(v, b);
      var s := Digits(v, n, b);
      assert s[..n - 1] == Digits(Quot(v, b), n - 1, b);
      assert Value(s, b) == Quot(v, b) * b + Rem(v, b);
    }
  }

  lemma QuotRemOrder(u: nat, v: nat, b: nat)
    requires b >= 2
    ensures u < v <==> Quot(u, b) < Quot(v, b) || (Quot(u, b) == Quot(v, b) && Rem(u, b) < Rem(v, b))
  {
    hide Quot, Rem;
    QuotRem(u, b);
    QuotRem(v, b);
    var p, q := Quot(u, b), Quot(v, b);
    Ordered(b, p + 1, q);
    Ordered(b, q + 1, p);
    assert b * (p + 1) == b * p + b && b * (q + 1) == b * q + b;
  }

  /** Comparing the last digit decides only between equal prefixes. */
  lemma {:induction false} LexAppend(s: seq<int>, t: seq<int>, x: int, y: int)
    requires |s| == |t|
    ensures Lex(s + [x], t + [y]) <==> Lex(s, t) || (s == t && x < y)
  {
    if s == [] {
      assert s + [x] == [x] && t + [y] == [y];
    } else {
      LexAppend(s[1..], t[1..], x, y);
      assert (s + [x])[1..] == s[1..] + [x] && (t + [y])[1..] == t[1..] + [y];
      assert s == [s[0]] + s[1..] && t == [t[0]] + t[1..];
    }
  }

  /** Fixed-width digit strings order like the numbers they write. */
  lemma {:induction false} DigitsOrder(u: nat, v: nat, n: nat, b: nat)
    requires b >= 2 && u < Power(b, n) && v < Power(b, n)
    ensures Lex(Digits(u, n, b), Digits(v, n, b)) <==> u < v
    decreases n
  {
    hide Quot, Rem;
    if n > 0 {
      var p, q := Quot(u, b), Quot(v, b);
      QuotLess(u, b, Power(b, n - 1));
      QuotLess(v, b, Power(b, n - 1));
      DigitsOrder(p, q, n - 1, b);
      LexAppend(Digits(p, n - 1, b), Digits(q, n - 1, b), Rem(u, b), Rem(v, b));
      QuotRemOrder(u, v, b);
      DigitsValue(p, n - 1, b);
      DigitsValue(q, n - 1, b);
    }
  }

  predicate InBase(s: seq<int>, b: nat) { forall i :: 0 <= i < |s| ==> 0 <= s[i] < b }

  lemma {:induction false} ValueBound(s: seq<int>, b: nat)
    requires b >= 2 && InBase(s, b)
    ensures 0 <= Value(s, b) < Power(b, |s|)
  {
    if s != [] {
      var n := |s| - 1;
      ValueBound(s[..n], b);
      NextBound(Value(s[..n], b), s[n], b, Power(b, n));
    }
  }

  lemma NextBound(p: int, x: int, b: nat, bound: nat)
    requires 0 <= p < bound && 0 <= x < b
    ensures 0 <= p * b + x < b * bound
  {
    Ordered(b, 0, p);
    Ordered(b, p + 1, bound);
    assert p * b == b * p && b * (p + 1) == b * p + b;
  }

  lemma {:induction false} ValueDigits(s: seq<int>, b: nat)
    requires b >= 2 && InBase(s, b)
    ensures 0 <= Value(s, b) && Digits(Value(s, b), |s|, b) == s
  {
    ValueBound(s, b);
    if s != [] {
      var n := |s| - 1;
      var p, x := Value(s[..n], b), s[n];
      ValueDigits(s[..n], b);
      ValueBound(s[..n], b);
      QuotRemOf(p, x, b);
      hide Quot, Rem, Power;
      assert s == s[..n] + [x];
    }
  }

  lemma QuotRemOf(p: nat, x: nat, b: nat)
    requires b >= 2 && x < b
    ensures Quot(p * b + x, b) == p && Rem(p * b + x, b) == x
  {
    var v := p * b + x;
    var q := Quot(v, b);
    QuotRem(v, b);
    hide Quot, Rem;
    assert b * q + Rem(v, b) == b * p + x;
    Ordered(b, q + 1, p);
    Ordered(b, p + 1, q);
    assert b * (q + 1) == b * q + b && b * (p + 1) == b * p + b;
  }

  lemma {:induction false} ValueAppend(s: seq<int>, t: seq<int>, b: nat)
    requires b >= 2
    ensures Value(s + t, b) == Value(s, b) * Power(b, |t|) + Value(t, b)
  {
    if t == [] {
      assert s + t == s;
    } else {
      var n := |t| - 1;
      ValueAppend(s, t[..n], b);
      assert (s + t)[..|s + t| - 1] == s + t[..n];
      var v, w, p := Value(s, b), Value(t[..n], b), Power(b, n);
      Distribute(v, p, w, b);
    }
  }

  lemma Distribute(v: int, p: int, w: int, b: int)
    ensures (v * p + w) * b == v * (b * p) + w * b
  {
    assert (v * p) * b == v * (b * p);
  }

  lemma {:induction false} TopDigit(v: nat, n: nat, b: nat, k: nat)
    requires b >= 2 && n >= 1 && v < k * Power(b, n - 1)
    ensures Digits(v, n, b)[0] < k || k >= b
    decreases n
  {
    hide Quot, Rem;
    QuotRem(v, b);
    if n == 1 {
      Ordered(b, 1, Quot(v, b));
      assert Digits(v, 1, b) == Digits(Quot(v, b), 0, b) + [Rem(v, b)];
    } else {
      var p := Power(b, n - 2);
      assert k * (b * p) == b * (k * p);
      QuotLess(v, b, k * p);
      TopDigit(Quot(v, b), n - 1, b, k);
    }
  }

  // ---- the encoder ---------------------------------------------------------------------

  type Bytes16 = b: seq<int> | |b| == 16 && InBase(b, 256) witness seq(16, _ => 0)
  type Bytes10 = b: seq<int> | |b| == 10 && InBase(b, 256) witness seq(10, _ => 0)

  function Symbol(d: int): char
    requires 0 <= d < 32
  {
    ALPHABET[d]
  }

  function Symbols(ds: seq<int>): (s: string)
    requires InBase(ds, 32)
    ensures |s| == |ds|
  {
    seq(|ds|, i requires 0 <= i < |ds| => Symbol(ds[i]))
  }

  /** The bytes as one 128-bit number. */
  function Number(b: Bytes16): (v: nat)
    ensures v == Value(b, 256)
  {
    ValueBound(b, 256);
    Value(b, 256)
  }

  /** The base-32 writing of the 128-bit value. */
  function Encode(b: Bytes16): (s: string)
    ensures |s| == 26
  {
    Symbols(Digits(Number(b), 26, 32))
  }

  lemma Powers()
    ensures Power(256, 8) == 0x1_0000_0000_0000_0000
    ensures Power(256, 6) == 0x1_0000_0000_0000
    ensures Power(256, 16) == 0x1_0000_0000_0000_0000_0000_0000_0000_0000
    ensures Power(32, 25) == 0x2000_0000_0000_0000_0000_0000_0000_0000
    ensures Power(32, 26) == 0x4_0000_0000_0000_0000_0000_0000_0000_0000
  {
    assert Power(256, 2) == 0x1_0000;
    assert Power(256, 4) == 0x1_0000_0000;
    assert Power(256, 6) == 0x1_0000_0000_0000;
    assert Power(256, 8) == 0x1_0000_0000_0000_0000;
    assert Power(256, 10) == 0x1_0000_0000_0000_0000_0000;
    assert Power(256, 12) == 0x1_0000_0000_0000_0000_0000_0000;
    assert Power(256, 14) == 0x1_0000_0000_0000_0000_0000_0000_0000;
    assert Power(32, 2) == 0x400;
    assert Power(32, 4) == 0x10_0000;
    assert Power(32, 6) == 0x4000_0000;
    assert Power(32, 8) == 0x100_0000_0000;
    assert Power(32, 10) == 0x4_0000_0000_0000;
    assert Power(32, 12) == 0x1000_0000_0000_0000;
    assert Power(32, 14) == 0x40_0000_0000_0000_0000;
    assert Power(32, 16) == 0x1_0000_0000_0000_0000_0000;
    assert Power(32, 18) == 0x400_0000_0000_0000_0000_0000;
    assert Power(32, 20) == 0x10_0000_0000_0000_0000_0000_0000;
    assert Power(32, 22) == 0x4000_0000_0000_0000_0000_0000_0000;
    assert Power(32, 24) == 0x100_0000_0000_0000_0000_0000_0000_0000;
  }

  function HighWord(b: Bytes16): nat { ValueBound(b[..8], 256); Value(b[..8], 256) }

  function LowWord(b: Bytes16): nat { ValueBound(b[8..], 256); Value(b[8..], 256) }

  /** The two big-endian words make up the whole value. */
  lemma TwoWords(b: Bytes16)
    ensures HighWord(b) < 0x1_0000_0000_0000_0000 && LowWord(b) < 0x1_0000_0000_0000_0000
    ensures Number(b) == HighWord(b) * 0x1_0000_0000_0000_0000 + LowWord(b)
  {
    Powers();
    ValueBound(b[..8], 256);
    ValueBound(b[8..], 256);
    assert b == b[..8] + b[8..];
    ValueAppend(b[..8], b[8..], 256);
  }

  lemma DigitsStep(cur: nat, n: nat)
    requires n > 0
    ensures Digits(cur, n, 32)[n - 1] == cur % 32
    ensures Digits(cur, n, 32)[..n - 1] == Digits(cur / 32, n - 1, 32)
  {
  }

  /** What a pass through the loop does to the words and the digits left to write. */
  lemma PassStep(hi: nat, lo: nat, i: nat, ds: seq<int>)
    requires hi < 0x1_0000_0000_0000_0000 && lo < 0x1_0000_0000_0000_0000 && 0 < i <= |ds|
    requires Digits(hi * 0x1_0000_0000_0000_0000 + lo, i, 32) == ds[..i]
    ensures ShiftedLow(hi, lo) < 0x1_0000_0000_0000_0000 && hi / 32 < 0x1_0000_0000_0000_0000
    ensures Digits((hi / 32) * 0x1_0000_0000_0000_0000 + ShiftedLow(hi, lo), i - 1, 32) == ds[..i - 1]
    ensures ds[i - 1] == lo % 32
  {
    ShiftCarries(hi, lo);
    DigitsStep(hi * 0x1_0000_0000_0000_0000 + lo, i);
    hide *;
    assert ds[..i][..i - 1] == ds[..i - 1] && ds[..i][i - 1] == ds[i - 1];
  }

  method EncodeCrockford(b: Bytes16) returns (s: string)
    ensures s == Encode(b)
  {
    hide *;
    ghost var ds := Digits(Number(b), 26, 32);
    var out := new char[26](_ => ' ');
    var hi, lo := HighWord(b), LowWord(b);
    TwoWords(b);
    assert ds[..26] == ds;
    var i := 26;
    while i > 0
      invariant 0 <= i <= 26
      invariant hi < 0x1_0000_0000_0000_0000 && lo < 0x1_0000_0000_0000_0000
      invariant Digits(hi * 0x1_0000_0000_0000_0000 + lo, i, 32) == ds[..i]
      invariant forall j :: i <= j < 26 ==> out[j] == Symbol(ds[j])
    {
      PassStep(hi, lo, i, ds);
      i := i - 1;
      out[i] := Symbol(lo % 32);
      hi, lo := hi / 32, ShiftedLow(hi, lo);
    }
    s := out[..];
    EncodeAt(b, s);
  }

  lemma EncodeAt(b: Bytes16, s: string)
    requires |s| == 26 && forall j :: 0 <= j < 26 ==> s[j] == Symbol(Digits(Number(b), 26, 32)[j])
    ensures s == Encode(b)
  {
  }

  // ---- what the identifiers guarantee ------------------------------------------------------

  /** The character codes of the alphabet: digits, then letters without I, L, O, U. */
  lemma SymbolCode(d: int)
    requires 0 <= d < 32
    ensures Symbol(d) as int ==
            d + if d < 10 then 48 else if d < 18 then 55 else if d < 20 then 56
                else if d < 22 then 57 else if d < 27 then 58 else 59
  {
  }

  lemma {:induction false} SymbolsOrder(ds: seq<int>, es: seq<int>)
    requires InBase(ds, 32) && InBase(es, 32)
    ensures Less(Symbols(ds), Symbols(es)) <==> Lex(ds, es)
  {
    if ds != [] && es != [] {
      SymbolCode(ds[0]);
      SymbolCode(es[0]);
      SymbolsOrder(ds[1..], es[1..]);
      assert Codes(Symbols(ds))[1..] == Codes(Symbols(ds[1..]));
      assert Codes(Symbols(es))[1..] == Codes(Symbols(es[1..]));
    }
  }

  /** Identifiers sort exactly like the bytes they write. */
  lemma OrderPreserved(a: Bytes16, b: Bytes16)
    ensures Less(Encode(a), Encode(b)) <==> Lex(a, b)
  {
    Powers();
    ValueBound(a, 256);
    ValueBound(b, 256);
    ValueDigits(a, 256);
    ValueDigits(b, 256);
    hide Digits, Value, Power;
    var u, v := Number(a), Number(b);
    DigitsOrder(u, v, 16, 256);
    DigitsOrder(u, v, 26, 32);
    SymbolsOrder(Digits(u, 26, 32), Digits(v, 26, 32));
  }

  /** 130 bits of symbols hold 128 bits of value: the first symbol is at most 7. */
  lemma FirstSymbol(b: Bytes16)
    ensures '0' <= Encode(b)[0] <= '7'
  {
    Powers();
    ValueBound(b, 256);
    TopDigit(Number(b), 26, 32, 8);
    SymbolCode(Digits(Number(b), 26, 32)[0]);
  }

  function SymbolValue(c: char): int
  {
    var x := c as int;
    if x < 65 then x - 48 else if x < 73 then x - 55 else if x < 76 then x - 56
    else if x < 79 then x - 57 else if x < 85 then x - 58 else x - 59
  }

  function SymbolValues(s: string): seq<int>
  {
    seq(|s|, i requires 0 <= i < |s| => SymbolValue(s[i]))
  }

  /** Reading the symbols back gives the sixteen bytes. */
  lemma RoundTrip(b: Bytes16)
    ensures var v := Value(SymbolValues(Encode(b)), 32);
            0 <= v && Digits(v, 16, 256) == b
  {
    Powers();
    ValueBound(b, 256);
    ValueDigits(b, 256);
    DigitsValue(Number(b), 26, 32);
    var ds := Digits(Number(b), 26, 32);
    assert SymbolValues(Encode(b)) == ds by {
      forall i | 0 <= i < 26 ensures SymbolValue(Encode(b)[i]) == ds[i] {
        SymbolCode(ds[i]);
      }
    }
  }

  // ---- new identifiers ---------------------------------------------------------------------

  /** byte(ms>>40), ..., byte(ms) of the unsigned clock: its low 48 bits, big endian. */
  function TimeBytes(ms: int): (t: seq<int>)
    ensures |t| == 6 && InBase(t, 256)
  {
    var u := ms % 0x1_0000_0000_0000_0000;
    var u8 := Quot(u, 256);
    var u16 := Quot(u8, 256);
    var u24 := Quot(u16, 256);
    var u32 := Quot(u24, 256);
    var u40 := Quot(u32, 256);
    [Rem(u40, 256), Rem(u32, 256), Rem(u24, 256), Rem(u16, 256), Rem(u8, 256), Rem(u, 256)]
  }

  function IdBytes(ms: int, random: Bytes10): Bytes16
  {
    TimeBytes(ms) + random
  }

  method NewULID(ms: int, random: Bytes10) returns (id: string)
    ensures id == Encode(IdBytes(ms, random))
  {
    id := EncodeCrockford(TimeBytes(ms) + random);
  }

  lemma {:induction false} LexPrefix(a: seq<int>, b: seq<int>, x: seq<int>, y: seq<int>)
    requires |a| == |b|
    ensures Lex(a + x, b + y) <==> Lex(a, b) || (a == b && Lex(x, y))
  {
    if a == [] {
      assert a + x == x && b + y == y;
    } else {
      LexPrefix(a[1..], b[1..], x, y);
      assert (a + x)[1..] == a[1..] + x && (b + y)[1..] == b[1..] + y;
      assert a == [a[0]] + a[1..] && b == [b[0]] + b[1..];
    }
  }

  lemma ModUnique(k: int, x: int, m: int)
    requires 0 <= x < m
    ensures (k * m + x) % m == x
  {
    var v := k * m + x;
    var q, r := v / m, v % m;
    assert v == m * q + r;
    Ordered(m, q + 1, k);
    Ordered(m, k + 1, q);
    assert m * (q + 1) == m * q + m && m * (k + 1) == m * k + m && k * m == m * k;
  }

  lemma ModSplit(v: nat, b: nat, p: nat)
    requires b >= 2 && p >= 1
    ensures v % (b * p) == Quot(v, b) % p * b + Rem(v, b)
  {
    var q, r := Quot(v, b), Rem(v, b);
    QuotRem(v, b);
    var k, x := q / p, q % p;
    assert q == p * k + x;
    hide *;
    assert b * (p * k + x) == k * (b * p) + x * b;
    NextBound(x, r, b, p);
    ModUnique(k, x * b + r, b * p);
  }

  lemma {:induction false} DigitsModulo(v: nat, n: nat, b: nat)
    requires b >= 2
    ensures Value(Digits(v, n, b), b) == v % Power(b, n)
    decreases n
  {
    hide Quot, Rem;
    if n > 0 {
      DigitsModulo(Quot(v, b), n - 1, b);
      ModSplit(v, b, Power(b, n - 1));
      assert Digits(v, n, b)[..n - 1] == Digits(Quot(v, b), n - 1, b);
    }
  }

  lemma TimeBytesValue(ms: int)
    ensures Value(TimeBytes(ms), 256) == ms % 0x1_0000_0000_0000
  {
    var u := ms % 0x1_0000_0000_0000_0000;
    assert u % 0x1_0000_0000_0000 == ms % 0x1_0000_0000_0000;
    Powers();
    DigitsModulo(u, 6, 256);
    TimeDigits(u, TimeBytes(ms));
  }

  lemma TimeDigits(u: nat, t: seq<int>)
    requires t == [Rem(Quot(Quot(Quot(Quot(Quot(u, 256), 256), 256), 256), 256), 256),
                   Rem(Quot(Quot(Quot(Quot(u, 256), 256), 256), 256), 256),
                   Rem(Quot(Quot(Quot(u, 256), 256), 256), 256),
                   Rem(Quot(Quot(u, 256), 256), 256), Rem(Quot(u, 256), 256), Rem(u, 256)]
    ensures t == Digits(u, 6, 256)
  {
    hide Quot, Rem;
    var u8 := Quot(u, 256);
    var u16 := Quot(u8, 256);
    var u24 := Quot(u16, 256);
    var u32 := Quot(u24, 256);
    var u40 := Quot(u32, 256);
    assert Digits(u40, 1, 256) == [Rem(u40, 256)];
    assert Digits(u32, 2, 256) == [Rem(u40, 256), Rem(u32, 256)];
    assert Digits(u24, 3, 256) == [Rem(u40, 256), Rem(u32, 256), Rem(u24, 256)];
    assert Digits(u16, 4, 256) == [Rem(u40, 256), Rem(u32, 256), Rem(u24, 256), Rem(u16, 256)];
    assert Digits(u8, 5, 256) == [Rem(u40, 256), Rem(u32, 256), Rem(u24, 256), Rem(u16, 256), Rem(u8, 256)];
  }

  /** The identifier of (s, x) sorts before that of (t, y). */
  predicate Precedes(s: int, x: Bytes10, t: int, y: Bytes10)
  {
    Less(Encode(IdBytes(s, x)), Encode(IdBytes(t, y)))
  }

  /** Whatever the random bytes, an identifier made at one time precedes one made at
      another exactly when the low 48 bits of the clock say so; within those 48 bits a
      later millisecond always sorts later. */
  lemma TimeOrder(s: int, t: int)
    ensures (forall x: Bytes10, y: Bytes10 :: Precedes(s, x, t, y)) <==> s % 0x1_0000_0000_0000 < t % 0x1_0000_0000_0000
    ensures 0 <= s < t < 0x1_0000_0000_0000 ==> forall x: Bytes10, y: Bytes10 :: Precedes(s, x, t, y)
  {
    hide *;
    if s % 0x1_0000_0000_0000 < t % 0x1_0000_0000_0000 {
      forall x: Bytes10, y: Bytes10 ensures Precedes(s, x, t, y) {
        IdOrder(s, t, x, y);
      }
    } else {
      LexTotal(ZeroBytes(), ZeroBytes());
      IdOrder(s, t, ZeroBytes(), ZeroBytes());
      assert !Precedes(s, ZeroBytes(), t, ZeroBytes());
    }
  }

  function ZeroBytes(): Bytes10 { seq(10, _ => 0) }

  lemma IdOrder(s: int, t: int, x: Bytes10, y: Bytes10)
    ensures Precedes(s, x, t, y) <==>
            s % 0x1_0000_0000_0000 < t % 0x1_0000_0000_0000
            || (s % 0x1_0000_0000_0000 == t % 0x1_0000_0000_0000 && Lex(x, y))
  {
    var a, b := TimeBytes(s), TimeBytes(t);
    OrderPreserved(IdBytes(s, x), IdBytes(t, y));
    LexPrefix(a, b, x, y);
    TimeBytesValue(s);
    TimeBytesValue(t);
    ValueDigits(a, 256);
    ValueDigits(b, 256);
    Powers();
    DigitsOrder(s % 0x1_0000_0000_0000, t % 0x1_0000_0000_0000, 6, 256);
  }

  /** One millisecond past the 48-bit range the clock wraps and the order is lost. */
  lemma ClockWraps(x: Bytes10)
    ensures !Precedes(0xFFFF_FFFF_FFFF, x, 0x1_0000_0000_0000, x)
  {
    IdOrder(0xFFFF_FFFF_FFFF, 0x1_0000_0000_0000, x, x);
  }
}
