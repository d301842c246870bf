/** ULID generation (migrations/0007_p2p_substrate.up.sql): ten Crockford characters of millisecond
    time, most significant first, then sixteen random ones. */
module Ulid {
  import Keyset

  const ALPHABET := "0123456789ABCDEFGHJKMNPQRSTVWXYZ"

  /** substr(alphabet, digit + 1, 1): Crockford's base 32, which leaves out I, L, O and U. */
  function Char(digit: int): (c: char)
    requires 0 <= digit < 32
  {
    ALPHABET[digit]
  }

  function Code(digit: int): int {
    if digit < 10 then 48 + digit
    else if digit < 18 then 55 + digit
    else if digit < 20 then 56 + digit
    else if digit < 22 then 57 + digit
    else if digit < 27 then 58 + digit
    else 59 + digit
  }

  lemma CharCode(digit: int)
    requires 0 <= digit < 32
    ensures Char(digit) as int == Code(digit)
  {
    if digit < 16 { LowCode(digit); } else { HighCode(digit); }
  }

  lemma LowCode(digit: int)
    requires 0 <= digit < 16
    ensures ALPHABET[digit] as int == Code(digit)
  {
  }

  lemma HighCode(digit: int)
    requires 16 <= digit < 32
    ensures ALPHABET[digit] as int == Code(digit)
  {
  }

  /** The low 5n bits of v as n base-32 digits. */
  function Digits(v: int, n: nat): (s: string)
    ensures |s| == n
    decreases n
  {
    if n == 0 then "" else Digits(v / 32, n - 1) + [Char(v % 32)]
  }

  predicate IsDraw(random: seq<int>) {
    |random| == 16 && forall i | 0 <= i < 16 :: 0 <= random[i] < 32
  }

  function Drawn(random: seq<int>): string
    requires IsDraw(random)
  {
    seq(16, i requires 0 <= i < 16 => Char(random[i]))
  }

  function Generated(ts: int, random: seq<int>): string
    requires IsDraw(random)
  {
    Digits(ts, 10) + Drawn(random)
  }

  /** ps_gen_ulid: `v & 31` and `v >> 5` on a bigint are remainder and quotient, also below zero. */
  method Generate(ts: int, random: seq<int>) returns (out: string)
    requires IsDraw(random)
    ensures out == Generated(ts, random)
  {
    hide Char;
    var v := ts;
    out := "";
    for i := 0 to 10
      invariant Digits(ts, 10) == Digits(v, 10 - i) + out
    {
      assert Digits(v, 10 - i) == Digits(v / 32, 9 - i) + [Char(v % 32)];
      out := [Char(v % 32)] + out;
      v := v / 32;
    }
    assert out == Digits(ts, 10);
    for i := 0 to 16
      invariant out == Digits(ts, 10) + Drawn(random)[..i]
    {
      out := out + [Char(random[i])];
    }
  }

  // ---------------------------------------------------------------- order

  /** Text as the index compares it. */
  function Codes(s: string): (k: Keyset.Key)
    ensures |k| == |s|
  {
    seq(|s|, i requires 0 <= i < |s| => s[i] as int)
  }

  lemma CodesInjective(a: string, b: string)
    requires Codes(a) == Codes(b)
    ensures a == b
  {
    forall i | 0 <= i < |a| ensures a[i] == b[i] {
      assert Codes(a)[i] == a[i] as int && Codes(b)[i] == b[i] as int;
    }
  }

  /** On texts of one length the last character only breaks ties. */
  lemma {:induction false} LessSnoc(a: Keyset.Key, b: Keyset.Key, c: int, d: int)
    requires |a| == |b|
    ensures Keyset.Less(a + [c], b + [d]) <==> Keyset.Less(a, b) || (a == b && c < d)
  {
    if a == [] {
      assert a + [c] == [c] && b + [d] == [d];
    } else {
      assert (a + [c])[1..] == a[1..] + [c] && (b + [d])[1..] == b[1..] + [d];
      LessSnoc(a[1..], b[1..], c, d);
      if a[0] == b[0] && a[1..] == b[1..] { assert a == [a[0]] + a[1..] && b == [b[0]] + b[1..]; }
      if a == b { Keyset.LessIrreflexive(a); Keyset.LessIrreflexive(a[1..]); }
    }
  }

  /** What follows does not change the order of what differs. */
  lemma {:induction false} LessExtends(a: Keyset.Key, b: Keyset.Key, s: Keyset.Key, t: Keyset.Key)
    requires |a| == |b| && Keyset.Less(a, b)
    ensures Keyset.Less(a + s, b + t)
  {
    assert (a + s)[1..] == a[1..] + s && (b + t)[1..] == b[1..] + t;
    if a[0] == b[0] { LessExtends(a[1..], b[1..], s, t); }
  }

  function Pow32(n: nat): nat { if n == 0 then 1 else 32 * Pow32(n - 1) }

  lemma CharsAscend(c: int, d: int)
    requires 0 <= c < 32 && 0 <= d < 32
    ensures (Char(c) as int) < (Char(d) as int) <==> c < d
    ensures Char(c) == Char(d) <==> c == d
  {
    hide Char;
    CharCode(c);
    CharCode(d);
  }

  lemma CodesSnoc(s: string, c: char)
    ensures Codes(s + [c]) == Codes(s) + [c as int]
  {
  }

  /** Lexicographic order is numeric order, and equal text means equal numbers. */
  lemma {:induction false} DigitsOrder(a: nat, b: nat, n: nat)
    requires a < Pow32(n) && b < Pow32(n)
    ensures Keyset.Less(Codes(Digits(a, n)), Codes(Digits(b, n))) <==> a < b
    ensures Digits(a, n) == Digits(b, n) <==> a == b
  {
    if n > 0 {
      var x, y := Digits(a / 32, n - 1), Digits(b / 32, n - 1);
      DigitsOrder(a / 32, b / 32, n - 1);
      CodesSnoc(x, Char(a % 32));
      CodesSnoc(y, Char(b % 32));
      LessSnoc(Codes(x), Codes(y), Char(a % 32) as int, Char(b % 32) as int);
      CharsAscend(a % 32, b % 32);
      if Codes(x) == Codes(y) { CodesInjective(x, y); }
      SnocEqual(x, Char(a % 32), y, Char(b % 32));
    }
  }

  lemma SnocEqual(x: string, c: char, y: string, d: char)
    requires |x| == |y|
    ensures x + [c] == y + [d] <==> x == y && c == d
  {
    assert (x + [c])[|x|] == c && (y + [d])[|y|] == d;
    assert (x + [c])[..|x|] == x && (y + [d])[..|y|] == y;
  }

  const TIME_RANGE := 0x4_0000_0000_0000

  /** Rows stamped in different milliseconds sort by time, whatever the random part. */
  lemma UlidsSortByTime(a: nat, b: nat, r: seq<int>, s: seq<int>)
    requires a < TIME_RANGE && b < TIME_RANGE && IsDraw(r) && IsDraw(s)
    ensures a < b ==> Keyset.Less(Codes(Generated(a, r)), Codes(Generated(b, s)))
    ensures Generated(a, r) == Generated(b, s) ==> a == b
  {
    hide Digits, Drawn;
    TimeRangeIsPow32();
    DigitsOrder(a, b, 10);
    assert Codes(Generated(a, r)) == Codes(Digits(a, 10)) + Codes(Drawn(r));
    assert Codes(Generated(b, s)) == Codes(Digits(b, 10)) + Codes(Drawn(s));
    if a < b {
      LessExtends(Codes(Digits(a, 10)), Codes(Digits(b, 10)), Codes(Drawn(r)), Codes(Drawn(s)));
    }
    assert Generated(a, r)[..10] == Digits(a, 10) && Generated(b, s)[..10] == Digits(b, 10);
  }

  lemma TimeRangeIsPow32()
    ensures Pow32(10) == TIME_RANGE
  {
    assert Pow32(5) == 0x200_0000;
    assert Pow32(10) == 32 * 32 * 32 * 32 * 32 * Pow32(5);
  }

  lemma {:induction false} DigitsWrap(a: int, n: nat)
    ensures Pow32(n) > 0
    ensures Digits(a, n) == Digits(a % Pow32(n), n)
    decreases n
  {
    Pow32Positive(n);
    if n > 0 {
      Pow32Positive(n - 1);
      var p := Pow32(n - 1);
      DigitsWrap(a / 32, n - 1);
      SplitMod(a, p);
    }
  }

  lemma {:induction false} Pow32Positive(n: nat)
    ensures Pow32(n) > 0
  {
    if n > 0 { Pow32Positive(n - 1); }
  }

  lemma SplitMod(a: int, p: nat)
    requires p > 0
    ensures (a % (32 * p)) % 32 == a % 32
    ensures (a % (32 * p)) / 32 == (a / 32) % p
  {
    var q, r := a / (32 * p), a % (32 * p);
    assert a == 32 * (p * q) + r;
    var pq := p * q;
    assert a / 32 == pq + r / 32;
    assert 0 <= r / 32 < p;
    ModOfMultiple(p, q, r / 32);
  }

  lemma AtLeastOnce(p: int, e: int)
    requires p > 0
    ensures e >= 1 ==> p * e >= p
    ensures e <= -1 ==> p * e <= -p
  {
  }

  lemma ModOfMultiple(p: nat, q: int, r: int)
    requires 0 <= r < p
    ensures (p * q + r) % p == r
  {
    var a := p * q + r;
    var d := a / p;
    assert a == p * d + a % p;
    assert p * (d - q) == p * d - p * q;
    AtLeastOnce(p, d - q);
  }

  /** Two times share their ten characters exactly when they agree modulo 2^50 milliseconds. */
  lemma TimePartRepeats(a: int, b: int)
    ensures Digits(a, 10) == Digits(b, 10) <==> a % TIME_RANGE == b % TIME_RANGE
  {
    TimeRangeIsPow32();
    DigitsWrap(a, 10);
    DigitsWrap(b, 10);
    var x, y := a % TIME_RANGE, b % TIME_RANGE;
    assert 0 <= x < TIME_RANGE && 0 <= y < TIME_RANGE;
    DigitsOrder(x, y, 10);
  }

  // ---------------------------------------------------------------- position by position

  lemma DivOfMultiple(p: nat, q: int, r: int)
    requires 0 <= r < p
    ensures (p * q + r) / p == q
  {
    var a := p * q + r;
    assert a == p * (a / p) + a % p;
    ModOfMultiple(p, q, r);
    assert p * (a / p - q) == p * (a / p) - p * q;
    AtLeastOnce(p, a / p - q);
  }

  lemma DivDiv(v: int, p: nat)
    requires p > 0
    ensures v / (32 * p) == (v / 32) / p
  {
    var q, r := v / (32 * p), v % (32 * p);
    assert v == 32 * (p * q) + r;
    var pq := p * q;
    assert v / 32 == pq + r / 32;
    DivOfMultiple(p, q, r / 32);
  }

  lemma {:induction false} DigitAt(v: int, n: nat, i: nat)
    requires i < n
    ensures Pow32(n - 1 - i) > 0
    ensures Digits(v, n)[i] == Char((v / Pow32(n - 1 - i)) % 32)
    decreases n
  {
    Pow32Positive(n - 1 - i);
    if i < n - 1 {
      Pow32Positive(n - 2 - i);
      DigitAt(v / 32, n - 1, i);
      DivDiv(v, Pow32(n - 2 - i));
    }
  }

  /** The i-th of the first ten characters is the digit of 32^(9-i) in the time, and each of the other
      sixteen is the one drawn. */
  lemma GeneratedAt(ts: int, random: seq<int>, i: nat)
    requires IsDraw(random) && i < 26
    ensures |Generated(ts, random)| == 26
    ensures i < 10 ==> Pow32(9 - i) > 0 && Generated(ts, random)[i] == ALPHABET[(ts / Pow32(9 - i)) % 32]
    ensures i >= 10 ==> Generated(ts, random)[i] == ALPHABET[random[i - 10]]
  {
    hide Digits, Pow32;
    if i < 10 {
      DigitAt(ts, 10, i);
    } else {
      assert Drawn(random)[i - 10] == Char(random[i - 10]);
    }
  }
}
