/** The parts of Go's `strings` and `strconv` packages the codecs rely on. */
module Text {
  import opened Outcomes

  /** unicode.IsSpace */
  predicate IsSpace(c: char) {
    c in {' ', '\t', '\n', '\r', '\U{0B}', '\U{0C}', '\U{85}', '\U{A0}', '\U{1680}',
          '\U{2028}', '\U{2029}', '\U{202F}', '\U{205F}', '\U{3000}'}
    || '\U{2000}' <= c <= '\U{200A}'
  }

  function TrimLeftSpace(s: string): string {
    if s != "" && IsSpace(s[0]) then TrimLeftSpace(s[1..]) else s
  }

  function TrimRightSpace(s: string): string {
    if s != "" && IsSpace(s[|s| - 1]) then TrimRightSpace(s[..|s| - 1]) else s
  }

  function TrimSpace(s: string): string {
    TrimRightSpace(TrimLeftSpace(s))
  }

  predicate AllSpace(s: string) { forall i | 0 <= i < |s| :: IsSpace(s[i]) }

  lemma {:induction false} TrimRightEmptyIff(s: string)
    ensures TrimRightSpace(s) == "" <==> AllSpace(s)
  {
    if s != "" && IsSpace(s[|s| - 1]) { TrimRightEmptyIff(s[..|s| - 1]); }
  }

  lemma {:induction false} TrimLeftDropsSpace(s: string)
    ensures AllSpace(TrimLeftSpace(s)) <==> AllSpace(s)
  {
    if s != "" && IsSpace(s[0]) { TrimLeftDropsSpace(s[1..]); }
  }

  /** A text trims to nothing exactly when it is white space throughout. */
  lemma TrimEmptyIff(s: string)
    ensures TrimSpace(s) == "" <==> AllSpace(s)
  {
    hide IsSpace;
    TrimLeftDropsSpace(s);
    TrimRightEmptyIff(TrimLeftSpace(s));
  }

  /** strings.TrimRight(s, "\n") */
  function TrimNewlines(s: string): string {
    if s != "" && s[|s| - 1] == '\n' then TrimNewlines(s[..|s| - 1]) else s
  }

  function TrimPrefix(s: string, prefix: string): string {
    if prefix <= s then s[|prefix|..] else s
  }

  predicate OccursAt(s: string, pattern: string, i: int) {
    0 <= i && i + |pattern| <= |s| && s[i..i + |pattern|] == pattern
  }

  /** strings.Index: the first occurrence, or -1. */
  function Index(s: string, pattern: string): (i: int)
    ensures i == -1 || OccursAt(s, pattern, i)
  {
    if pattern <= s then 0
    else if s == "" then -1
    else
      var i := Index(s[1..], pattern);
      if i == -1 then -1 else i + 1
  }

  /** Index is the least position at which the pattern occurs. */
  lemma {:induction false} IndexIsFirst(s: string, pattern: string, at: nat)
    requires OccursAt(s, pattern, at)
    requires forall i | 0 <= i < at :: !OccursAt(s, pattern, i)
    ensures Index(s, pattern) == at
  {
    if at > 0 {
      assert !OccursAt(s, pattern, 0);
      var t := s[1..];
      forall i | 0 <= i < at ensures OccursAt(t, pattern, i) == OccursAt(s, pattern, i + 1) {
        assert i + |pattern| <= |t| ==> t[i..i + |pattern|] == s[i + 1..i + 1 + |pattern|];
      }
      IndexIsFirst(t, pattern, at - 1);
    }
  }

  /** Nothing occurs before the index, and nothing at all if there is none. */
  lemma {:induction false} IndexMeans(s: string, pattern: string)
    ensures var i := Index(s, pattern);
            forall j | 0 <= j && (i == -1 || j < i) :: !OccursAt(s, pattern, j)
  {
    if !(pattern <= s) && s != "" {
      var t := s[1..];
      IndexMeans(t, pattern);
      forall j | 0 < j ensures OccursAt(s, pattern, j) == OccursAt(t, pattern, j - 1) {
        assert j + |pattern| <= |s| ==> s[j..j + |pattern|] == t[j - 1..j - 1 + |pattern|];
      }
    }
  }

  lemma OccursInTail(s: string, pattern: string, n: nat, j: nat)
    requires n <= j && n <= |s|
    ensures OccursAt(s, pattern, j) == OccursAt(s[n..], pattern, j - n)
  {
    if j + |pattern| <= |s| {
      assert s[j..j + |pattern|] == s[n..][j - n..j - n + |pattern|];
    }
  }

  /** strings.LastIndex for a one-character pattern. */
  function LastIndex(s: string, c: char): (i: int)
    ensures -1 <= i < |s|
    ensures i != -1 ==> s[i] == c
  {
    if s == "" then -1
    else if s[|s| - 1] == c then |s| - 1
    else LastIndex(s[..|s| - 1], c)
  }

  lemma {:induction false} LastIndexOfOnly(a: string, c: char, b: string)
    requires c !in b
    ensures LastIndex(a + [c] + b, c) == |a|
  {
    var s := a + [c] + b;
    if b != "" {
      assert s[|s| - 1] == b[|b| - 1];
      assert s[..|s| - 1] == a + [c] + b[..|b| - 1];
      LastIndexOfOnly(a, c, b[..|b| - 1]);
    }
  }

  lemma {:induction false} LastIndexIsLast(s: string, c: char)
    ensures c !in s[LastIndex(s, c) + 1..]
  {
    if s != "" && s[|s| - 1] != c {
      LastIndexIsLast(s[..|s| - 1], c);
      var i := LastIndex(s, c) + 1;
      assert s[i..] == s[..|s| - 1][i..] + [s[|s| - 1]];
    }
  }

  predicate IsDigit(c: char) { '0' <= c <= '9' }

  function DigitOf(d: nat): (c: char)
    requires d < 10
    ensures IsDigit(c)
  {
    '0' + d as char
  }

  function FormatNat(n: nat): (s: string)
    ensures s != "" && forall i | 0 <= i < |s| :: IsDigit(s[i])
  {
    if n < 10 then [DigitOf(n)] else FormatNat(n / 10) + [DigitOf(n % 10)]
  }

  /** strconv.FormatInt(n, 10) */
  function FormatInt(n: int): (s: string)
    ensures s != "" && forall i | 0 <= i < |s| :: IsDigit(s[i]) || s[i] == '-'
  {
    if n < 0 then "-" + FormatNat(-n) else FormatNat(n)
  }

  function ParseDigits(s: string): Option<nat> {
    if s == "" then Some(0)
    else if !IsDigit(s[|s| - 1]) then None
    else match ParseDigits(s[..|s| - 1])
      case None => None
      case Some(v) => Some(10 * v + (s[|s| - 1] - '0') as nat)
  }

  predicate IsInt64(n: int) { -0x8000_0000_0000_0000 <= n < 0x8000_0000_0000_0000 }

  /** strconv.ParseInt(s, 10, 64): an optional sign, at least one digit, and the range check. */
  function ParseInt64(s: string): (r: Option<int>)
    ensures r.Some? ==> IsInt64(r.value)
  {
    if s == "" then None
    else
      var negative := s[0] == '-';
      var digits := if negative || s[0] == '+' then s[1..] else s;
      if digits == "" then None
      else match ParseDigits(digits)
        case None => None
        case Some(v) =>
          var n: int := if negative then -(v as int) else v;
          if IsInt64(n) then Some(n) else None
  }

  lemma {:induction false} ParseDigitsOfFormat(n: nat)
    ensures ParseDigits(FormatNat(n)) == Some(n)
  {
    var s := FormatNat(n);
    if n < 10 {
      assert s[..|s| - 1] == "";
    } else {
      ParseDigitsOfFormat(n / 10);
      assert s[..|s| - 1] == FormatNat(n / 10);
    }
  }

  /** Decimal text is read back as the number written. */
  lemma {:induction false} ParseOfFormat(n: int)
    requires IsInt64(n)
    ensures ParseInt64(FormatInt(n)) == Some(n)
  {
    if n < 0 {
      ParseDigitsOfFormat(-n);
      assert FormatInt(n)[1..] == FormatNat(-n);
    } else {
      ParseDigitsOfFormat(n);
      assert IsDigit(FormatInt(n)[0]);
    }
  }

  function Zeros(n: nat): string { if n == 0 then "" else Zeros(n - 1) + "0" }

  /** The text is a numeral of n: an optional sign, leading zeros, and its digits. */
  ghost predicate Spells(s: string, n: int) {
    exists z: nat ::
      var ds := Zeros(z) + FormatNat(if n < 0 then -n else n);
      (s == ds && n >= 0) || (s == "+" + ds && n >= 0) || (s == "-" + ds && n <= 0)
  }

  lemma {:induction false} DigitsSpell(s: string) returns (z: nat)
    requires s != "" && ParseDigits(s).Some?
    ensures s == Zeros(z) + FormatNat(ParseDigits(s).value)
  {
    var front, d := s[..|s| - 1], s[|s| - 1];
    z := 0;
    if front != "" {
      z := DigitsSpell(front);
      if ParseDigits(front) == Some(0) { z := z + 1; }
    }
    assert s == front + [d];
  }

  lemma {:induction false} ZerosParse(z: nat)
    ensures ParseDigits(Zeros(z)) == Some(0)
  {
    if z > 0 {
      ZerosParse(z - 1);
      assert Zeros(z)[..|Zeros(z)| - 1] == Zeros(z - 1);
    }
  }

  lemma {:induction false} SpelledParses(z: nat, n: nat)
    ensures ParseDigits(Zeros(z) + FormatNat(n)) == Some(n)
    decreases n
  {
    var s := Zeros(z) + FormatNat(n);
    if n < 10 {
      ZerosParse(z);
      assert s[..|s| - 1] == Zeros(z);
    } else {
      SpelledParses(z, n / 10);
      assert s[..|s| - 1] == Zeros(z) + FormatNat(n / 10);
    }
  }

  lemma {:induction false} SpelledHasDigit(z: nat, n: nat)
    ensures var s := Zeros(z) + FormatNat(n); s != "" && IsDigit(s[0])
  {
    if z > 0 { SpelledHasDigit(z - 1, 0); ZerosStart(z); }
  }

  lemma {:induction false} ZerosStart(z: nat)
    requires z > 0
    ensures Zeros(z)[0] == '0'
  {
    if z > 1 { ZerosStart(z - 1); }
  }

  /** ParseInt accepts exactly the numerals of 64-bit integers. */
  lemma ParseMeans(s: string, n: int)
    ensures ParseInt64(s) == Some(n) <==> IsInt64(n) && Spells(s, n)
  {
    hide Zeros, FormatNat, ParseDigits;
    if ParseInt64(s) == Some(n) {
      var ds := if s[0] == '-' || s[0] == '+' then s[1..] else s;
      var z := DigitsSpell(ds);
      assert s == ds || s == "+" + ds || s == "-" + ds;
    }
    if IsInt64(n) && Spells(s, n) {
      var m: nat := if n < 0 then -n else n;
      var z: nat :| var ds := Zeros(z) + FormatNat(m);
                    (s == ds && n >= 0) || (s == "+" + ds && n >= 0) || (s == "-" + ds && n <= 0);
      SpelledParses(z, m);
      SpelledHasDigit(z, m);
    }
  }

  lemma {:induction false} TrimSpaceOfSolid(s: string)
    requires s != "" && !IsSpace(s[0]) && !IsSpace(s[|s| - 1])
    ensures TrimSpace(s + "\n") == s
  {
    assert (s + "\n")[..|s + "\n"| - 1] == s;
    assert TrimLeftSpace(s + "\n") == s + "\n";
    assert TrimRightSpace(s + "\n") == TrimRightSpace(s);
  }
}
