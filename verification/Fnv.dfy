/** FNV-1a, 64 bit: the hash behind the refusal key and the registry drift check. */
module Fnv {

  const TWO64: nat := 0x1_0000_0000_0000_0000
  const OFFSET_BASIS: nat := 0xcbf29ce484222325
  const PRIME: nat := 0x100000001b3

  /** The multiplicative inverse of the prime modulo 2^64. */
  const INVERSE: nat := 0xce965057aff6957b

  /** `PRIME * INVERSE == 1 + QUOTIENT * TWO64` */
  const QUOTIENT: nat := 0xce9650590f

  type Byte = b: nat | b < 256

  /** Bitwise exclusive or of non-negative integers, as on `BigInt`. */
  function Xor(a: nat, b: nat): nat {
    if a == 0 && b == 0 then 0 else 2 * Xor(a / 2, b / 2) + (a % 2 + b % 2) % 2
  }

  /** One byte of the hash: exclusive or, then multiply and keep 64 bits. */
  function Step(hash: nat, b: Byte): nat {
    Xor(hash, b) * PRIME % TWO64
  }

  function Fold(hash: nat, bytes: seq<Byte>): nat
    decreases |bytes|
  {
    if bytes == [] then hash else Fold(Step(hash, bytes[0]), bytes[1..])
  }

  function Hash(bytes: seq<Byte>): nat {
    Fold(OFFSET_BASIS, bytes)
  }

  /** The state before a byte, recovered from the state after it. */
  function Unstep(hash: nat, b: Byte): nat {
    Xor(hash * INVERSE % TWO64, b)
  }

  // ----- hexadecimal -----

  function HexText(n: nat): string {
    var digit := ["0123456789abcdef"[n % 16]];
    if n < 16 then digit else HexText(n / 16) + digit
  }

  function Zeros(n: nat): string {
    if n == 0 then "" else Zeros(n - 1) + "0"
  }

  /** `text.padStart(16, "0")` */
  function Pad16(text: string): string {
    if |text| >= 16 then text else Zeros(16 - |text|) + text
  }

  /** `fnv1a64hex` over the bytes of the input. */
  method Fnv1a64Hex(bytes: seq<Byte>) returns (hex: string)
    ensures hex == Pad16(HexText(Hash(bytes)))
  {
    var hash: nat := OFFSET_BASIS;
    var k := 0;
    while k < |bytes|
      invariant 0 <= k <= |bytes|
      invariant Fold(hash, bytes[k..]) == Hash(bytes)
    {
      assert bytes[k..][1..] == bytes[k + 1..];
      hash := Xor(hash, bytes[k]);
      hash := hash * PRIME % TWO64;
      k := k + 1;
    }
    hex := Pad16(HexText(hash));
  }

  // ----- exclusive or -----

  function Pow2(k: nat): nat {
    if k == 0 then 1 else 2 * Pow2(k - 1)
  }

  lemma {:induction false} XorBound(a: nat, b: nat, k: nat)
    requires a < Pow2(k) && b < Pow2(k)
    ensures Xor(a, b) < Pow2(k)
    decreases k
  {
    if k > 0 && (a != 0 || b != 0) {
      XorBound(a / 2, b / 2, k - 1);
    }
  }

  /** The lowest bit of an exclusive or, and the rest of it. */
  lemma {:induction false} XorHalves(a: nat, b: nat)
    ensures Xor(a, b) / 2 == Xor(a / 2, b / 2) && Xor(a, b) % 2 == (a % 2 + b % 2) % 2
  {
    var half, bit := Xor(a / 2, b / 2), (a % 2 + b % 2) % 2;
    assert Xor(a, b) == 2 * half + bit;
  }

  lemma {:induction false} SameHalves(x: nat, y: nat)
    requires x / 2 == y / 2 && x % 2 == y % 2
    ensures x == y
  {
    assert x == 2 * (x / 2) + x % 2;
  }

  lemma {:induction false} BitUndoes(p: nat, q: nat)
    requires p < 2 && q < 2
    ensures ((p + q) % 2 + q) % 2 == p
  {
  }

  lemma {:induction false} XorUndoes(a: nat, b: nat)
    ensures Xor(Xor(a, b), b) == a
    decreases a + b
  {
    if a != 0 || b != 0 {
      XorUndoes(a / 2, b / 2);
      XorHalves(a, b);
      XorHalves(Xor(a, b), b);
      BitUndoes(a % 2, b % 2);
      SameHalves(Xor(Xor(a, b), b), a);
    }
  }

  lemma {:induction false} XorKeeps64Bits(hash: nat, b: Byte)
    requires hash < TWO64
    ensures Xor(hash, b) < TWO64
  {
    Pow2Of64();
    XorBound(hash, b, 64);
  }

  lemma Pow2Of64()
    ensures Pow2(64) == TWO64
  {
    assert Pow2(8) == 0x100;
    assert Pow2(16) == 0x1_0000;
    assert Pow2(24) == 0x100_0000;
    assert Pow2(32) == 0x1_0000_0000;
    assert Pow2(40) == 0x100_0000_0000;
    assert Pow2(48) == 0x1_0000_0000_0000;
    assert Pow2(56) == 0x100_0000_0000_0000;
  }

  // ----- multiplication by the prime, modulo 2^64 -----

  lemma {:induction false} ModOf(h: nat, z: int)
    requires h < TWO64
    ensures (h + TWO64 * z) % TWO64 == h
  {
  }

  lemma {:induction false} MultiplyUndone(h: nat)
    requires h < TWO64
    ensures h * PRIME % TWO64 * INVERSE % TWO64 == h
    ensures h * INVERSE % TWO64 * PRIME % TWO64 == h
  {
    assert PRIME * INVERSE == 1 + QUOTIENT * TWO64;
    var p, q := h * PRIME, h * INVERSE;
    assert p % TWO64 * INVERSE == h + TWO64 * (h * QUOTIENT - p / TWO64 * INVERSE);
    ModOf(h, h * QUOTIENT - p / TWO64 * INVERSE);
    assert q % TWO64 * PRIME == h + TWO64 * (h * QUOTIENT - q / TWO64 * PRIME);
    ModOf(h, h * QUOTIENT - q / TWO64 * PRIME);
  }

  /** Each byte permutes the 64-bit states: the step stays below 2^64 and is undone from both sides. */
  lemma {:induction false} StepIsBijection(hash: nat, b: Byte)
    requires hash < TWO64
    ensures Step(hash, b) < TWO64 && Unstep(Step(hash, b), b) == hash
    ensures Unstep(hash, b) < TWO64 && Step(Unstep(hash, b), b) == hash
  {
    XorKeeps64Bits(hash, b);
    MultiplyUndone(Xor(hash, b));
    XorUndoes(hash, b);
    var g := hash * INVERSE % TWO64;
    MultiplyUndone(hash);
    XorKeeps64Bits(g, b);
    XorUndoes(g, b);
  }

  lemma {:induction false} FoldBound(hash: nat, bytes: seq<Byte>)
    requires hash < TWO64
    ensures Fold(hash, bytes) < TWO64
    decreases |bytes|
  {
    if bytes != [] {
      StepIsBijection(hash, bytes[0]);
      FoldBound(Step(hash, bytes[0]), bytes[1..]);
    }
  }

  /** Hashing a concatenation continues from the state of the first part. */
  lemma {:induction false} FoldAppend(hash: nat, a: seq<Byte>, b: seq<Byte>)
    ensures Fold(hash, a + b) == Fold(Fold(hash, a), b)
    decreases |a|
  {
    if a == [] {
      assert a + b == b;
    } else {
      assert (a + b)[1..] == a[1..] + b;
      FoldAppend(Step(hash, a[0]), a[1..], b);
    }
  }

  /** The same bytes never merge two states. */
  lemma {:induction false} FoldInjective(h: nat, k: nat, bytes: seq<Byte>)
    requires h < TWO64 && k < TWO64
    ensures Fold(h, bytes) == Fold(k, bytes) <==> h == k
    decreases |bytes|
  {
    if bytes != [] {
      StepIsBijection(h, bytes[0]);
      StepIsBijection(k, bytes[0]);
      FoldInjective(Step(h, bytes[0]), Step(k, bytes[0]), bytes[1..]);
    }
  }

  /** A common beginning and a common end cancel: a collision lies wholly in the part that differs. */
  lemma {:induction false} CommonEndsCancel(u: seq<Byte>, x: seq<Byte>, y: seq<Byte>, w: seq<Byte>)
    ensures Hash(u + x + w) == Hash(u + y + w) <==> Fold(Hash(u), x) == Fold(Hash(u), y)
  {
    FoldBound(OFFSET_BASIS, u);
    FoldBound(Hash(u), x);
    FoldBound(Hash(u), y);
    FoldAppend(OFFSET_BASIS, u + x, w);
    FoldAppend(OFFSET_BASIS, u + y, w);
    FoldAppend(OFFSET_BASIS, u, x);
    FoldAppend(OFFSET_BASIS, u, y);
    FoldInjective(Fold(Hash(u), x), Fold(Hash(u), y), w);
  }

  lemma {:induction false} XorInjective(h: nat, b: nat, c: nat)
    requires Xor(h, b) == Xor(h, c)
    ensures b == c
    decreases h + b + c
  {
    if h != 0 || b != 0 || c != 0 {
      XorHalves(h, b);
      XorHalves(h, c);
      XorInjective(h / 2, b / 2, c / 2);
      SameHalves(b, c);
    }
  }

  /** Two inputs of equal length that differ in exactly one byte never collide. */
  lemma {:induction false} OneByteNeverCollides(a: seq<Byte>, b: seq<Byte>, i: nat)
    requires |a| == |b| && i < |a| && a[i] != b[i]
    requires forall k :: 0 <= k < |a| && k != i ==> a[k] == b[k]
    ensures Hash(a) != Hash(b)
  {
    var u, w := a[..i], a[i + 1..];
    assert a == u + [a[i]] + w && b == u + [b[i]] + w;
    CommonEndsCancel(u, [a[i]], [b[i]], w);
    var h := Hash(u);
    FoldBound(OFFSET_BASIS, u);
    if Fold(h, [a[i]]) == Fold(h, [b[i]]) {
      StepIsBijection(h, a[i]);
      StepIsBijection(h, b[i]);
      XorKeeps64Bits(h, a[i]);
      XorKeeps64Bits(h, b[i]);
      MultiplyUndone(Xor(h, a[i]));
      MultiplyUndone(Xor(h, b[i]));
      XorInjective(h, a[i], b[i]);
    }
  }

  // ----- the sixteen hexadecimal digits -----

  function DigitValue(c: char): nat {
    if '0' <= c <= '9' then c as nat - '0' as nat else if 'a' <= c <= 'f' then c as nat - 'a' as nat + 10 else 0
  }

  /** The number a hexadecimal text spells. */
  function HexValue(text: string): nat {
    if text == "" then 0 else HexValue(text[..|text| - 1]) * 16 + DigitValue(text[|text| - 1])
  }

  lemma {:induction false} HexTextSpells(n: nat)
    ensures HexValue(HexText(n)) == n && |HexText(n)| > 0
  {
    var r := n % 16;
    assert DigitValue("0123456789abcdef"[r]) == r by {
      assert r == 0 || r == 1 || r == 2 || r == 3 || r == 4 || r == 5 || r == 6 || r == 7
          || r == 8 || r == 9 || r == 10 || r == 11 || r == 12 || r == 13 || r == 14 || r == 15;
    }
    var text := HexText(n);
    if n < 16 {
      assert text[..0] == "" && HexValue("") == 0;
    } else {
      HexTextSpells(n / 16);
      assert text[..|text| - 1] == HexText(n / 16);
    }
  }

  lemma {:induction false} HexTextLength(n: nat, k: nat)
    requires n < Pow16(k) && k > 0
    ensures |HexText(n)| <= k
    decreases k
  {
    if n >= 16 {
      HexTextLength(n / 16, k - 1);
    }
  }

  function Pow16(k: nat): nat {
    if k == 0 then 1 else 16 * Pow16(k - 1)
  }

  lemma {:induction false} ZerosSpellNothing(k: nat, text: string)
    ensures HexValue(Zeros(k) + text) == HexValue(text) && |Zeros(k)| == k
    decreases k, |text|
  {
    if text != "" {
      var init := text[..|text| - 1];
      ZerosSpellNothing(k, init);
      var s := Zeros(k) + text;
      assert s[..|s| - 1] == Zeros(k) + init;
    } else {
      ZerosSpellZero(k);
      assert Zeros(k) + text == Zeros(k);
    }
  }

  lemma {:induction false} ZerosSpellZero(k: nat)
    ensures HexValue(Zeros(k)) == 0 && |Zeros(k)| == k
  {
    if k > 0 {
      ZerosSpellZero(k - 1);
    }
  }

  lemma {:induction false} PaddedHexSpells(n: nat)
    requires n < TWO64
    ensures |Pad16(HexText(n))| == 16 && HexValue(Pad16(HexText(n))) == n
  {
    HexTextSpells(n);
    Pow16Of16();
    HexTextLength(n, 16);
    ZerosSpellNothing(16 - |HexText(n)|, HexText(n));
  }

  /** The printed hash has sixteen digits and spells the hash, so equal prints mean equal hashes. */
  lemma {:induction false} PrintedHashSpells(bytes: seq<Byte>)
    ensures var hex := Pad16(HexText(Hash(bytes)));
            |hex| == 16 && HexValue(hex) == Hash(bytes) < TWO64
  {
    FoldBound(OFFSET_BASIS, bytes);
    PaddedHexSpells(Hash(bytes));
  }

  lemma {:induction false} Pow16Of16()
    ensures Pow16(16) == TWO64
  {
    assert Pow16(4) == 0x1_0000;
    assert Pow16(8) == 0x1_0000_0000;
    assert Pow16(12) == 0x1_0000_0000_0000;
  }
}
