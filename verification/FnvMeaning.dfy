/** FNV-1a against its published values, and its exclusive or and its digits by what they mean. */
module FnvMeaning {
  import opened Fnv

  // ----- exclusive or -----

  function Bit(n: nat, k: nat): nat {
    if k == 0 then n % 2 else Bit(n / 2, k - 1)
  }

  /** A bit of an exclusive or is set exactly when it is set on one side only. */
  lemma {:induction false} XorBits(a: nat, b: nat, k: nat)
    ensures Bit(Xor(a, b), k) == if Bit(a, k) != Bit(b, k) then 1 else 0
    decreases k
  {
    XorHalves(a, b);
    if k > 0 {
      XorBits(a / 2, b / 2, k - 1);
    } else {
      BitSum(a % 2, b % 2);
    }
  }

  lemma {:induction false} BitSum(p: nat, q: nat)
    requires p < 2 && q < 2
    ensures (p + q) % 2 == if p != q then 1 else 0
  {
  }

  // ----- published values -----

  lemma {:induction false} XorZero(n: nat)
    ensures Xor(n, 0) == n
  {
    if n > 0 {
      XorZero(n / 2);
    }
  }

  lemma {:induction false} XorFromHalves(a: nat, b: nat, x: nat)
    requires x / 2 == Xor(a / 2, b / 2) && x % 2 == (a % 2 + b % 2) % 2
    ensures Xor(a, b) == x
  {
    XorHalves(a, b);
    SameHalves(Xor(a, b), x);
  }

  lemma {:induction false} BasisXorA()
    ensures Xor(0xcbf29ce484222325, 0x61) == 0xcbf29ce484222344
  {
    XorZero(0xcbf29ce4842223);
    XorFromHalves(0x197e539c9084446, 0x0, 0x197e539c9084446);
    XorFromHalves(0x32fca739210888c, 0x1, 0x32fca739210888d);
    XorFromHalves(0x65f94e724211119, 0x3, 0x65f94e72421111a);
    XorFromHalves(0xcbf29ce48422232, 0x6, 0xcbf29ce48422234);
    XorFromHalves(0x197e539c90844464, 0xc, 0x197e539c90844468);
    XorFromHalves(0x32fca739210888c9, 0x18, 0x32fca739210888d1);
    XorFromHalves(0x65f94e7242111192, 0x30, 0x65f94e72421111a2);
    XorFromHalves(0xcbf29ce484222325, 0x61, 0xcbf29ce484222344);
  }

  lemma {:induction false} RemainderIs(n: nat, k: nat, r: nat)
    requires n == k * 0x1_0000_0000_0000_0000 + r && r < 0x1_0000_0000_0000_0000
    ensures n % 0x1_0000_0000_0000_0000 == r
  {
  }

  lemma {:induction false} OneByteHashed(b: Byte)
    ensures Hash([]) == OFFSET_BASIS && Hash([b]) == Step(OFFSET_BASIS, b)
  {
    assert [b][1..] == [];
    assert Fold(OFFSET_BASIS, [b]) == Fold(Step(OFFSET_BASIS, b), []);
  }

  /** The published hashes of the empty text and of "a". */
  lemma {:induction false} PublishedHashes()
    ensures Hash([]) == 0xcbf29ce484222325
    ensures Hash([0x61]) == 0xaf63dc4c8601ec8c
  {
    BasisXorA();
    OneByteHashed(0x61);
    RemainderIs(0xcbf29ce484222344 * 0x100000001b3, 0xcbf29ce5de, 0xaf63dc4c8601ec8c);
  }

  // ----- the digits -----

  predicate HexDigit(c: char) {
    '0' <= c <= '9' || 'a' <= c <= 'f'
  }

  predicate HexDigits(t: string) {
    forall c :: c in t ==> HexDigit(c)
  }

  lemma {:induction false} HexTextDigits(n: nat)
    ensures HexDigits(HexText(n))
  {
    if n >= 16 {
      HexTextDigits(n / 16);
    }
    var d := n % 16;
    assert d == 0 || d == 1 || d == 2 || d == 3 || d == 4 || d == 5 || d == 6 || d == 7
        || d == 8 || d == 9 || d == 10 || d == 11 || d == 12 || d == 13 || d == 14 || d == 15;
  }

  lemma {:induction false} ZerosDigits(k: nat)
    ensures HexDigits(Zeros(k))
  {
    if k > 0 {
      ZerosDigits(k - 1);
    }
  }

  lemma {:induction false} PrintedDigits(n: nat)
    ensures HexDigits(Pad16(HexText(n)))
  {
    HexTextDigits(n);
    forall k: nat ensures HexDigits(Zeros(k)) {
      ZerosDigits(k);
    }
  }

  /** The printed hash is the one text of sixteen lower-case hexadecimal digits that spells the hash. */
  lemma {:induction false} PrintedHashIs(bytes: seq<Byte>, hex: string)
    ensures hex == Pad16(HexText(Hash(bytes))) <==> HexDigits(hex) && |hex| == 16 && HexValue(hex) == Hash(bytes)
  {
    var printed := Pad16(HexText(Hash(bytes)));
    PrintedHashSpells(bytes);
    PrintedDigits(Hash(bytes));
    if HexDigits(hex) && |hex| == 16 && HexValue(hex) == Hash(bytes) {
      SpellsOnce(hex, printed);
    }
  }

  lemma {:induction false} SpellsOnce(a: string, b: string)
    requires |a| == |b| && HexDigits(a) && HexDigits(b) && HexValue(a) == HexValue(b)
    ensures a == b
    decreases |a|
  {
    if a != "" {
      var k := |a| - 1;
      DigitsSplit(a, k);
      DigitsSplit(b, k);
      DigitInjective(a[k], b[k]);
      LastDigit(HexValue(a[..k]), DigitValue(a[k]), HexValue(b[..k]), DigitValue(b[k]));
      SpellsOnce(a[..k], b[..k]);
    }
  }

  lemma {:induction false} DigitInjective(c: char, d: char)
    requires HexDigit(c) && HexDigit(d)
    ensures DigitValue(c) < 16 && DigitValue(d) < 16 && (DigitValue(c) == DigitValue(d) <==> c == d)
  {
  }

  lemma {:induction false} DigitsSplit(a: string, k: nat)
    requires |a| == k + 1 && HexDigits(a)
    ensures HexDigits(a[..k]) && HexDigit(a[k]) && a == a[..k] + [a[k]]
  {
    assert forall i :: 0 <= i < |a| ==> a[i] in a;
  }

  lemma {:induction false} LastDigit(x: nat, p: nat, y: nat, q: nat)
    requires p < 16 && q < 16 && x * 16 + p == y * 16 + q
    ensures x == y && p == q
  {
  }
}
