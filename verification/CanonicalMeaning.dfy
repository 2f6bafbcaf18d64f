/** What the printer and the key order of canonical JSON are, apart from how they are computed. */
module CanonicalMeaning {
  import opened Wrappers
  import opened Json
  import opened CanonicalJson
  import opened JsonReader
  import opened CanonicalIdentity

  // ----- the escapes -----

  /** Between quotes, `t` is read as the one character `c`. */
  predicate ReadsAs(t: string, c: char) {
    ReadText(t + "\"") == Some(([c], ""))
  }

  predicate LowerHex(t: string) {
    forall d :: d in t ==> !('A' <= d <= 'F')
  }

  lemma {:induction false} EscapeReadsBack(c: char)
    ensures ReadsAs(EscapeChar(c), c) && (|EscapeChar(c)| == 6 ==> LowerHex(EscapeChar(c)))
  {
    var e := EscapeChar(c);
    QuoteAlone();
    assert [c] + "" == [c];
    ReadEscapedChar(c, "\"");
    if |e| == 6 {
      LowerDigit(c as nat / 16);
      LowerDigit(c as nat % 16);
    }
  }

  lemma {:induction false} LowerDigit(n: nat)
    requires n < 16
    ensures !('A' <= HexDigit(n) <= 'F')
  {
    assert n == 0 || n == 1 || n == 2 || n == 3 || n == 4 || n == 5 || n == 6 || n == 7
        || n == 8 || n == 9 || n == 10 || n == 11 || n == 12 || n == 13 || n == 14 || n == 15;
  }

  lemma {:induction false} NothingRead(s: string)
    requires ReadText(s) == Some(("", ""))
    ensures s == "\""
  {
    assert s[0] == '"' && s[1..] == "";
  }

  lemma {:induction false} QuoteAlone()
    ensures "" + "\"" == "\"" && ReadText("\"") == Some(("", ""))
  {
    assert "\""[1..] == "";
  }

  /** How a text that reads as one character looks: that character, or one escape. */
  lemma {:induction false} OneCharacter(t: string, c: char)
    requires ReadsAs(t, c)
    ensures t != ""
    ensures t[0] != '\\' ==> t == [c] && c >= ' ' && c != '"' && c != '\\'
    ensures t[0] == '\\' ==> ReadEscape(t + "\"") == Some((c, |t|))
  {
    var s := t + "\"";
    QuoteAlone();
    if t[0] == '\\' {
      var (d, n) := ReadEscape(s).value;
      var (more, rest) := ReadText(s[n..]).value;
      assert ([d] + more)[0] == d && ([d] + more)[1..] == more;
      NothingRead(s[n..]);
      assert |s| == n + 1;
    } else {
      var (more, rest) := ReadText(s[1..]).value;
      assert ([s[0]] + more)[0] == s[0] && ([s[0]] + more)[1..] == more;
      NothingRead(s[1..]);
      assert |s| == 2;
    }
  }

  lemma {:induction false} NoShorter(t: string, c: char)
    requires ReadsAs(t, c)
    ensures |EscapeChar(c)| <= |t|
  {
    OneCharacter(t, c);
  }

  lemma {:induction false} LowerHexIs(d: char, n: nat)
    requires HexValue(d) == Some(n) && !('A' <= d <= 'F')
    ensures n < 16 && d == HexDigit(n)
  {
    HexRoundTrip(n);
    assert n == 0 || n == 1 || n == 2 || n == 3 || n == 4 || n == 5 || n == 6 || n == 7
        || n == 8 || n == 9 || n == 10 || n == 11 || n == 12 || n == 13 || n == 14 || n == 15;
  }

  /** A control character's escape with four lower-case digits. */
  lemma {:induction false} LowerEscapeIs(t: string, c: char)
    requires ReadsAs(t, c) && |t| == 6 && |EscapeChar(c)| == 6 && LowerHex(t)
    ensures t == EscapeChar(c)
  {
    var p, q, x, y := DigitsOf(t, c);
    assert c as nat == ((p * 16 + q) * 16 + x) * 16 + y < 32;
    assert p == 0 && q == 0 && x == c as nat / 16 && y == c as nat % 16;
    assert t == [t[0], t[1], t[2], t[3], t[4], t[5]];
  }

  lemma {:induction false} DigitsOf(t: string, c: char) returns (p: nat, q: nat, x: nat, y: nat)
    requires ReadsAs(t, c) && |t| == 6 && LowerHex(t)
    ensures p < 16 && q < 16 && x < 16 && y < 16 && c as nat == ((p * 16 + q) * 16 + x) * 16 + y
    ensures t == ['\\', 'u', HexDigit(p), HexDigit(q), HexDigit(x), HexDigit(y)]
  {
    OneCharacter(t, c);
    var s := t + "\"";
    assert s[1] == t[1] && s[2] == t[2] && s[3] == t[3] && s[4] == t[4] && s[5] == t[5];
    assert t[2] in t && t[3] in t && t[4] in t && t[5] in t;
    p, q, x, y := HexValue(t[2]).value, HexValue(t[3]).value, HexValue(t[4]).value, HexValue(t[5]).value;
    LowerHexIs(t[2], p);
    LowerHexIs(t[3], q);
    LowerHexIs(t[4], x);
    LowerHexIs(t[5], y);
    assert t == [t[0], t[1], t[2], t[3], t[4], t[5]];
  }

  /** The shortest text that is read as `c`, and with lower-case digits where there are any. */
  ghost predicate Shortest(t: string, c: char) {
    && ReadsAs(t, c) && (forall u :: ReadsAs(u, c) ==> |t| <= |u|)
    && (|t| == 6 ==> LowerHex(t))
  }

  /**
   * Each character is printed as the shortest text that a JSON reader reads as it: itself where that can stand in a
   * string, else a two-character escape where there is one, else four lower-case hexadecimal digits.
   */
  lemma {:induction false} EscapeIsShortest(c: char, t: string)
    ensures t == EscapeChar(c) <==> Shortest(t, c)
  {
    EscapeReadsBack(c);
    forall u | ReadsAs(u, c) ensures |EscapeChar(c)| <= |u| {
      NoShorter(u, c);
    }
    if Shortest(t, c) {
      OneCharacter(t, c);
      assert |t| <= |EscapeChar(c)|;
      NoShorter(t, c);
      if |t| == 6 {
        LowerEscapeIs(t, c);
      } else {
        ShortIs(t, c);
      }
    }
  }

  lemma {:induction false} ShortIs(t: string, c: char)
    requires ReadsAs(t, c) && |t| == |EscapeChar(c)| < 6
    ensures t == EscapeChar(c)
  {
    OneCharacter(t, c);
    if t[0] == '\\' {
      assert (t + "\"")[1] == t[1];
      assert t == [t[0], t[1]];
    }
  }

  // ----- the order of keys -----

  /** UTF-16 (section 2 of RFC 2781). */
  function Units(s: string): seq<nat> {
    if s == "" then [] else UnitsOf(s[0]) + Units(s[1..])
  }

  function UnitsOf(c: char): seq<nat> {
    var n := c as nat;
    if n < 0x1_0000 then [n] else [0xD800 + (n - 0x1_0000) / 0x400, 0xDC00 + (n - 0x1_0000) % 0x400]
  }

  /** A beginning of `b`, or smaller where they first differ. */
  ghost predicate Precedes(a: seq<nat>, b: seq<nat>) {
    a <= b || exists k :: 0 <= k < |a| && k < |b| && a[..k] == b[..k] && a[k] < b[k]
  }

  lemma {:induction false} PrecedesAfter(p: seq<nat>, a: seq<nat>, b: seq<nat>)
    ensures Precedes(p + a, p + b) <==> Precedes(a, b)
  {
    var x, y := p + a, p + b;
    assert x <= y <==> a <= b by {
      assert x[|p|..] == a && y[|p|..] == b;
      if x <= y { assert y[..|x|][|p|..] == b[..|a|]; }
      if a <= b { assert b[..|a|] == a && y[..|x|] == p + b[..|a|]; }
    }
    if k :| 0 <= k < |x| && k < |y| && x[..k] == y[..k] && x[k] < y[k] {
      assert k >= |p|;
      assert a[..k - |p|] == x[..k][|p|..] && b[..k - |p|] == y[..k][|p|..];
      assert a[k - |p|] < b[k - |p|];
    }
    if k :| 0 <= k < |a| && k < |b| && a[..k] == b[..k] && a[k] < b[k] {
      assert x[..|p| + k] == p + a[..k] && y[..|p| + k] == p + b[..k];
      assert x[|p| + k] < y[|p| + k];
    }
  }

  lemma {:induction false} FirstDiffers(a: seq<nat>, b: seq<nat>, k: nat)
    requires k < |a| && k < |b| && a[..k] == b[..k] && a[k] != b[k]
    ensures Precedes(a, b) <==> a[k] < b[k]
  {
    assert a <= b ==> a[k] == b[k];
    if j :| 0 <= j < |a| && j < |b| && a[..j] == b[..j] && a[j] < b[j] {
      assert j < k ==> a[j] == a[..k][j] && b[j] == b[..k][j];
      assert k < j ==> a[k] == a[..j][k] && b[k] == b[..j][k];
    }
  }

  lemma {:induction false} CharsDiffer(c: char, d: char, x: seq<nat>, y: seq<nat>)
    requires c != d
    ensures Precedes(UnitsOf(c) + x, UnitsOf(d) + y) <==> UnitKey(c) < UnitKey(d)
  {
    var a, b := UnitsOf(c) + x, UnitsOf(d) + y;
    if UnitsOf(c)[0] == UnitsOf(d)[0] {
      PairsDiffer(c, d);
      assert a[0] == b[0] && a[..1] == [a[0]] && b[..1] == [b[0]];
      FirstDiffers(a, b, 1);
    } else {
      assert a[0] == UnitsOf(c)[0] && b[0] == UnitsOf(d)[0];
      FirstDiffers(a, b, 0);
    }
  }

  lemma {:induction false} PairsDiffer(c: char, d: char)
    requires c != d && UnitsOf(c)[0] == UnitsOf(d)[0]
    ensures |UnitsOf(c)| == |UnitsOf(d)| == 2 && UnitsOf(c)[1] != UnitsOf(d)[1]
    ensures UnitKey(c) < UnitKey(d) <==> UnitsOf(c)[1] < UnitsOf(d)[1]
  {
  }

  /** Keys are ordered as their UTF-16 code units are, by the first unit in which they differ. */
  lemma {:induction false} KeysOrderedByUnits(a: string, b: string)
    ensures StringLe(a, b) <==> Precedes(Units(a), Units(b))
  {
    if a == "" {
      assert Units(a) <= Units(b);
    } else if b != "" {
      if a[0] == b[0] {
        KeysOrderedByUnits(a[1..], b[1..]);
        PrecedesAfter(UnitsOf(a[0]), Units(a[1..]), Units(b[1..]));
      } else {
        CharsDiffer(a[0], b[0], Units(a[1..]), Units(b[1..]));
      }
    }
  }

  // ----- the key of a call -----

  /** A call without arguments, or with null for them, is the call with an empty object; others stand for themselves. */
  lemma {:induction false} AbsentArgumentsAreEmpty(tool: string, args: Json)
    ensures KeyText(tool, None) == KeyText(tool, Some(Null)) == tool + "\0{}"
    ensures args != Null ==> KeyText(tool, Some(args)) == tool + "\0" + Canonical(args)
  {
    assert Canonical(Obj([])) == "{}";
    assert tool + "\0" + "{}" == tool + "\0{}";
  }
}
