/** The one-edit test of the tool search, against the Levenshtein distance. */
module OneEdit {

  function Min(a: nat, b: nat): nat {
    if a <= b then a else b
  }

  /** The fewest insertions, deletions and substitutions of one character that turn `a` into `b`. */
  function Distance(a: string, b: string): nat
    decreases |a| + |b|
  {
    if a == "" then |b|
    else if b == "" then |a|
    else if a[0] == b[0] then Distance(a[1..], b[1..])
    else 1 + Min(Distance(a[1..], b[1..]), Min(Distance(a[1..], b), Distance(a, b[1..])))
  }

  lemma {:induction false} DistanceSymmetric(a: string, b: string)
    ensures Distance(a, b) == Distance(b, a)
    decreases |a| + |b|
  {
    if a != "" && b != "" {
      DistanceSymmetric(a[1..], b[1..]);
      DistanceSymmetric(a[1..], b);
      DistanceSymmetric(a, b[1..]);
    }
  }

  lemma {:induction false} ZeroIsEqual(a: string, b: string)
    ensures Distance(a, b) == 0 <==> a == b
    decreases |a| + |b|
  {
    if a != "" && b != "" {
      ZeroIsEqual(a[1..], b[1..]);
      assert a == [a[0]] + a[1..] && b == [b[0]] + b[1..];
    }
  }

  lemma {:induction false} LengthsBound(a: string, b: string)
    ensures |a| <= |b| + Distance(a, b) && |b| <= |a| + Distance(a, b)
    decreases |a| + |b|
  {
    if a != "" && b != "" {
      LengthsBound(a[1..], b[1..]);
      LengthsBound(a[1..], b);
      LengthsBound(a, b[1..]);
    }
  }

  lemma {:induction false} SharedPrefix(a: string, b: string, i: nat)
    requires i <= |a| && i <= |b| && a[..i] == b[..i]
    ensures Distance(a, b) == Distance(a[i..], b[i..])
    ensures a == b <==> a[i..] == b[i..]
    decreases i
  {
    assert a == a[..i] + a[i..] && b == b[..i] + b[i..];
    if i > 0 {
      assert a[0] == a[..i][0] && b[0] == b[..i][0];
      assert a[1..][..i - 1] == a[..i][1..] && b[1..][..i - 1] == b[..i][1..];
      SharedPrefix(a[1..], b[1..], i - 1);
      assert a[1..][i - 1..] == a[i..] && b[1..][i - 1..] == b[i..];
    }
  }

  /**
   * Where the strings part, one edit is left exactly when dropping a character on one side, or on both, makes them
   * equal.
   */
  lemma {:induction false} OneEditAtMismatch(a: string, b: string)
    requires a != "" && b != "" && a[0] != b[0]
    ensures Distance(a, b) <= 1 <==> a[1..] == b[1..] || a[1..] == b || a == b[1..]
  {
    ZeroIsEqual(a[1..], b[1..]);
    ZeroIsEqual(a[1..], b);
    ZeroIsEqual(a, b[1..]);
  }

  /** One edit at position `i`: a character of `a` left out, one of `b` left out, or one changed. */
  predicate EditAt(a: string, b: string, i: nat) {
    || (i < |a| && a[..i] + a[i + 1..] == b)
    || (i < |b| && b[..i] + b[i + 1..] == a)
    || (i < |a| && i < |b| && a[..i] == b[..i] && a[i + 1..] == b[i + 1..])
  }

  /** A distance of at most one means that the strings are equal, or that one edit at one position makes them so. */
  lemma {:induction false} AtMostOneIsOneEdit(a: string, b: string)
    ensures Distance(a, b) <= 1 <==> a == b || exists i :: EditAt(a, b, i)
    decreases |a| + |b|
  {
    if a == "" || b == "" {
      if |a| == 1 || |b| == 1 {
        assert EditAt(a, b, 0);
      }
    } else if a[0] == b[0] {
      AtMostOneIsOneEdit(a[1..], b[1..]);
      assert a == [a[0]] + a[1..] && b == [b[0]] + b[1..];
      if i: nat :| EditAt(a[1..], b[1..], i) {
        EditLater(a, b, i);
      }
      if i: nat :| EditAt(a, b, i) {
        EditEarlier(a, b, i);
      }
    } else {
      OneEditAtMismatch(a, b);
      EditAtFront(a, b);
    }
  }

  lemma {:induction false} EditLater(a: string, b: string, i: nat)
    requires a != "" && b != "" && a[0] == b[0] && EditAt(a[1..], b[1..], i)
    ensures EditAt(a, b, i + 1)
  {
    if i < |a| - 1 {
      EditShifts(a, b, i);
    }
    if i < |b| - 1 {
      EditShifts(b, a, i);
    }
  }

  /** Leaving out a character behind the first. */
  lemma {:induction false} EditShifts(a: string, b: string, i: nat)
    requires a != "" && b != "" && a[0] == b[0] && i < |a| - 1
    ensures a[..i + 1] + a[i + 2..] == b <==> a[1..][..i] + a[1..][i + 1..] == b[1..]
    ensures i < |b| - 1 ==> (a[..i + 1] == b[..i + 1] <==> a[1..][..i] == b[1..][..i])
    ensures a[1..][i + 1..] == a[i + 2..]
  {
    assert a[..i + 1] == [a[0]] + a[1..][..i];
  }

  /** An edit behind a common first character, or at it. */
  lemma {:induction false} EditEarlier(a: string, b: string, i: nat)
    requires a != "" && b != "" && a[0] == b[0] && EditAt(a, b, i)
    ensures a == b || exists j :: EditAt(a[1..], b[1..], j)
  {
    if i > 0 {
      if i < |a| {
        EditShifts(a, b, i - 1);
      }
      if i < |b| {
        EditShifts(b, a, i - 1);
      }
      assert EditAt(a[1..], b[1..], i - 1);
    } else if a[1..] == b {
      assert EditAt(a[1..], b[1..], 0);
    } else if b[1..] == a {
      assert EditAt(a[1..], b[1..], 0);
    }
  }

  lemma {:induction false} EditKeepsFirst(a: string, b: string, i: nat)
    requires a != "" && b != "" && a[0] != b[0]
    ensures i > 0 ==> !EditAt(a, b, i)
  {
    assert 0 < i < |a| ==> (a[..i] + a[i + 1..])[0] == a[0] && a[..i][0] == a[0];
    assert 0 < i < |b| ==> (b[..i] + b[i + 1..])[0] == b[0] && b[..i][0] == b[0];
  }

  lemma {:induction false} EditAtFront(a: string, b: string)
    requires a != "" && b != "" && a[0] != b[0]
    ensures (exists i :: EditAt(a, b, i)) <==> a[1..] == b[1..] || a[1..] == b || a == b[1..]
  {
    if i: nat :| EditAt(a, b, i) {
      EditKeepsFirst(a, b, i);
      assert EditAt(a, b, 0);
    }
    if a[1..] == b[1..] || a[1..] == b || a == b[1..] {
      assert EditAt(a, b, 0);
    }
  }

  /** `s.slice(k)` */
  function Slice(s: string, k: nat): string {
    if k <= |s| then s[k..] else ""
  }

  method WithinOneEdit(a: string, b: string) returns (close: bool)
    ensures close <==> Distance(a, b) <= 1
  {
    ZeroIsEqual(a, b);
    LengthsBound(a, b);
    if a == b {
      return true;
    }
    if |a| > |b| + 1 || |b| > |a| + 1 {
      return false;
    }
    var i := 0;
    while i < |a| && i < |b| && a[i] == b[i]
      invariant i <= |a| && i <= |b| && a[..i] == b[..i]
    {
      i := i + 1;
    }
    SharedPrefix(a, b, i);
    if i < |a| && i < |b| {
      OneEditAtMismatch(a[i..], b[i..]);
      assert a[i..][1..] == a[i + 1..] && b[i..][1..] == b[i + 1..];
    }
    if |a| == |b| {
      return Slice(a, i + 1) == Slice(b, i + 1);
    }
    var shorter, longer := if |a| < |b| then a else b, if |a| < |b| then b else a;
    return Slice(shorter, i) == Slice(longer, i + 1);
  }
}
