/** Canonical JSON against the text a Rust `BTreeMap` prints: keys in UTF-16 order against keys in byte order. */
module CanonicalBytes {
  import opened Wrappers
  import opened Json
  import opened CanonicalJson
  import opened JsonReader
  import opened CanonicalIdentity
  import Sorting

  // ----- two keys -----

  /** The order of a `BTreeMap<String, _>`: UTF-8 bytes, which is code point order. */
  predicate PointLe(a: string, b: string) {
    if a == "" then true
    else if b == "" then false
    else if a[0] == b[0] then PointLe(a[1..], b[1..])
    else a[0] < b[0]
  }

  /** One character stands in U+E000..U+FFFF and the other beyond U+FFFF. */
  predicate Clash(c: char, d: char) {
    ('\U{E000}' <= c <= '\U{FFFF}' && '\U{10000}' <= d) || ('\U{E000}' <= d <= '\U{FFFF}' && '\U{10000}' <= c)
  }

  function FirstDifference(a: string, b: string): (k: nat)
    ensures k <= |a| && k <= |b|
  {
    if a == "" || b == "" || a[0] != b[0] then 0 else 1 + FirstDifference(a[1..], b[1..])
  }

  lemma {:induction false} CharOrder(c: char, d: char)
    requires c != d
    ensures (UnitKey(c) < UnitKey(d)) == ((c < d) != Clash(c, d))
  {
  }

  /** Their first difference pairs a character of U+E000..U+FFFF with one beyond U+FFFF. */
  predicate KeysClash(a: string, b: string) {
    var k := FirstDifference(a, b);
    k < |a| && k < |b| && Clash(a[k], b[k])
  }

  /** The two orders agree on two keys exactly when the keys do not clash. */
  lemma {:induction false} KeyOrderIsByteOrderIff(a: string, b: string)
    ensures StringLe(a, b) == PointLe(a, b) <==> !KeysClash(a, b)
  {
    if a != "" && b != "" {
      if a[0] == b[0] {
        KeyOrderIsByteOrderIff(a[1..], b[1..]);
      } else {
        CharOrder(a[0], b[0]);
      }
    }
  }

  lemma {:induction false} PointLeTotal(a: string, b: string)
    ensures PointLe(a, b) || PointLe(b, a)
    ensures PointLe(a, b) && PointLe(b, a) ==> a == b
  {
    if a != "" && b != "" && a[0] == b[0] {
      PointLeTotal(a[1..], b[1..]);
      assert a == [a[0]] + a[1..] && b == [b[0]] + b[1..];
    }
  }

  lemma {:induction false} PointLeTransitive(a: string, b: string, c: string)
    requires PointLe(a, b) && PointLe(b, c)
    ensures PointLe(a, c)
  {
    if a != "" && a[0] == b[0] == c[0] {
      PointLeTransitive(a[1..], b[1..], c[1..]);
    }
  }

  // ----- whole values -----

  const POINT_MEMBER_LE := (a: Member, b: Member) => PointLe(a.key, b.key)

  lemma {:induction false} PointMemberLeIsOrder()
    ensures Sorting.TotalPreorder(POINT_MEMBER_LE)
  {
    forall x: Member, y: Member ensures POINT_MEMBER_LE(x, y) || POINT_MEMBER_LE(y, x) {
      PointLeTotal(x.key, y.key);
    }
    forall x: Member, y: Member, z: Member | POINT_MEMBER_LE(x, y) && POINT_MEMBER_LE(y, z)
      ensures POINT_MEMBER_LE(x, z)
    {
      PointLeTransitive(x.key, y.key, z.key);
    }
  }

  /** What `to_string` prints for a value whose objects are held in a `BTreeMap`. */
  function BTreeText(v: Json): string {
    Print(Arrange(POINT_MEMBER_LE, v))
  }

  /** No object, at any level, has two keys that clash. */
  ghost predicate NoClash(v: Json) {
    match v
    case Arr(items) => forall x :: x in items ==> NoClash(x)
    case Obj(members) =>
      && (forall m, n :: m in members && n in members ==> !KeysClash(m.key, n.key))
      && forall m :: m in members ==> NoClash(m.value)
    case _ => true
  }

  lemma {:induction false} InsertAgrees(le: (Member, Member) -> bool, le': (Member, Member) -> bool, x: Member,
                                        xs: seq<Member>)
    requires forall y :: y in xs ==> le(x, y) == le'(x, y)
    ensures Sorting.Insert(le, x, xs) == Sorting.Insert(le', x, xs)
    decreases |xs|
  {
    if xs != [] {
      assert xs[0] in xs;
      InsertAgrees(le, le', x, xs[1..]);
    }
  }

  /** Two orders that agree on the elements sort them alike. */
  lemma {:induction false} SortAgrees(le: (Member, Member) -> bool, le': (Member, Member) -> bool, xs: seq<Member>)
    requires forall x, y :: x in xs && y in xs ==> le(x, y) == le'(x, y)
    ensures Sorting.Sort(le, xs) == Sorting.Sort(le', xs)
    ensures forall x :: x in Sorting.Sort(le, xs) ==> x in xs
    decreases |xs|
  {
    if xs != [] {
      SortAgrees(le, le', xs[1..]);
      assert xs[0] in xs;
      InsertAgrees(le, le', xs[0], Sorting.Sort(le, xs[1..]));
      InsertedIn(le, xs[0], Sorting.Sort(le, xs[1..]));
    }
  }

  lemma {:induction false} InsertedIn(le: (Member, Member) -> bool, x: Member, xs: seq<Member>)
    ensures forall y :: y in Sorting.Insert(le, x, xs) ==> y == x || y in xs
    decreases |xs|
  {
    if xs != [] {
      InsertedIn(le, x, xs[1..]);
    }
  }

  lemma {:induction false} NoClashArrangesAlike(v: Json)
    requires NoClash(v)
    ensures Arrange(MEMBER_LE, v) == Arrange(POINT_MEMBER_LE, v)
    decreases v
  {
    match v {
      case Arr(items) =>
        forall i | 0 <= i < |items|
          ensures ArrangeItems(MEMBER_LE, items)[i] == ArrangeItems(POINT_MEMBER_LE, items)[i]
        {
          ArrangedItemIs(MEMBER_LE, items, i);
          ArrangedItemIs(POINT_MEMBER_LE, items, i);
          NoClashArrangesAlike(items[i]);
        }
      case Obj(members) =>
        var xs := ArrangeMembers(MEMBER_LE, members);
        forall i | 0 <= i < |members| ensures xs[i] == ArrangeMembers(POINT_MEMBER_LE, members)[i] {
          NoClashArrangesAlike(members[i].value);
        }
        assert xs == ArrangeMembers(POINT_MEMBER_LE, members);
        forall x, y | x in xs && y in xs ensures MEMBER_LE(x, y) == POINT_MEMBER_LE(x, y) {
          var m := ArrangedMemberOf(MEMBER_LE, members, x);
          var n := ArrangedMemberOf(MEMBER_LE, members, y);
          KeyOrderIsByteOrderIff(m.key, n.key);
        }
        SortAgrees(MEMBER_LE, POINT_MEMBER_LE, xs);
      case _ =>
    }
  }

  /** Members that are in order both ways have no two keys that clash. */
  lemma {:induction false} BothOrdersNoClash(ms: seq<Member>, x: Member, y: Member)
    requires Sorting.SortedBy(MEMBER_LE, ms) && Sorting.SortedBy(POINT_MEMBER_LE, ms) && x in ms && y in ms
    ensures !KeysClash(x.key, y.key)
  {
    var i :| 0 <= i < |ms| && ms[i] == x;
    var j :| 0 <= j < |ms| && ms[j] == y;
    KeyOrderIsByteOrderIff(x.key, y.key);
    StringLeTotal(x.key, y.key);
    PointLeTotal(x.key, y.key);
    assert i < j ==> MEMBER_LE(ms[i], ms[j]) && POINT_MEMBER_LE(ms[i], ms[j]);
    assert j < i ==> MEMBER_LE(ms[j], ms[i]) && POINT_MEMBER_LE(ms[j], ms[i]);
  }

  lemma {:induction false} ArrangedAlikeNoClash(v: Json)
    requires WellFormed(v) && Arrange(MEMBER_LE, v) == Arrange(POINT_MEMBER_LE, v)
    ensures NoClash(v)
    decreases v
  {
    match v {
      case Arr(items) =>
        forall x | x in items ensures NoClash(x) {
          var i :| 0 <= i < |items| && items[i] == x;
          ArrangedItemIs(MEMBER_LE, items, i);
          ArrangedItemIs(POINT_MEMBER_LE, items, i);
          ArrangedAlikeNoClash(x);
        }
      case Obj(members) =>
        NormalObject(members);
        PointMemberLeIsOrder();
        ArrangedObject(POINT_MEMBER_LE, members);
        var sorted := Normal(v).members;
        forall m, n | m in members && n in members ensures !KeysClash(m.key, n.key) {
          ArrangedMemberIn(MEMBER_LE, members, m);
          ArrangedMemberIn(MEMBER_LE, members, n);
          BothOrdersNoClash(sorted, Member(m.key, Normal(m.value)), Member(n.key, Normal(n.value)));
        }
        forall m | m in members ensures NoClash(m.value) {
          ArrangedMemberIn(MEMBER_LE, members, m);
          ArrangedMemberIn(POINT_MEMBER_LE, members, m);
          LookupOf(sorted, Member(m.key, Normal(m.value)));
          LookupOf(sorted, Member(m.key, Arrange(POINT_MEMBER_LE, m.value)));
          ArrangedAlikeNoClash(m.value);
        }
      case _ =>
    }
  }

  /**
   * Canonical JSON is the text of the same value over `BTreeMap`s exactly when no object in it, at any level, has two
   * keys whose first difference pairs a character of U+E000..U+FFFF with one beyond U+FFFF.
   */
  lemma {:induction false} CanonicalIsBTreeTextIff(v: Json)
    requires WellFormed(v)
    ensures Canonical(v) == BTreeText(v) <==> NoClash(v)
  {
    var a, b := Arrange(MEMBER_LE, v), Arrange(POINT_MEMBER_LE, v);
    CanonicalIsPrintOfNormal(v);
    if NoClash(v) {
      NoClashArrangesAlike(v);
    }
    if Print(a) == Print(b) {
      PointMemberLeIsOrder();
      ArrangedNumbersOk(POINT_MEMBER_LE, v);
      NormalNumbersOk(v);
      ReadPrinted(a, "");
      ReadPrinted(b, "");
      assert Print(a) + "" == Print(a) && Print(b) + "" == Print(b);
      ArrangedAlikeNoClash(v);
    }
  }

  /** An object whose two texts, and so the inputs of the two drift hashes, differ. */
  lemma {:induction false} BTreeTextCanDiffer()
    ensures var v := Obj([Member("\U{E000}", Null), Member("\U{10000}", Null)]);
            WellFormed(v) && Canonical(v) != BTreeText(v)
  {
    var m, n := Member("\U{E000}", Null), Member("\U{10000}", Null);
    var v := Obj([m, n]);
    assert KeysClash(m.key, n.key) && m in v.members && n in v.members;
    CanonicalIsBTreeTextIff(v);
  }
}
