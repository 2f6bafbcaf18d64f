/** Canonical JSON is equal exactly for values that are equal up to member order, so the refusal key names one call. */
module CanonicalIdentity {
  import opened Wrappers
  import opened Json
  import opened CanonicalJson
  import opened JsonReader
  import Sorting

  /** Two members of one object never share a key. */
  ghost predicate DistinctKeys(members: seq<Member>) {
    forall i, j :: 0 <= i < j < |members| ==> members[i].key != members[j].key
  }

  /** A value as JavaScript can hold it: keys are distinct and numbers are spelled as numbers, at every level. */
  ghost predicate WellFormed(v: Json) {
    match v
    case Num(digits) => IsNumber(digits)
    case Arr(items) => forall x :: x in items ==> WellFormed(x)
    case Obj(members) => DistinctKeys(members) && forall m :: m in members ==> WellFormed(m.value)
    case _ => true
  }

  /** Equal, ignoring the order of members at every level. */
  ghost predicate Same(a: Json, b: Json)
    decreases a
  {
    match (a, b)
    case (Arr(xs), Arr(ys)) => |xs| == |ys| && forall i :: 0 <= i < |xs| ==> Same(xs[i], ys[i])
    case (Obj(ms), Obj(ns)) =>
      && (forall m :: m in ms ==> Lookup(ns, m.key).Some? && Same(m.value, Lookup(ns, m.key).value))
      && (forall n :: n in ns ==> Lookup(ms, n.key).Some?)
    case _ => a == b
  }

  // ----- members and keys -----

  lemma {:induction false} LookupFinds(members: seq<Member>, key: string)
    ensures var r := Lookup(members, key);
            if r.Some? then Member(key, r.value) in members else forall m :: m in members ==> m.key != key
  {
    if members != [] && members[0].key != key {
      LookupFinds(members[1..], key);
    }
  }

  lemma {:induction false} LookupOf(members: seq<Member>, m: Member)
    requires DistinctKeys(members) && m in members
    ensures Lookup(members, m.key) == Some(m.value)
  {
    if members[0] != m {
      var i :| 0 < i < |members| && members[i] == m;
      assert members[1..][i - 1] == m;
      LookupOf(members[1..], m);
    }
  }

  lemma {:induction false} MemberLeIsOrder()
    ensures Sorting.TotalPreorder(MEMBER_LE)
  {
    forall x: Member, y: Member ensures MEMBER_LE(x, y) || MEMBER_LE(y, x) {
      StringLeTotal(x.key, y.key);
    }
    forall x: Member, y: Member, z: Member | MEMBER_LE(x, y) && MEMBER_LE(y, z) ensures MEMBER_LE(x, z) {
      StringLeTransitive(x.key, y.key, z.key);
    }
  }

  /** Keys that are distinct stay so when members are permuted. */
  lemma {:induction false} DistinctKeysKept(ms: seq<Member>, ns: seq<Member>)
    requires DistinctKeys(ms) && multiset(ms) == multiset(ns)
    ensures DistinctKeys(ns)
  {
    assert Sorting.NoDuplicates(ms);
    Sorting.PermutationKeepsNoDuplicates(ms, ns);
    forall i, j | 0 <= i < j < |ns| ensures ns[i].key != ns[j].key {
      assert ns[i] in multiset(ms) && ns[j] in multiset(ms);
      var x :| 0 <= x < |ms| && ms[x] == ns[i];
      var y :| 0 <= y < |ms| && ms[y] == ns[j];
    }
  }

  /** Members in key order are determined by which members there are. */
  lemma {:induction false} SortedMembersUnique(ms: seq<Member>, ns: seq<Member>)
    requires Sorting.SortedBy(MEMBER_LE, ms) && Sorting.SortedBy(MEMBER_LE, ns)
    requires DistinctKeys(ms) && DistinctKeys(ns)
    requires forall m :: m in ms <==> m in ns
    ensures ms == ns
    decreases |ms|
  {
    if ms == [] {
      assert forall i :: 0 <= i < |ns| ==> ns[i] in ms;
    } else {
      assert ms[0] in ns && ns != [] && ns[0] in ms;
      FirstIsLeast(ms, ns[0]);
      FirstIsLeast(ns, ms[0]);
      StringLeTotal(ms[0].key, ns[0].key);
      LookupOf(ms, ms[0]);
      LookupOf(ms, ns[0]);
      assert ms[0] == ns[0];
      TailIs(ms);
      TailIs(ns);
      SortedMembersUnique(ms[1..], ns[1..]);
    }
  }

  lemma {:induction false} FirstIsLeast(ms: seq<Member>, m: Member)
    requires Sorting.SortedBy(MEMBER_LE, ms) && m in ms
    ensures StringLe(ms[0].key, m.key)
  {
    StringLeTotal(m.key, m.key);
    var i :| 0 <= i < |ms| && ms[i] == m;
    assert i > 0 ==> MEMBER_LE(ms[0], ms[i]);
  }

  lemma {:induction false} TailIs(ms: seq<Member>)
    requires ms != [] && DistinctKeys(ms) && Sorting.SortedBy(MEMBER_LE, ms)
    ensures DistinctKeys(ms[1..]) && Sorting.SortedBy(MEMBER_LE, ms[1..])
    ensures forall m :: m in ms[1..] <==> m in ms && m != ms[0]
  {
    assert ms == [ms[0]] + ms[1..];
  }

  /** What arranging an object yields: the same keys, arranged values, in the given order. */
  lemma {:induction false} ArrangedObject(le: (Member, Member) -> bool, ms: seq<Member>)
    requires DistinctKeys(ms) && Sorting.TotalPreorder(le)
    ensures var ns := Arrange(le, Obj(ms)).members;
            && DistinctKeys(ns) && Sorting.SortedBy(le, ns)
            && (forall n :: n in ns <==> n in ArrangeMembers(le, ms))
  {
    Sorting.SortIsSortedPermutation(le, ArrangeMembers(le, ms));
    DistinctKeysKept(ArrangeMembers(le, ms), Sorting.Sort(le, ArrangeMembers(le, ms)));
  }

  lemma {:induction false} NormalObject(ms: seq<Member>)
    requires DistinctKeys(ms)
    ensures var ns := Normal(Obj(ms)).members;
            && DistinctKeys(ns) && Sorting.SortedBy(MEMBER_LE, ns)
            && (forall n :: n in ns <==> n in ArrangeMembers(MEMBER_LE, ms))
  {
    MemberLeIsOrder();
    ArrangedObject(MEMBER_LE, ms);
  }

  lemma {:induction false} ArrangedMemberOf(le: (Member, Member) -> bool, ms: seq<Member>, n: Member)
    returns (m: Member)
    requires n in ArrangeMembers(le, ms)
    ensures m in ms && n == Member(m.key, Arrange(le, m.value))
  {
    var i :| 0 <= i < |ms| && ArrangeMembers(le, ms)[i] == n;
    m := ms[i];
  }

  lemma {:induction false} ArrangedMemberIn(le: (Member, Member) -> bool, ms: seq<Member>, m: Member)
    requires m in ms
    ensures Member(m.key, Arrange(le, m.value)) in ArrangeMembers(le, ms)
  {
    var i :| 0 <= i < |ms| && ms[i] == m;
    assert ArrangeMembers(le, ms)[i] == Member(m.key, Arrange(le, m.value));
  }

  lemma {:induction false} ArrangedItemIs(le: (Member, Member) -> bool, items: seq<Json>, i: nat)
    requires i < |items|
    ensures ArrangeItems(le, items)[i] == Arrange(le, items[i])
  {
    if i > 0 {
      ArrangedItemIs(le, items[1..], i - 1);
    }
  }

  // ----- equal normal forms are equality up to member order -----

  lemma {:induction false} SameHaveSameNormal(a: Json, b: Json)
    requires WellFormed(a) && WellFormed(b) && Same(a, b)
    ensures Normal(a) == Normal(b)
    decreases a
  {
    match (a, b) {
      case (Arr(xs), Arr(ys)) =>
        forall i | 0 <= i < |xs| ensures ArrangeItems(MEMBER_LE, xs)[i] == ArrangeItems(MEMBER_LE, ys)[i] {
          ArrangedItemIs(MEMBER_LE, xs, i);
          ArrangedItemIs(MEMBER_LE, ys, i);
          SameHaveSameNormal(xs[i], ys[i]);
        }
        assert ArrangeItems(MEMBER_LE, xs) == ArrangeItems(MEMBER_LE, ys);
      case (Obj(ms), Obj(ns)) =>
        NormalObject(ms);
        NormalObject(ns);
        forall x ensures x in ArrangeMembers(MEMBER_LE, ms) <==> x in ArrangeMembers(MEMBER_LE, ns) {
          if x in ArrangeMembers(MEMBER_LE, ms) {
            var m := ArrangedMemberOf(MEMBER_LE, ms, x);
            LookupFinds(ns, m.key);
            var v := Lookup(ns, m.key).value;
            SameHaveSameNormal(m.value, v);
            ArrangedMemberIn(MEMBER_LE, ns, Member(m.key, v));
          }
          if x in ArrangeMembers(MEMBER_LE, ns) {
            var n := ArrangedMemberOf(MEMBER_LE, ns, x);
            LookupFinds(ms, n.key);
            var m := Member(n.key, Lookup(ms, n.key).value);
            assert m in ms;
            LookupOf(ns, n);
            SameHaveSameNormal(m.value, n.value);
            ArrangedMemberIn(MEMBER_LE, ms, m);
          }
        }
        SortedMembersUnique(Normal(a).members, Normal(b).members);
      case _ =>
    }
  }

  lemma {:induction false} SameNormalAreSame(a: Json, b: Json)
    requires WellFormed(a) && WellFormed(b) && Normal(a) == Normal(b)
    ensures Same(a, b)
    decreases a
  {
    match (a, b) {
      case (Arr(xs), Arr(ys)) =>
        forall i | 0 <= i < |xs| ensures Same(xs[i], ys[i]) {
          ArrangedItemIs(MEMBER_LE, xs, i);
          ArrangedItemIs(MEMBER_LE, ys, i);
          SameNormalAreSame(xs[i], ys[i]);
        }
      case (Obj(ms), Obj(ns)) =>
        NormalObject(ms);
        NormalObject(ns);
        forall m | m in ms ensures Lookup(ns, m.key).Some? && Same(m.value, Lookup(ns, m.key).value) {
          ArrangedMemberIn(MEMBER_LE, ms, m);
          var n := ArrangedMemberOf(MEMBER_LE, ns, Member(m.key, Normal(m.value)));
          LookupOf(ns, n);
          SameNormalAreSame(m.value, n.value);
        }
        forall n | n in ns ensures Lookup(ms, n.key).Some? {
          ArrangedMemberIn(MEMBER_LE, ns, n);
          var m := ArrangedMemberOf(MEMBER_LE, ms, Member(n.key, Normal(n.value)));
          LookupOf(ms, m);
        }
      case _ =>
    }
  }

  lemma {:induction false} ArrangedNumbersOk(le: (Member, Member) -> bool, v: Json)
    requires WellFormed(v) && Sorting.TotalPreorder(le)
    ensures NumbersOk(Arrange(le, v))
    decreases v
  {
    match v {
      case Arr(items) =>
        forall x | x in ArrangeItems(le, items) ensures NumbersOk(x) {
          var i :| 0 <= i < |items| && ArrangeItems(le, items)[i] == x;
          ArrangedItemIs(le, items, i);
          ArrangedNumbersOk(le, items[i]);
        }
      case Obj(members) =>
        ArrangedObject(le, members);
        forall n | n in Arrange(le, v).members ensures NumbersOk(n.value) {
          var m := ArrangedMemberOf(le, members, n);
          ArrangedNumbersOk(le, m.value);
        }
      case _ =>
    }
  }

  lemma {:induction false} NormalNumbersOk(v: Json)
    requires WellFormed(v)
    ensures NumbersOk(Normal(v))
  {
    MemberLeIsOrder();
    ArrangedNumbersOk(MEMBER_LE, v);
  }

  /** Reading canonical JSON gives the value with its members in key order. */
  lemma {:induction false} ReadCanonical(v: Json)
    requires WellFormed(v)
    ensures ReadValue(Canonical(v)) == Some((Normal(v), ""))
  {
    CanonicalIsPrintOfNormal(v);
    NormalNumbersOk(v);
    ReadPrinted(Normal(v), "");
    assert Print(Normal(v)) + "" == Print(Normal(v));
  }

  /** Canonical JSON is injective up to member order, and blind to it. */
  lemma {:induction false} CanonicalIdentifies(a: Json, b: Json)
    requires WellFormed(a) && WellFormed(b)
    ensures Canonical(a) == Canonical(b) <==> Same(a, b)
  {
    if Canonical(a) == Canonical(b) {
      ReadCanonical(a);
      ReadCanonical(b);
      SameNormalAreSame(a, b);
    }
    if Same(a, b) {
      SameHaveSameNormal(a, b);
      CanonicalIsPrintOfNormal(a);
      CanonicalIsPrintOfNormal(b);
    }
  }

  // ----- the refusal key before hashing -----

  /** `args ?? {}` */
  function ArgsOrEmpty(args: Option<Json>): Json {
    if args.None? || args.value.Null? then Obj([]) else args.value
  }

  /** What the refusal key hashes: the tool name, a NUL, and the canonical arguments. */
  function KeyText(tool: string, args: Option<Json>): string {
    tool + "\0" + Canonical(ArgsOrEmpty(args))
  }

  predicate NoNul(s: string) {
    '\0' !in s
  }

  lemma {:induction false} EscapedTextHasNoNul(t: string)
    ensures NoNul(EscapeText(t))
  {
    if t != "" {
      EscapedTextHasNoNul(t[1..]);
      var e := EscapeChar(t[0]);
      assert NoNul(e) by {
        if |e| == 6 {
          HexRoundTrip(t[0] as nat / 16);
          HexRoundTrip(t[0] as nat % 16);
        }
      }
    }
  }

  lemma {:induction false} QuoteHasNoNul(t: string)
    ensures NoNul(Quote(t))
  {
    EscapedTextHasNoNul(t);
  }

  lemma {:induction false} JoinHasNoNul(parts: seq<string>)
    requires forall p :: p in parts ==> NoNul(p)
    ensures NoNul(Join(parts))
  {
    if |parts| == 1 {
      assert parts[0] in parts;
    } else if |parts| > 1 {
      assert NoNul(parts[0]) && NoNul(",");
      JoinHasNoNul(parts[1..]);
    }
  }

  lemma {:induction false} PrintHasNoNul(v: Json)
    requires NumbersOk(v)
    ensures NoNul(Print(v))
    decreases v, 0
  {
    match v {
      case Num(digits) =>
      case Str(s) => QuoteHasNoNul(s);
      case Arr(items) =>
        ItemsHaveNoNul(items);
        JoinHasNoNul(PrintItems(items));
      case Obj(members) =>
        MembersHaveNoNul(members);
        JoinHasNoNul(Texts(PrintMembers(members)));
      case _ =>
    }
  }

  lemma {:induction false} ItemsHaveNoNul(items: seq<Json>)
    requires forall x :: x in items ==> NumbersOk(x)
    ensures forall p :: p in PrintItems(items) ==> NoNul(p)
    decreases items
  {
    if items != [] {
      PrintHasNoNul(items[0]);
      ItemsHaveNoNul(items[1..]);
    }
  }

  lemma {:induction false} MembersHaveNoNul(members: seq<Member>)
    requires forall m :: m in members ==> NumbersOk(m.value)
    ensures forall p :: p in Texts(PrintMembers(members)) ==> NoNul(p)
    decreases members
  {
    if members != [] {
      QuoteHasNoNul(members[0].key);
      PrintHasNoNul(members[0].value);
      MembersHaveNoNul(members[1..]);
      assert PrintMembers(members)[1..] == PrintMembers(members[1..]);
      assert Texts(PrintMembers(members)) == [PrintMember(members[0]).text] + Texts(PrintMembers(members[1..]));
    }
  }

  lemma {:induction false} CanonicalHasNoNul(v: Json)
    requires WellFormed(v)
    ensures NoNul(Canonical(v))
  {
    CanonicalIsPrintOfNormal(v);
    NormalNumbersOk(v);
    PrintHasNoNul(Normal(v));
  }

  lemma {:induction false} NoLaterNul(a: string, x: string)
    requires NoNul(x)
    ensures forall n :: |a| < n < |a| + 1 + |x| ==> (a + "\0" + x)[n] != '\0'
  {
    forall n | |a| < n < |a| + 1 + |x| ensures (a + "\0" + x)[n] != '\0' {
      assert (a + "\0" + x)[n] == x[n - |a| - 1] && x[n - |a| - 1] in x;
    }
  }

  /** A text is cut at its last NUL in one way only. */
  lemma {:induction false} LastNulSplits(a: string, x: string, b: string, y: string)
    requires NoNul(x) && NoNul(y) && a + "\0" + x == b + "\0" + y
    ensures a == b && x == y
  {
    var s, t := a + "\0" + x, b + "\0" + y;
    NoLaterNul(a, x);
    NoLaterNul(b, y);
    assert s[|a|] == '\0' && t[|b|] == '\0';
    assert |a| == |b|;
    assert s[..|a|] == a && t[..|b|] == b;
    assert s[|a| + 1..] == x && t[|b| + 1..] == y;
  }

  /**
   * Before hashing, the refusal key identifies the call: two calls share a key exactly when they name the same tool and
   * their arguments (absent or null read as `{}`) are equal up to member order.
   */
  lemma {:induction false} KeyIdentifiesCall(tool: string, args: Option<Json>, tool': string, args': Option<Json>)
    requires WellFormed(ArgsOrEmpty(args)) && WellFormed(ArgsOrEmpty(args'))
    ensures KeyText(tool, args) == KeyText(tool', args')
            <==> tool == tool' && Same(ArgsOrEmpty(args), ArgsOrEmpty(args'))
  {
    var a, b := ArgsOrEmpty(args), ArgsOrEmpty(args');
    CanonicalIdentifies(a, b);
    CanonicalHasNoNul(a);
    CanonicalHasNoNul(b);
    if KeyText(tool, args) == KeyText(tool', args') {
      LastNulSplits(tool, Canonical(a), tool', Canonical(b));
    }
  }
}
