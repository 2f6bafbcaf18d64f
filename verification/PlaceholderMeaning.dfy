/** What a placeholder reads, said of the earlier result alone, and what substitution makes of a whole value. */
module PlaceholderMeaning {
  import opened Wrappers
  import opened Json
  import opened Strings
  import opened Placeholders

  /** Digits and word characters, by code points: `[0-9]` and `[A-Za-z0-9_]`. */
  lemma {:induction false} WordsAre(c: char)
    ensures IsDigit(c) <==> 48 <= c as int <= 57
    ensures IsWord(c) <==> 48 <= c as int <= 57 || 65 <= c as int <= 90 || c as int == 95 || 97 <= c as int <= 122
  {
  }

  // ----- numerals -----

  function Pow10(k: nat): nat {
    if k == 0 then 1 else 10 * Pow10(k - 1)
  }

  function DigitValue(c: char): nat {
    if IsDigit(c) then c as nat - '0' as nat else 0
  }

  /** What digits stand for, each by its place. */
  function Numeral(digits: string): nat {
    if digits == "" then 0 else DigitValue(digits[0]) * Pow10(|digits| - 1) + Numeral(digits[1..])
  }

  predicate AllDigits(s: string) {
    forall c :: c in s ==> IsDigit(c)
  }

  /** `key` is how the index `i` is printed: its digits, without leading zeros. */
  predicate Spells(key: string, i: nat) {
    key != "" && AllDigits(key) && (|key| > 1 ==> key[0] != '0') && Numeral(key) == i
  }

  lemma {:induction false} NumeralPush(s: string, c: char)
    ensures Numeral(s + [c]) == 10 * Numeral(s) + DigitValue(c)
    decreases |s|
  {
    if s == "" {
      assert "" + [c] == [c] && [c][1..] == "";
      assert Numeral([c]) == DigitValue(c) * Pow10(0) + Numeral("");
    } else {
      NumeralPush(s[1..], c);
      assert (s + [c])[1..] == s[1..] + [c];
      PlaceShift(DigitValue(s[0]), |s| - 1);
    }
  }

  lemma {:induction false} PlaceShift(d: nat, k: nat)
    ensures d * Pow10(k + 1) == 10 * (d * Pow10(k))
  {
  }

  /** The index of a placeholder is the number that its digits stand for. */
  lemma {:induction false} DecimalIsNumeral(digits: string)
    requires AllDigits(digits)
    ensures Decimal(digits) == Numeral(digits)
    decreases |digits|
  {
    if digits != "" {
      var n := |digits| - 1;
      assert digits == digits[..n] + [digits[n]] && digits[n] in digits;
      assert forall c :: c in digits[..n] ==> c in digits;
      DecimalIsNumeral(digits[..n]);
      NumeralPush(digits[..n], digits[n]);
    }
  }

  lemma {:induction false} IndexKeySpells(i: nat)
    ensures Spells(IndexKey(i), i)
    decreases i
  {
    var c := '0' + (i % 10) as char;
    if i < 10 {
      assert "" + [c] == [c];
      NumeralPush("", c);
    } else {
      IndexKeySpells(i / 10);
      NumeralPush(IndexKey(i / 10), c);
      FrontKeepsHead(IndexKey(i / 10), c);
    }
  }

  lemma {:induction false} FrontKeepsHead(s: string, c: char)
    requires s != "" && AllDigits(s) && IsDigit(c)
    ensures (s + [c])[0] == s[0] && AllDigits(s + [c])
  {
  }

  /** A numeral of two digits or more, without a leading zero, stands for ten or more. */
  lemma {:induction false} LongNumeral(s: string)
    requires AllDigits(s) && s != "" && s[0] != '0'
    ensures Numeral(s) > 0
    decreases |s|
  {
    var n := |s| - 1;
    assert s == s[..n] + [s[n]] && s[n] in s;
    NumeralPush(s[..n], s[n]);
    if n > 0 {
      assert forall c :: c in s[..n] ==> c in s;
      LongNumeral(s[..n]);
    }
  }

  lemma {:induction false} SpellingIsOne(a: string, b: string, i: nat)
    requires Spells(a, i) && Spells(b, i)
    ensures a == b
    decreases |a|
  {
    var m, n := |a| - 1, |b| - 1;
    LastDigit(a);
    LastDigit(b);
    assert (m == 0 ==> a[..m] == "") && (n == 0 ==> b[..n] == "") && Numeral("") == 0;
    if m > 0 && n > 0 {
      SpellingIsOne(a[..m], b[..n], i / 10);
    }
    assert a == a[..m] + [a[m]] && b == b[..n] + [b[n]];
  }

  lemma {:induction false} LastDigit(a: string)
    requires a != "" && AllDigits(a) && (|a| > 1 ==> a[0] != '0')
    ensures var m := |a| - 1;
            && AllDigits(a[..m]) && Numeral(a) == 10 * Numeral(a[..m]) + DigitValue(a[m]) && IsDigit(a[m])
            && (m > 0 ==> Spells(a[..m], Numeral(a) / 10) && Numeral(a[..m]) > 0)
  {
    var m := |a| - 1;
    assert a == a[..m] + [a[m]] && a[m] in a;
    assert forall c :: c in a[..m] ==> c in a;
    NumeralPush(a[..m], a[m]);
    if m > 0 {
      LongNumeral(a[..m]);
    }
  }

  // ----- one step of a path -----

  /** The property of `v` that `key` names: a member; the element at an index, or the length of an array. */
  ghost predicate HasField(v: Json, key: string, x: Json) {
    match v
    case Obj(members) =>
      exists i: nat :: i < |members| && members[i] == Member(key, x) && forall j: nat :: j < i ==> members[j].key != key
    case Arr(items) =>
      || (key == "length" && x.Num? && Spells(x.digits, |items|))
      || exists i: nat :: i < |items| && Spells(key, i) && items[i] == x
    case _ => false
  }

  /** The names that an error lists: the keys of an object in order, the indices of an array. */
  ghost predicate Lists(v: Json, keys: seq<string>) {
    match v
    case Obj(members) => |keys| == |members| && forall i :: 0 <= i < |keys| ==> keys[i] == members[i].key
    case Arr(items) => |keys| == |items| && forall i: nat :: i < |keys| ==> Spells(keys[i], i)
    case _ => keys == []
  }

  lemma {:induction false} LookupIs(members: seq<Member>, key: string, x: Json)
    ensures Lookup(members, key) == Some(x) <==> HasField(Obj(members), key, x)
    decreases |members|
  {
    if members != [] {
      var rest := members[1..];
      LookupIs(rest, key, x);
      if members[0].key != key && HasField(Obj(rest), key, x) {
        var i: nat :| i < |rest| && rest[i] == Member(key, x) && forall j: nat :: j < i ==> rest[j].key != key;
        assert members[i + 1] == Member(key, x);
        assert forall j: nat :: 0 < j < i + 1 ==> members[j] == rest[j - 1];
      }
      if HasField(Obj(members), key, x) {
        var i: nat :| i < |members| && members[i] == Member(key, x) && forall j: nat :: j < i ==> members[j].key != key;
        if i > 0 {
          assert rest[i - 1] == Member(key, x);
          assert forall j: nat :: j < i - 1 ==> rest[j] == members[j + 1];
        }
      }
    }
  }

  lemma {:induction false} ItemIs(items: seq<Json>, from: nat, key: string, x: Json)
    requires from <= |items|
    ensures ItemAt(items, from, key) == Some(x) <==>
            exists i: nat :: from <= i < |items| && Spells(key, i) && items[i] == x
    decreases |items| - from
  {
    if from < |items| {
      ItemIs(items, from + 1, key, x);
      IndexKeySpells(from);
      if Spells(key, from) {
        SpellingIsOne(key, IndexKey(from), from);
      }
    }
  }

  lemma {:induction false} PropertyIs(v: Json, key: string, x: Json)
    ensures Property(v, key) == Some(x) <==> HasField(v, key, x)
  {
    match v {
      case Obj(members) => LookupIs(members, key, x);
      case Arr(items) =>
        ItemIs(items, 0, key, x);
        IndexKeySpells(|items|);
        if key == "length" {
          assert key[0] == 'l' && key[0] in key && !IsDigit('l');
          if x.Num? && Spells(x.digits, |items|) {
            SpellingIsOne(x.digits, IndexKey(|items|), |items|);
          }
        }
      case _ =>
    }
  }

  lemma {:induction false} OwnKeysList(v: Json)
    ensures Lists(v, OwnKeys(v))
  {
    if v.Arr? {
      forall i: nat | i < |v.items| ensures Spells(OwnKeys(v)[i], i) {
        IndexKeySpells(i);
      }
    }
  }

  // ----- a whole path -----

  /** Each value is the property of the one before that the next key names. */
  ghost predicate Chain(vs: seq<Json>, path: seq<string>) {
    |vs| == |path| + 1 && forall k: nat :: k < |path| ==> HasField(vs[k], path[k], vs[k + 1])
  }

  /** Following `path` from `v` ends in `x`. */
  ghost predicate Leads(v: Json, path: seq<string>, x: Json) {
    exists vs :: Chain(vs, path) && vs[0] == v && vs[|path|] == x
  }

  /** Following `path` from `v` gets to `at` by its first `k` keys, and `at` does not have the next. */
  ghost predicate Stuck(v: Json, path: seq<string>, k: nat, at: Json) {
    k < |path| && Leads(v, path[..k], at) && forall x :: !HasField(at, path[k], x)
  }

  lemma {:induction false} LeadsFirst(v: Json, path: seq<string>, next: Json, x: Json)
    requires path != [] && Property(v, path[0]) == Some(next)
    ensures Leads(v, path, x) <==> Leads(next, path[1..], x)
  {
    PropertyIs(v, path[0], next);
    if Leads(next, path[1..], x) {
      var vs :| Chain(vs, path[1..]) && vs[0] == next && vs[|path| - 1] == x;
      var all := [v] + vs;
      forall k: nat | k < |path| ensures HasField(all[k], path[k], all[k + 1]) {
        assert k > 0 ==> path[k] == path[1..][k - 1] && all[k] == vs[k - 1];
      }
      assert Chain(all, path);
    }
    if Leads(v, path, x) {
      var vs :| Chain(vs, path) && vs[0] == v && vs[|path|] == x;
      PropertyIs(v, path[0], vs[1]);
      var rest := vs[1..];
      forall k: nat | k < |path[1..]| ensures HasField(rest[k], path[1..][k], rest[k + 1]) {
        assert HasField(vs[k + 1], path[k + 1], vs[k + 2]);
      }
      assert Chain(rest, path[1..]);
    }
  }

  lemma {:induction false} NowhereLeads(v: Json, path: seq<string>, x: Json)
    requires path != [] && Property(v, path[0]).None?
    ensures !Leads(v, path, x)
  {
    forall vs | |vs| == |path| + 1 && vs[0] == v ensures !Chain(vs, path) {
      PropertyIs(v, path[0], vs[1]);
    }
  }

  lemma {:induction false} StuckFirst(v: Json, path: seq<string>, next: Json, k: nat, at: Json)
    requires path != [] && Property(v, path[0]) == Some(next) && Stuck(next, path[1..], k, at)
    ensures Stuck(v, path, k + 1, at)
  {
    assert path[..k + 1][1..] == path[1..][..k] && path[..k + 1][0] == path[0];
    LeadsFirst(v, path[..k + 1], next, at);
  }

  /** The walk ends where the chain of properties leads, or names the first key that is missing, where it is missing. */
  lemma {:induction false} WalkMeans(v: Json, path: seq<string>, token: string, target: int)
    ensures forall x :: Walk(v, path, token, target) == Success(x) <==> Leads(v, path, x)
    ensures match Walk(v, path, token, target)
            case Success(_) => true
            case Failure(e) =>
              exists k: nat, at: Json ::
                Stuck(v, path, k, at) && e.NoKey? && e.token == token && e.target == target && e.key == path[k] &&
                Lists(at, e.available)
    decreases |path|
  {
    if path == [] {
      forall x ensures Leads(v, path, x) <==> x == v {
        assert Chain([v], path);
      }
    } else {
      match Property(v, path[0])
      case Some(next) =>
        WalkMeans(next, path[1..], token, target);
        forall x ensures Leads(v, path, x) <==> Leads(next, path[1..], x) {
          LeadsFirst(v, path, next, x);
        }
        if Walk(next, path[1..], token, target).Failure? {
          var e := Walk(next, path[1..], token, target).error;
          var k: nat, at: Json :| Stuck(next, path[1..], k, at) && e.NoKey? && e.token == token && e.target == target &&
                                  e.key == path[1..][k] && Lists(at, e.available);
          StuckFirst(v, path, next, k, at);
        }
      case None =>
        forall x ensures !Leads(v, path, x) && !HasField(v, path[0], x) {
          NowhereLeads(v, path, x);
          PropertyIs(v, path[0], x);
        }
        assert Chain([v], path[..0]);
        assert Stuck(v, path, 0, v);
        OwnKeysList(v);
    }
  }

  // ----- placeholders and whole values -----

  /** The op whose result a placeholder with this head reads. */
  function OpOf(head: string, opIndex: nat): int {
    if head == "prev" then opIndex - 1 else Numeral(head)
  }

  predicate HasResult(results: Results, target: int) {
    0 <= target < |results| && results[target].Some?
  }

  /** The string `s` is a placeholder, and it names `x` in an earlier result. */
  ghost predicate Names(s: string, opIndex: nat, results: Results, x: Json) {
    exists head, path :: IsPlaceholder(s, head, path) && HasResult(results, OpOf(head, opIndex)) &&
                         Leads(results[OpOf(head, opIndex)].value, SplitDots(path), x)
  }

  /** `s` is a placeholder that names nothing, and `e` says why: no result, or the first key that is missing. */
  ghost predicate NamesNothing(s: string, opIndex: nat, results: Results, e: ChainError) {
    exists head, path :: IsPlaceholder(s, head, path) && e.token == s && e.target == OpOf(head, opIndex) &&
                         if HasResult(results, OpOf(head, opIndex))
                         then e.NoKey? && MissesKey(results[OpOf(head, opIndex)].value, SplitDots(path), e)
                         else e.NoJson?
  }

  ghost predicate MissesKey(v: Json, path: seq<string>, e: ChainError)
    requires e.NoKey?
  {
    exists k: nat, at: Json :: Stuck(v, path, k, at) && e.key == path[k] && Lists(at, e.available)
  }

  /** A placeholder resolves to exactly the value it names, and otherwise fails for the reason there is. */
  lemma {:induction false} ResolveMeans(s: string, p: Placeholder, opIndex: nat, results: Results)
    requires ParsePlaceholder(s) == Some(p)
    ensures forall x :: Resolve(p, opIndex, results) == Success(x) <==> Names(s, opIndex, results, x)
    ensures Resolve(p, opIndex, results).Failure? ==>
            NamesNothing(s, opIndex, results, Resolve(p, opIndex, results).error)
  {
    ParsesExactlyPlaceholders(s);
    var head, path :| IsPlaceholder(s, head, path);
    ParsedIs(s, head, path, p, opIndex);
    if HasResult(results, OpOf(head, opIndex)) {
      WalkMeans(results[OpOf(head, opIndex)].value, SplitDots(path), s, OpOf(head, opIndex));
    }
    forall h, q | IsPlaceholder(s, h, q)
      ensures OpOf(h, opIndex) == OpOf(head, opIndex) && SplitDots(q) == SplitDots(path)
    {
      ParsedIs(s, h, q, p, opIndex);
    }
  }

  lemma {:induction false} ParsedIs(s: string, head: string, path: string, p: Placeholder, opIndex: nat)
    requires IsPlaceholder(s, head, path) && ParsePlaceholder(s) == Some(p)
    ensures p.token == s && p.path == SplitDots(path) && TargetOf(p, opIndex) == OpOf(head, opIndex)
  {
    PlaceholderParses(s, head, path);
    if head != "prev" {
      DecimalIsNumeral(head);
    }
  }

  /**
   * `w` is `v` with every placeholder replaced by what it names, one `$` dropped where two stand first, and nothing
   * else changed.
   */
  ghost predicate Replaces(v: Json, w: Json, opIndex: nat, results: Results)
    decreases v
  {
    match v
    case Str(s) =>
      if "$$" <= s then w == Str(s[1..])
      else if exists head, path :: IsPlaceholder(s, head, path) then Names(s, opIndex, results, w)
      else w == v
    case Arr(items) =>
      w.Arr? && |w.items| == |items| && forall i :: 0 <= i < |items| ==>
        Replaces(items[i], w.items[i], opIndex, results)
    case Obj(members) =>
      && w.Obj? && |w.members| == |members|
      && forall i :: 0 <= i < |members| ==>
           w.members[i].key == members[i].key && Replaces(members[i].value, w.members[i].value, opIndex, results)
    case _ => w == v
  }

  lemma {:induction false} StringMeans(s: string, w: Json, opIndex: nat, results: Results)
    ensures Substitute(Str(s), opIndex, results) == Success(w) <==> Replaces(Str(s), w, opIndex, results)
  {
    ParsesExactlyPlaceholders(s);
    if ParsePlaceholder(s).Some? {
      ResolveMeans(s, ParsePlaceholder(s).value, opIndex, results);
    }
  }

  /** Substitution gives exactly the value with its placeholders replaced. */
  lemma {:induction false} SubstituteMeans(v: Json, w: Json, opIndex: nat, results: Results)
    ensures Substitute(v, opIndex, results) == Success(w) <==> Replaces(v, w, opIndex, results)
    decreases v, 0
  {
    match v {
      case Str(s) => StringMeans(s, w, opIndex, results);
      case Arr(items) =>
        if w.Arr? {
          ItemsMean(items, w.items, opIndex, results);
        }
      case Obj(members) =>
        if w.Obj? {
          MembersMean(members, w.members, opIndex, results);
        }
      case _ =>
    }
  }

  lemma {:induction false} ItemsMean(items: seq<Json>, ws: seq<Json>, opIndex: nat, results: Results)
    ensures SubstituteItems(items, opIndex, results) == Success(ws) <==>
            |ws| == |items| && forall i :: 0 <= i < |items| ==> Replaces(items[i], ws[i], opIndex, results)
    decreases items
  {
    if items != [] {
      if ws == [] {
        assert SubstituteItems(items, opIndex, results) != Success(ws);
      } else {
        SubstituteMeans(items[0], ws[0], opIndex, results);
        ItemsMean(items[1..], ws[1..], opIndex, results);
        assert ws == [ws[0]] + ws[1..];
        assert forall i :: 0 < i < |items| ==> items[i] == items[1..][i - 1];
      }
    }
  }

  lemma {:induction false} MembersMean(members: seq<Member>, ws: seq<Member>, opIndex: nat, results: Results)
    ensures SubstituteMembers(members, opIndex, results) == Success(ws) <==>
            && |ws| == |members|
            && forall i :: 0 <= i < |members| ==>
                 ws[i].key == members[i].key && Replaces(members[i].value, ws[i].value, opIndex, results)
    decreases members
  {
    if members != [] {
      if ws == [] {
        assert SubstituteMembers(members, opIndex, results) != Success(ws);
      } else {
        SubstituteMeans(members[0].value, ws[0].value, opIndex, results);
        MembersMean(members[1..], ws[1..], opIndex, results);
        assert ws == [ws[0]] + ws[1..];
        assert forall i :: 0 < i < |members| ==> members[i] == members[1..][i - 1];
      }
    }
  }

  // ----- failure -----

  /** The first placeholder of `v` in reading order that names nothing. */
  ghost predicate FirstFailure(refs: seq<Placeholder>, opIndex: nat, results: Results, e: ChainError) {
    exists i: nat :: i < |refs| && Resolve(refs[i], opIndex, results) == Failure(e) &&
                     forall j: nat :: j < i ==> Resolve(refs[j], opIndex, results).Success?
  }

  lemma {:induction false} FailsInFirst(a: seq<Placeholder>, b: seq<Placeholder>, opIndex: nat, results: Results,
                                        e: ChainError)
    requires FirstFailure(a, opIndex, results, e)
    ensures FirstFailure(a + b, opIndex, results, e)
  {
    var i: nat :| i < |a| && Resolve(a[i], opIndex, results) == Failure(e) &&
                  forall j: nat :: j < i ==> Resolve(a[j], opIndex, results).Success?;
    assert (a + b)[i] == a[i] && forall j: nat :: j < i ==> (a + b)[j] == a[j];
  }

  lemma {:induction false} FailsInSecond(a: seq<Placeholder>, b: seq<Placeholder>, opIndex: nat, results: Results,
                                         e: ChainError)
    requires FirstFailure(b, opIndex, results, e) && forall p :: p in a ==> Resolves(p, opIndex, results)
    ensures FirstFailure(a + b, opIndex, results, e)
  {
    var i: nat :| i < |b| && Resolve(b[i], opIndex, results) == Failure(e) &&
                  forall j: nat :: j < i ==> Resolve(b[j], opIndex, results).Success?;
    forall j: nat | j < |a| + i ensures Resolve((a + b)[j], opIndex, results).Success? {
      assert j < |a| ==> (a + b)[j] in a && Resolves((a + b)[j], opIndex, results);
    }
    assert (a + b)[|a| + i] == b[i];
  }

  /** A failing substitution fails on the first placeholder in reading order that names nothing. */
  lemma {:induction false} SubstituteFails(v: Json, opIndex: nat, results: Results)
    ensures var r := Substitute(v, opIndex, results); r.Failure? ==> FirstFailure(Refs(v), opIndex, results, r.error)
    decreases v, 0
  {
    match v {
      case Str(s) =>
        if !("$$" <= s) && ParsePlaceholder(s).Some? {
          assert Refs(v)[0] == ParsePlaceholder(s).value;
        }
      case Arr(items) => ItemsFail(items, opIndex, results);
      case Obj(members) => MembersFail(members, opIndex, results);
      case _ =>
    }
  }

  lemma {:induction false} ItemsFail(items: seq<Json>, opIndex: nat, results: Results)
    ensures var r := SubstituteItems(items, opIndex, results);
            r.Failure? ==> FirstFailure(RefsOfItems(items), opIndex, results, r.error)
    decreases items
  {
    if items != [] {
      var a, b := Refs(items[0]), RefsOfItems(items[1..]);
      SubstituteFails(items[0], opIndex, results);
      SubstituteSucceedsIff(items[0], opIndex, results);
      ItemsFail(items[1..], opIndex, results);
      if Substitute(items[0], opIndex, results).Failure? {
        FailsInFirst(a, b, opIndex, results, Substitute(items[0], opIndex, results).error);
      } else if SubstituteItems(items[1..], opIndex, results).Failure? {
        FailsInSecond(a, b, opIndex, results, SubstituteItems(items[1..], opIndex, results).error);
      }
    }
  }

  lemma {:induction false} MembersFail(members: seq<Member>, opIndex: nat, results: Results)
    ensures var r := SubstituteMembers(members, opIndex, results);
            r.Failure? ==> FirstFailure(RefsOfMembers(members), opIndex, results, r.error)
    decreases members
  {
    if members != [] {
      var a, b := Refs(members[0].value), RefsOfMembers(members[1..]);
      SubstituteFails(members[0].value, opIndex, results);
      SubstituteSucceedsIff(members[0].value, opIndex, results);
      MembersFail(members[1..], opIndex, results);
      if Substitute(members[0].value, opIndex, results).Failure? {
        FailsInFirst(a, b, opIndex, results, Substitute(members[0].value, opIndex, results).error);
      } else if SubstituteMembers(members[1..], opIndex, results).Failure? {
        FailsInSecond(a, b, opIndex, results, SubstituteMembers(members[1..], opIndex, results).error);
      }
    }
  }
}
