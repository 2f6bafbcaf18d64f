/** Placeholders in program arguments, and the certified program runner that resolves them. */
module Placeholders {
  import opened Wrappers
  import opened Json
  import opened Strings

  // ----- the placeholder grammar: `$prev.<path>` or `$<index>.<path>` -----

  datatype Target = Prev | Op(index: nat)

  datatype Placeholder = Placeholder(token: string, target: Target, path: seq<string>)

  predicate IsWord(c: char) { IsDigit(c) || 'A' <= c <= 'Z' || 'a' <= c <= 'z' || c == '_' }

  function Decimal(digits: string): nat
    requires forall c :: c in digits ==> IsDigit(c)
  {
    if digits == "" then 0
    else
      var n := |digits| - 1;
      assert digits[n] in digits && IsDigit(digits[n]);
      Decimal(digits[..n]) * 10 + digits[n] as nat - '0' as nat
  }

  /** Index of the first dot, or the length. */
  function FirstDot(s: string): (k: nat)
    ensures k <= |s|
  {
    if s == "" || s[0] == '.' then 0 else 1 + FirstDot(s[1..])
  }

  /** `path.split(".")`. */
  function SplitDots(s: string): (keys: seq<string>)
    ensures |keys| > 0
    decreases |s|
  {
    var k := FirstDot(s);
    if k == |s| then [s] else [s[..k]] + SplitDots(s[k + 1..])
  }

  /** The whole string read as a placeholder. */
  function ParsePlaceholder(s: string): Option<Placeholder> {
    if s == "" || s[0] != '$' then None
    else
      var body := s[1..];
      var k := FirstDot(body);
      if k == |body| then None
      else
        var head, path := body[..k], body[k + 1..];
        var numeric := head != "" && forall c :: c in head ==> IsDigit(c);
        if !numeric && head != "prev" then None
        else if path == "" || !IsWord(path[0]) || exists c :: c in path && !IsWord(c) && c != '.' then None
        else Some(Placeholder(s, if numeric then Op(Decimal(head)) else Prev, SplitDots(path)))
  }

  /** `s` is `$<head>.<path>` with a decimal index or `prev` as head and word characters and dots as path. */
  ghost predicate IsPlaceholder(s: string, head: string, path: string) {
    && s == "$" + head + "." + path
    && (head == "prev" || (head != "" && forall c :: c in head ==> IsDigit(c)))
    && path != "" && IsWord(path[0]) && forall c :: c in path ==> IsWord(c) || c == '.'
  }

  lemma {:induction false} FirstDotIs(s: string)
    ensures var k := FirstDot(s); '.' !in s[..k] && (k < |s| ==> s[k] == '.')
  {
    if s != "" && s[0] != '.' {
      FirstDotIs(s[1..]);
      assert s[..FirstDot(s)] == [s[0]] + s[1..][..FirstDot(s[1..])];
    }
  }

  lemma {:induction false} DotAfterHead(head: string, path: string)
    requires '.' !in head
    ensures FirstDot(head + "." + path) == |head|
  {
    if head == "" {
      assert head + "." + path == "." + path;
    } else {
      assert head[0] in head;
      assert (head + "." + path)[1..] == head[1..] + "." + path;
      DotAfterHead(head[1..], path);
    }
  }

  lemma {:induction false} PlaceholderParses(s: string, head: string, path: string)
    requires IsPlaceholder(s, head, path)
    ensures ParsePlaceholder(s) ==
            Some(Placeholder(s, if head == "prev" then Prev else Op(Decimal(head)), SplitDots(path)))
  {
    var body := s[1..];
    assert body == head + "." + path;
    DotAfterHead(head, path);
    assert body[..|head|] == head && body[|head| + 1..] == path;
    assert head == "prev" ==> !IsDigit(head[0]) && head[0] in head;
  }

  /** The placeholder grammar, whole string, both ways. */
  lemma {:induction false} ParsesExactlyPlaceholders(s: string)
    ensures ParsePlaceholder(s).Some? <==> exists head, path :: IsPlaceholder(s, head, path)
    ensures forall head, path :: IsPlaceholder(s, head, path) ==>
              ParsePlaceholder(s) ==
                Some(Placeholder(s, if head == "prev" then Prev else Op(Decimal(head)), SplitDots(path)))
  {
    if ParsePlaceholder(s).Some? {
      var body := s[1..];
      var k := FirstDot(body);
      FirstDotIs(body);
      assert s == "$" + body[..k] + "." + body[k + 1..];
      assert IsPlaceholder(s, body[..k], body[k + 1..]);
    }
    forall head, path | IsPlaceholder(s, head, path)
      ensures ParsePlaceholder(s) ==
              Some(Placeholder(s, if head == "prev" then Prev else Op(Decimal(head)), SplitDots(path)))
    {
      PlaceholderParses(s, head, path);
    }
  }

  function JoinDots(keys: seq<string>): string {
    if keys == [] then "" else if |keys| == 1 then keys[0] else keys[0] + "." + JoinDots(keys[1..])
  }

  /** Splitting a path at its dots loses nothing, and no key keeps a dot. */
  lemma {:induction false} SplitDotsJoins(s: string)
    ensures JoinDots(SplitDots(s)) == s
    ensures forall key :: key in SplitDots(s) ==> '.' !in key
    decreases |s|
  {
    var k := FirstDot(s);
    FirstDotIs(s);
    if k < |s| {
      SplitDotsJoins(s[k + 1..]);
      assert SplitDots(s)[1..] == SplitDots(s[k + 1..]);
      assert s == s[..k] + "." + s[k + 1..];
    } else {
      assert s[..k] == s;
    }
  }

  // ----- collecting and substituting -----

  /** Every placeholder string anywhere in the value, in reading order. */
  function Refs(v: Json): seq<Placeholder>
    decreases v, 0
  {
    match v
    case Str(s) => (match ParsePlaceholder(s) case Some(p) => [p] case None => [])
    case Arr(items) => RefsOfItems(items)
    case Obj(members) => RefsOfMembers(members)
    case _ => []
  }

  function RefsOfItems(items: seq<Json>): seq<Placeholder>
    decreases items
  {
    if items == [] then [] else Refs(items[0]) + RefsOfItems(items[1..])
  }

  function RefsOfMembers(members: seq<Member>): seq<Placeholder>
    decreases members
  {
    if members == [] then [] else Refs(members[0].value) + RefsOfMembers(members[1..])
  }

  datatype ChainError =
    | NoJson(token: string, target: int)
    | NoKey(token: string, target: int, key: string, available: seq<string>)

  type Results = seq<Option<Json>>

  /** `Number.prototype.toString` for an array index. */
  function IndexKey(i: nat): string {
    var digit := ['0' + (i % 10) as char];
    if i < 10 then digit else IndexKey(i / 10) + digit
  }

  /** The element of an array that the own property `key` names, from index `i` on. */
  function ItemAt(items: seq<Json>, i: nat, key: string): Option<Json>
    requires i <= |items|
    decreases |items| - i
  {
    if i == |items| then None else if IndexKey(i) == key then Some(items[i]) else ItemAt(items, i + 1, key)
  }

  /** `key in cur ? cur[key] : none`, on own properties. */
  function Property(cur: Json, key: string): Option<Json> {
    match cur
    case Obj(members) => Lookup(members, key)
    case Arr(items) => if key == "length" then Some(Num(IndexKey(|items|))) else ItemAt(items, 0, key)
    case _ => None
  }

  /** `Object.keys(cur)` when `cur` is an object. */
  function OwnKeys(cur: Json): seq<string> {
    match cur
    case Obj(members) => Keys(members)
    case Arr(items) => seq(|items|, i requires 0 <= i => IndexKey(i))
    case _ => []
  }

  function Walk(cur: Json, path: seq<string>, token: string, target: int): Result<Json, ChainError>
    decreases |path|
  {
    if path == [] then Success(cur)
    else
      match Property(cur, path[0])
      case Some(next) => Walk(next, path[1..], token, target)
      case None => Failure(NoKey(token, target, path[0], OwnKeys(cur)))
  }

  function TargetOf(p: Placeholder, opIndex: nat): int {
    match p.target case Prev => opIndex - 1 case Op(n) => n
  }

  /** The field of an earlier result that a placeholder names. */
  function Resolve(p: Placeholder, opIndex: nat, results: Results): Result<Json, ChainError> {
    var target := TargetOf(p, opIndex);
    if !(0 <= target < |results|) || results[target].None? then Failure(NoJson(p.token, target))
    else Walk(results[target].value, p.path, p.token, target)
  }

  /** Replace every placeholder by what it names and drop one `$` of every `$$` prefix. */
  function Substitute(v: Json, opIndex: nat, results: Results): Result<Json, ChainError>
    decreases v, 0
  {
    match v
    case Str(s) =>
      if "$$" <= s then Success(Str(s[1..]))
      else (match ParsePlaceholder(s) case Some(p) => Resolve(p, opIndex, results) case None => Success(v))
    case Arr(items) =>
      (match SubstituteItems(items, opIndex, results)
       case Success(xs) => Success(Arr(xs))
       case Failure(e) => Failure(e))
    case Obj(members) =>
      (match SubstituteMembers(members, opIndex, results)
       case Success(ms) => Success(Obj(ms))
       case Failure(e) => Failure(e))
    case _ => Success(v)
  }

  function SubstituteItems(items: seq<Json>, opIndex: nat, results: Results): Result<seq<Json>, ChainError>
    decreases items
  {
    if items == [] then Success([])
    else
      match Substitute(items[0], opIndex, results)
      case Failure(e) => Failure(e)
      case Success(x) =>
        match SubstituteItems(items[1..], opIndex, results)
        case Failure(e) => Failure(e)
        case Success(xs) => Success([x] + xs)
  }

  function SubstituteMembers(members: seq<Member>, opIndex: nat, results: Results): Result<seq<Member>, ChainError>
    decreases members
  {
    if members == [] then Success([])
    else
      match Substitute(members[0].value, opIndex, results)
      case Failure(e) => Failure(e)
      case Success(x) =>
        match SubstituteMembers(members[1..], opIndex, results)
        case Failure(e) => Failure(e)
        case Success(ms) => Success([Member(members[0].key, x)] + ms)
  }

  /** The array that `collectPlaceholders` fills. */
  class PlaceholderList {
    var items: seq<Placeholder>

    constructor ()
      ensures items == []
    {
      items := [];
    }
  }

  method CollectPlaceholders(v: Json, out: PlaceholderList)
    modifies out
    ensures out.items == old(out.items) + Refs(v)
    decreases v, 0
  {
    match v {
      case Str(s) =>
        var m := ParsePlaceholder(s);
        if m.Some? {
          out.items := out.items + [m.value];
        }
      case Arr(items) =>
        var k := 0;
        while k < |items|
          invariant 0 <= k <= |items|
          invariant out.items + RefsOfItems(items[k..]) == old(out.items) + Refs(v)
        {
          ghost var done, rest := out.items, RefsOfItems(items[k + 1..]);
          assert items[k..][0] == items[k] && items[k..][1..] == items[k + 1..];
          CollectPlaceholders(items[k], out);
          assert done + (Refs(items[k]) + rest) == (done + Refs(items[k])) + rest;
          k := k + 1;
        }
      case Obj(members) =>
        var k := 0;
        while k < |members|
          invariant 0 <= k <= |members|
          invariant out.items + RefsOfMembers(members[k..]) == old(out.items) + Refs(v)
        {
          ghost var done, rest := out.items, RefsOfMembers(members[k + 1..]);
          assert members[k..][0] == members[k] && members[k..][1..] == members[k + 1..];
          CollectPlaceholders(members[k].value, out);
          assert done + (Refs(members[k].value) + rest) == (done + Refs(members[k].value)) + rest;
          k := k + 1;
        }
      case _ =>
    }
  }

  // ----- what substitution promises -----

  ghost predicate Resolves(p: Placeholder, opIndex: nat, results: Results) {
    Resolve(p, opIndex, results).Success?
  }

  /** Substitution succeeds exactly when every collected placeholder names something that exists. */
  lemma {:induction false} SubstituteSucceedsIff(v: Json, opIndex: nat, results: Results)
    ensures Substitute(v, opIndex, results).Success? <==> forall p :: p in Refs(v) ==> Resolves(p, opIndex, results)
    decreases v, 0
  {
    match v {
      case Str(s) =>
        if "$$" <= s {
          EscapedIsNoPlaceholder(s);
        } else if ParsePlaceholder(s).Some? {
          var p := ParsePlaceholder(s).value;
          assert Refs(v) == [p] && p in Refs(v);
          assert Substitute(v, opIndex, results).Success? == Resolves(p, opIndex, results);
        } else {
          assert Refs(v) == [];
        }
      case Arr(items) => SubstituteItemsIff(items, opIndex, results);
      case Obj(members) => SubstituteMembersIff(members, opIndex, results);
      case _ =>
    }
  }

  lemma {:induction false} SubstituteItemsIff(items: seq<Json>, opIndex: nat, results: Results)
    ensures SubstituteItems(items, opIndex, results).Success?
            <==> forall p :: p in RefsOfItems(items) ==> Resolves(p, opIndex, results)
    decreases items
  {
    if items != [] {
      SubstituteSucceedsIff(items[0], opIndex, results);
      SubstituteItemsIff(items[1..], opIndex, results);
    }
  }

  lemma {:induction false} SubstituteMembersIff(members: seq<Member>, opIndex: nat, results: Results)
    ensures SubstituteMembers(members, opIndex, results).Success?
            <==> forall p :: p in RefsOfMembers(members) ==> Resolves(p, opIndex, results)
    decreases members
  {
    if members != [] {
      SubstituteSucceedsIff(members[0].value, opIndex, results);
      SubstituteMembersIff(members[1..], opIndex, results);
    }
  }

  lemma EscapedIsNoPlaceholder(s: string)
    requires "$$" <= s
    ensures ParsePlaceholder(s).None?
  {
    var body := s[1..];
    assert body[0] == '$';
    var k := FirstDot(body);
    if 0 < k < |body| {
      assert body[..k][0] == '$' && body[..k][0] in body[..k];
    }
  }

  /** Both result lists give the placeholders of `v` the same answers. */
  ghost predicate SameAnswers(v: Json, opIndex: nat, a: Results, b: Results) {
    forall p :: p in Refs(v) ==> Resolve(p, opIndex, a) == Resolve(p, opIndex, b)
  }

  /** Substitution reads nothing but what the collected placeholders name. */
  lemma {:induction false} SubstituteReadsOnlyRefs(v: Json, opIndex: nat, a: Results, b: Results)
    requires SameAnswers(v, opIndex, a, b)
    ensures Substitute(v, opIndex, a) == Substitute(v, opIndex, b)
    decreases v, 0
  {
    match v {
      case Str(s) =>
        if !("$$" <= s) && ParsePlaceholder(s).Some? {
          assert ParsePlaceholder(s).value in Refs(v);
        }
      case Arr(items) => ItemsReadOnlyRefs(items, opIndex, a, b);
      case Obj(members) => MembersReadOnlyRefs(members, opIndex, a, b);
      case _ =>
    }
  }

  lemma {:induction false} ItemsReadOnlyRefs(items: seq<Json>, opIndex: nat, a: Results, b: Results)
    requires forall p :: p in RefsOfItems(items) ==> Resolve(p, opIndex, a) == Resolve(p, opIndex, b)
    ensures SubstituteItems(items, opIndex, a) == SubstituteItems(items, opIndex, b)
    decreases items
  {
    if items != [] {
      SubstituteReadsOnlyRefs(items[0], opIndex, a, b);
      ItemsReadOnlyRefs(items[1..], opIndex, a, b);
    }
  }

  lemma {:induction false} MembersReadOnlyRefs(members: seq<Member>, opIndex: nat, a: Results, b: Results)
    requires forall p :: p in RefsOfMembers(members) ==> Resolve(p, opIndex, a) == Resolve(p, opIndex, b)
    ensures SubstituteMembers(members, opIndex, a) == SubstituteMembers(members, opIndex, b)
    decreases members
  {
    if members != [] {
      SubstituteReadsOnlyRefs(members[0].value, opIndex, a, b);
      MembersReadOnlyRefs(members[1..], opIndex, a, b);
    }
  }

  // ----- escaping -----

  /**
   * The value written as arguments that stand for themselves: one more `$` before every string that starts with one.
   */
  function Escape(v: Json): Json
    decreases v, 0
  {
    match v
    case Str(s) => if "$" <= s then Str("$" + s) else v
    case Arr(items) => Arr(EscapeItems(items))
    case Obj(members) => Obj(EscapeMembers(members))
    case _ => v
  }

  function EscapeItems(items: seq<Json>): seq<Json>
    decreases items
  {
    if items == [] then [] else [Escape(items[0])] + EscapeItems(items[1..])
  }

  function EscapeMembers(members: seq<Member>): seq<Member>
    decreases members
  {
    if members == [] then [] else [Member(members[0].key, Escape(members[0].value))] + EscapeMembers(members[1..])
  }

  /** An escaped value holds no placeholder, and substitution gives the value back whatever the results are. */
  lemma {:induction false} EscapeIsLiteral(v: Json, opIndex: nat, results: Results)
    ensures Refs(Escape(v)) == []
    ensures Substitute(Escape(v), opIndex, results) == Success(v)
    decreases v, 0
  {
    match v {
      case Str(s) =>
        if "$" <= s {
          EscapedIsNoPlaceholder("$" + s);
          assert ("$" + s)[1..] == s;
        }
      case Arr(items) => EscapedItemsAreLiteral(items, opIndex, results);
      case Obj(members) => EscapedMembersAreLiteral(members, opIndex, results);
      case _ =>
    }
  }

  lemma {:induction false} EscapedItemsAreLiteral(items: seq<Json>, opIndex: nat, results: Results)
    ensures RefsOfItems(EscapeItems(items)) == []
    ensures SubstituteItems(EscapeItems(items), opIndex, results) == Success(items)
    decreases items
  {
    if items != [] {
      EscapeIsLiteral(items[0], opIndex, results);
      EscapedItemsAreLiteral(items[1..], opIndex, results);
      assert EscapeItems(items)[1..] == EscapeItems(items[1..]);
      assert items == [items[0]] + items[1..];
    }
  }

  lemma {:induction false} EscapedMembersAreLiteral(members: seq<Member>, opIndex: nat, results: Results)
    ensures RefsOfMembers(EscapeMembers(members)) == []
    ensures SubstituteMembers(EscapeMembers(members), opIndex, results) == Success(members)
    decreases members
  {
    if members != [] {
      EscapeIsLiteral(members[0].value, opIndex, results);
      EscapedMembersAreLiteral(members[1..], opIndex, results);
      assert EscapeMembers(members)[1..] == EscapeMembers(members[1..]);
      assert members == [Member(members[0].key, members[0].value)] + members[1..];
    }
  }
}
