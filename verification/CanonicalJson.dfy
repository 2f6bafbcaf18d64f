/** Canonical JSON: the printer, and the order keys are sorted in. */
module CanonicalJson {
  import opened Wrappers
  import opened Json
  import Sorting

  // ----- key order: UTF-16 code units, as `Array.prototype.sort` compares strings -----

  /** The one or two code units of a character, as a single number that compares the way they do. */
  function UnitKey(c: char): nat {
    var n := c as nat;
    if n < 0x1_0000 then n * 0x1_0000
    else (0xD800 + (n - 0x1_0000) / 0x400) * 0x1_0000 + 0xDC00 + (n - 0x1_0000) % 0x400
  }

  predicate StringLe(a: string, b: string) {
    if a == "" then true
    else if b == "" then false
    else if a[0] == b[0] then StringLe(a[1..], b[1..])
    else UnitKey(a[0]) < UnitKey(b[0])
  }

  lemma UnitKeyInjective(c: char, d: char)
    requires UnitKey(c) == UnitKey(d)
    ensures c == d
  {
    var m: int, n: int := c as int, d as int;
    assert (m - 0x1_0000) == (m - 0x1_0000) / 0x400 * 0x400 + (m - 0x1_0000) % 0x400;
    assert (n - 0x1_0000) == (n - 0x1_0000) / 0x400 * 0x400 + (n - 0x1_0000) % 0x400;
  }

  lemma {:induction false} StringLeTotal(a: string, b: string)
    ensures StringLe(a, b) || StringLe(b, a)
    ensures StringLe(a, b) && StringLe(b, a) ==> a == b
  {
    if a != "" && b != "" {
      if a[0] == b[0] {
        StringLeTotal(a[1..], b[1..]);
        assert a == [a[0]] + a[1..] && b == [b[0]] + b[1..];
      } else if UnitKey(a[0]) == UnitKey(b[0]) {
        UnitKeyInjective(a[0], b[0]);
        assert false;
      }
    }
  }

  lemma {:induction false} StringLeTransitive(a: string, b: string, c: string)
    requires StringLe(a, b) && StringLe(b, c)
    ensures StringLe(a, c)
  {
    if a != "" && a[0] == b[0] == c[0] {
      StringLeTransitive(a[1..], b[1..], c[1..]);
    }
  }

  // ----- printing -----

  function HexDigit(n: nat): char
    requires n < 16
  {
    "0123456789abcdef"[n]
  }

  /** One character inside a JSON string, as `JSON.stringify` writes it. */
  function EscapeChar(c: char): string {
    if c == '"' then "\\\""
    else if c == '\\' then "\\\\"
    else if c == '\U{8}' then "\\b"
    else if c == '\U{C}' then "\\f"
    else if c == '\n' then "\\n"
    else if c == '\r' then "\\r"
    else if c == '\t' then "\\t"
    else if c < ' ' then "\\u00" + [HexDigit(c as nat / 16), HexDigit(c as nat % 16)]
    else [c]
  }

  function EscapeText(s: string): string {
    if s == "" then "" else EscapeChar(s[0]) + EscapeText(s[1..])
  }

  /** `JSON.stringify` of a string. */
  function Quote(s: string): string {
    "\"" + EscapeText(s) + "\""
  }

  /** A member of an object, printed, with the key it is sorted by. */
  datatype Entry = Entry(key: string, text: string)

  function Join(parts: seq<string>): string {
    if parts == [] then "" else if |parts| == 1 then parts[0] else parts[0] + "," + Join(parts[1..])
  }

  function Texts(entries: seq<Entry>): seq<string> {
    if entries == [] then [] else [entries[0].text] + Texts(entries[1..])
  }

  const ENTRY_LE := (a: Entry, b: Entry) => StringLe(a.key, b.key)

  /** `canonicalJson`: members printed in key order at every level, no whitespace. */
  function Canonical(v: Json): string
    decreases v, 0
  {
    match v
    case Null => "null"
    case Bool(b) => if b then "true" else "false"
    case Num(digits) => digits
    case Str(s) => Quote(s)
    case Arr(items) => "[" + Join(CanonicalItems(items)) + "]"
    case Obj(members) => "{" + Join(Texts(Sorting.Sort(ENTRY_LE, CanonicalEntries(members)))) + "}"
  }

  function CanonicalItems(items: seq<Json>): seq<string>
    decreases items
  {
    if items == [] then [] else [Canonical(items[0])] + CanonicalItems(items[1..])
  }

  function CanonicalEntries(members: seq<Member>): seq<Entry>
    decreases members
  {
    if members == [] then []
    else
      var m := members[0];
      [Entry(m.key, Quote(m.key) + ":" + Canonical(m.value))] + CanonicalEntries(members[1..])
  }

  // ----- the same value with its members in order -----

  const MEMBER_LE := (a: Member, b: Member) => StringLe(a.key, b.key)

  /** The same value with the members of every object sorted by `le`. */
  function Arrange(le: (Member, Member) -> bool, v: Json): Json
    decreases v, 0
  {
    match v
    case Arr(items) => Arr(ArrangeItems(le, items))
    case Obj(members) => Obj(Sorting.Sort(le, ArrangeMembers(le, members)))
    case _ => v
  }

  function ArrangeItems(le: (Member, Member) -> bool, items: seq<Json>): (r: seq<Json>)
    ensures |r| == |items|
    decreases items
  {
    if items == [] then [] else [Arrange(le, items[0])] + ArrangeItems(le, items[1..])
  }

  function ArrangeMembers(le: (Member, Member) -> bool, members: seq<Member>): (r: seq<Member>)
    ensures |r| == |members|
    ensures forall i :: 0 <= i < |r| ==> r[i] == Member(members[i].key, Arrange(le, members[i].value))
    decreases members
  {
    if members == [] then []
    else [Member(members[0].key, Arrange(le, members[0].value))] + ArrangeMembers(le, members[1..])
  }

  /** The value with its members in key order. */
  function Normal(v: Json): Json {
    Arrange(MEMBER_LE, v)
  }

  /** Compact JSON with members in the order they have. */
  function Print(v: Json): string
    decreases v, 0
  {
    match v
    case Null => "null"
    case Bool(b) => if b then "true" else "false"
    case Num(digits) => digits
    case Str(s) => Quote(s)
    case Arr(items) => "[" + Join(PrintItems(items)) + "]"
    case Obj(members) => "{" + Join(Texts(PrintMembers(members))) + "}"
  }

  function PrintItems(items: seq<Json>): seq<string>
    decreases items
  {
    if items == [] then [] else [Print(items[0])] + PrintItems(items[1..])
  }

  function PrintMember(m: Member): Entry
    decreases m, 1
  {
    Entry(m.key, Quote(m.key) + ":" + Print(m.value))
  }

  function PrintMembers(members: seq<Member>): seq<Entry>
    decreases members
  {
    if members == [] then [] else [PrintMember(members[0])] + PrintMembers(members[1..])
  }

  lemma {:induction false} InsertPrinted(m: Member, members: seq<Member>)
    ensures Sorting.Insert(ENTRY_LE, PrintMember(m), PrintMembers(members)) ==
            PrintMembers(Sorting.Insert(MEMBER_LE, m, members))
  {
    if members != [] && !MEMBER_LE(m, members[0]) {
      InsertPrinted(m, members[1..]);
      assert PrintMembers(members)[1..] == PrintMembers(members[1..]);
    } else {
      assert ([m] + members)[1..] == members;
    }
  }

  /** Sorting printed members is printing sorted members. */
  lemma {:induction false} SortPrinted(members: seq<Member>)
    ensures Sorting.Sort(ENTRY_LE, PrintMembers(members)) == PrintMembers(Sorting.Sort(MEMBER_LE, members))
  {
    if members != [] {
      SortPrinted(members[1..]);
      assert PrintMembers(members)[1..] == PrintMembers(members[1..]);
      InsertPrinted(members[0], Sorting.Sort(MEMBER_LE, members[1..]));
    }
  }

  /** Canonical JSON is the plain print of the value with its members in key order. */
  lemma {:induction false} CanonicalIsPrintOfNormal(v: Json)
    ensures Canonical(v) == Print(Normal(v))
    decreases v, 0
  {
    match v {
      case Arr(items) => CanonicalItemsArePrints(items);
      case Obj(members) =>
        CanonicalEntriesArePrints(members);
        SortPrinted(ArrangeMembers(MEMBER_LE, members));
      case _ =>
    }
  }

  lemma {:induction false} CanonicalItemsArePrints(items: seq<Json>)
    ensures CanonicalItems(items) == PrintItems(ArrangeItems(MEMBER_LE, items))
    decreases items
  {
    if items != [] {
      CanonicalIsPrintOfNormal(items[0]);
      CanonicalItemsArePrints(items[1..]);
      assert ArrangeItems(MEMBER_LE, items)[1..] == ArrangeItems(MEMBER_LE, items[1..]);
    }
  }

  lemma {:induction false} CanonicalEntriesArePrints(members: seq<Member>)
    ensures CanonicalEntries(members) == PrintMembers(ArrangeMembers(MEMBER_LE, members))
    decreases members
  {
    if members != [] {
      CanonicalIsPrintOfNormal(members[0].value);
      CanonicalEntriesArePrints(members[1..]);
      assert ArrangeMembers(MEMBER_LE, members)[1..] == ArrangeMembers(MEMBER_LE, members[1..]);
    }
  }
}
