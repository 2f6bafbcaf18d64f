/** A reader for compact JSON (sections 4 to 7 of RFC 8259, without insignificant whitespace). */
module JsonReader {
  import opened Wrappers
  import opened Json
  import opened CanonicalJson
  import opened Strings

  predicate IsNumberChar(c: char) {
    IsDigit(c) || c == '-' || c == '+' || c == '.' || c == 'e' || c == 'E'
  }

  /** The text after its leading digits. */
  function AfterDigits(s: string): (rest: string)
    ensures |rest| <= |s|
  {
    if s == "" || !IsDigit(s[0]) then s else AfterDigits(s[1..])
  }

  /** Optional exponent, then the end (section 6 of RFC 8259). */
  predicate IsExponent(s: string) {
    s == "" || ((s[0] == 'e' || s[0] == 'E')
                && var t := if |s| > 1 && (s[1] == '+' || s[1] == '-') then s[2..] else s[1..];
                   t != "" && IsDigit(t[0]) && AfterDigits(t) == "")
  }

  /** A number as section 6 of RFC 8259 spells it. */
  predicate IsNumber(s: string) {
    && s != "" && (forall c :: c in s ==> IsNumberChar(c))
    && var whole := if s[0] == '-' then s[1..] else s;
       && whole != "" && IsDigit(whole[0])
       && var frac := if whole[0] == '0' then whole[1..] else AfterDigits(whole);
          if frac != "" && frac[0] == '.'
          then |frac| > 1 && IsDigit(frac[1]) && IsExponent(AfterDigits(frac[1..]))
          else IsExponent(frac)
  }

  function NumberRun(s: string): (k: nat)
    ensures k <= |s|
  {
    if s == "" || !IsNumberChar(s[0]) then 0 else 1 + NumberRun(s[1..])
  }

  function HexValue(c: char): Option<nat> {
    if IsDigit(c) then Some(c as nat - '0' as nat)
    else if 'a' <= c <= 'f' then Some(c as nat - 'a' as nat + 10)
    else if 'A' <= c <= 'F' then Some(c as nat - 'A' as nat + 10)
    else None
  }

  /** The character an escape names, and how long the escape is; code units of surrogate pairs are not read. */
  function ReadEscape(s: string): Option<(char, nat)> {
    if |s| < 2 || s[0] != '\\' then None
    else
      match s[1]
      case '"' => Some(('"', 2))
      case '\\' => Some(('\\', 2))
      case '/' => Some(('/', 2))
      case 'b' => Some(('\U{8}', 2))
      case 'f' => Some(('\U{C}', 2))
      case 'n' => Some(('\n', 2))
      case 'r' => Some(('\r', 2))
      case 't' => Some(('\t', 2))
      case 'u' =>
        if |s| < 6 then None
        else
          (match (HexValue(s[2]), HexValue(s[3]), HexValue(s[4]), HexValue(s[5]))
           case (Some(a), Some(b), Some(c), Some(d)) =>
             var n := ((a * 16 + b) * 16 + c) * 16 + d;
             if n < 0xD800 || 0xE000 <= n < 0x1_0000 then Some((n as char, 6)) else None
           case _ => None)
      case _ => None
  }

  /** The text up to the closing quote, and what follows it. */
  function ReadText(s: string): (r: Option<(string, string)>)
    ensures r.Some? ==> |r.value.1| < |s|
    decreases |s|
  {
    if s == "" || s[0] < ' ' then None
    else if s[0] == '"' then Some(("", s[1..]))
    else if s[0] == '\\' then
      match ReadEscape(s)
      case None => None
      case Some((c, n)) =>
        if n == 0 || n > |s| then None
        else match ReadText(s[n..]) case Some((t, rest)) => Some(([c] + t, rest)) case None => None
    else match ReadText(s[1..]) case Some((t, rest)) => Some(([s[0]] + t, rest)) case None => None
  }

  /** The value at the start of the text, and what follows it. */
  function ReadValue(s: string): (r: Option<(Json, string)>)
    ensures r.Some? ==> |r.value.1| < |s|
    decreases |s|, 0
  {
    if s == "" then None
    else if s[0] == 'n' then if "null" <= s then Some((Null, s[4..])) else None
    else if s[0] == 't' then if "true" <= s then Some((Bool(true), s[4..])) else None
    else if s[0] == 'f' then if "false" <= s then Some((Bool(false), s[5..])) else None
    else if s[0] == '"' then
      match ReadText(s[1..]) case Some((t, rest)) => Some((Str(t), rest)) case None => None
    else if s[0] == '[' then
      if |s| > 1 && s[1] == ']' then Some((Arr([]), s[2..]))
      else match ReadItems(s[1..]) case Some((items, rest)) => Some((Arr(items), rest)) case None => None
    else if s[0] == '{' then
      if |s| > 1 && s[1] == '}' then Some((Obj([]), s[2..]))
      else match ReadMembers(s[1..]) case Some((members, rest)) => Some((Obj(members), rest)) case None => None
    else
      var k := NumberRun(s);
      if k > 0 && IsNumber(s[..k]) then Some((Num(s[..k]), s[k..])) else None
  }

  function ReadItems(s: string): (r: Option<(seq<Json>, string)>)
    ensures r.Some? ==> |r.value.1| < |s|
    decreases |s|, 1
  {
    match ReadValue(s)
    case None => None
    case Some((v, rest)) =>
      if rest == "" then None
      else if rest[0] == ']' then Some(([v], rest[1..]))
      else if rest[0] != ',' then None
      else match ReadItems(rest[1..]) case Some((items, end)) => Some(([v] + items, end)) case None => None
  }

  function ReadMembers(s: string): (r: Option<(seq<Member>, string)>)
    ensures r.Some? ==> |r.value.1| < |s|
    decreases |s|, 1
  {
    if s == "" || s[0] != '"' then None
    else
      match ReadText(s[1..])
      case None => None
      case Some((key, colon)) =>
        if colon == "" || colon[0] != ':' then None
        else
          match ReadValue(colon[1..])
          case None => None
          case Some((v, rest)) =>
            if rest == "" then None
            else if rest[0] == '}' then Some(([Member(key, v)], rest[1..]))
            else if rest[0] != ',' then None
            else
              match ReadMembers(rest[1..])
              case Some((members, end)) => Some(([Member(key, v)] + members, end))
              case None => None
  }

  // ----- reading undoes printing -----

  /** Numbers are spelled as numbers, at every level. */
  ghost predicate NumbersOk(v: Json) {
    match v
    case Num(digits) => IsNumber(digits)
    case Arr(items) => forall x :: x in items ==> NumbersOk(x)
    case Obj(members) => forall m :: m in members ==> NumbersOk(m.value)
    case _ => true
  }

  /** What may follow a value in compact JSON. */
  predicate EndsValue(rest: string) {
    rest == "" || rest[0] == ',' || rest[0] == ']' || rest[0] == '}'
  }

  lemma HexRoundTrip(n: nat)
    requires n < 16
    ensures HexValue(HexDigit(n)) == Some(n)
  {
    assert n == 0 || n == 1 || n == 2 || n == 3 || n == 4 || n == 5 || n == 6 || n == 7
        || n == 8 || n == 9 || n == 10 || n == 11 || n == 12 || n == 13 || n == 14 || n == 15;
  }

  lemma {:induction false} ReadShortEscape(c: char, rest: string)
    requires |EscapeChar(c)| == 2
    ensures ReadEscape(EscapeChar(c) + rest) == Some((c, 2))
  {
    var e := EscapeChar(c);
    assert (e + rest)[0] == e[0] && (e + rest)[1] == e[1];
  }

  lemma {:induction false} ReadHexEscape(c: char, rest: string)
    requires |EscapeChar(c)| == 6
    ensures ReadEscape(EscapeChar(c) + rest) == Some((c, 6))
  {
    var e, n := EscapeChar(c), c as nat;
    var s := e + rest;
    assert s[0] == '\\' && s[1] == 'u' && s[2] == '0' && s[3] == '0';
    assert s[4] == HexDigit(n / 16) && s[5] == HexDigit(n % 16);
    HexRoundTrip(n / 16);
    HexRoundTrip(n % 16);
    assert HexValue('0') == Some(0);
  }

  lemma {:induction false} ReadEscapedChar(c: char, rest: string)
    requires ReadText(rest).Some?
    ensures ReadText(EscapeChar(c) + rest) == Some(([c] + ReadText(rest).value.0, ReadText(rest).value.1))
  {
    var e := EscapeChar(c);
    var s := e + rest;
    assert s[|e|..] == rest && s[0] == e[0];
    if |e| == 6 {
      ReadHexEscape(c, rest);
    } else if |e| == 2 {
      ReadShortEscape(c, rest);
    }
  }

  /** Reading an escaped string gives the string back. */
  lemma {:induction false} ReadEscapedText(t: string, rest: string)
    ensures ReadText(EscapeText(t) + "\"" + rest) == Some((t, rest))
  {
    if t == "" {
      assert EscapeText(t) + "\"" + rest == "\"" + rest;
    } else {
      var tail := EscapeText(t[1..]) + "\"" + rest;
      ReadEscapedText(t[1..], rest);
      assert EscapeText(t) + "\"" + rest == EscapeChar(t[0]) + tail;
      ReadEscapedChar(t[0], tail);
      assert t == [t[0]] + t[1..];
    }
  }

  lemma {:induction false} NumberRunIs(digits: string, rest: string)
    requires (forall c :: c in digits ==> IsNumberChar(c)) && EndsValue(rest)
    ensures NumberRun(digits + rest) == |digits|
  {
    if digits == "" {
      assert digits + rest == rest;
    } else {
      assert digits[0] in digits;
      assert (digits + rest)[1..] == digits[1..] + rest;
      NumberRunIs(digits[1..], rest);
    }
  }

  lemma {:induction false} ReadNumber(digits: string, rest: string)
    requires IsNumber(digits) && EndsValue(rest)
    ensures ReadValue(digits + rest) == Some((Num(digits), rest))
  {
    var s := digits + rest;
    NumberRunIs(digits, rest);
    assert s[0] == digits[0] && digits[0] in digits;
    assert s[..|digits|] == digits && s[|digits|..] == rest;
  }

  lemma {:induction false} QuoteOpens(t: string, rest: string)
    ensures (Quote(t) + rest)[0] == '"' && (Quote(t) + rest)[1..] == EscapeText(t) + "\"" + rest
  {
  }

  lemma {:induction false} ReadQuoted(t: string, rest: string)
    ensures ReadValue(Quote(t) + rest) == Some((Str(t), rest))
    ensures (Quote(t) + rest)[0] == '"' && ReadText((Quote(t) + rest)[1..]) == Some((t, rest))
  {
    QuoteOpens(t, rest);
    ReadEscapedText(t, rest);
  }

  /** How a printed value starts. */
  lemma {:induction false} PrintStarts(v: Json)
    requires NumbersOk(v)
    ensures Print(v) != "" && Print(v)[0] !in {']', '}', ',', ':'}
  {
    if v.Num? {
      assert v.digits[0] in v.digits;
    }
  }

  /** Reading what was printed gives the value back, with its members in the same order, and stops right after it. */
  lemma {:induction false} ReadPrinted(v: Json, rest: string)
    requires NumbersOk(v) && EndsValue(rest)
    ensures ReadValue(Print(v) + rest) == Some((v, rest))
    decreases v, 0
  {
    var s := Print(v) + rest;
    match v {
      case Null =>
        assert s[4..] == rest && s[0] == 'n';
      case Bool(b) =>
        assert if b then s[0] == 't' && s[4..] == rest else s[0] == 'f' && s[5..] == rest;
      case Num(digits) => ReadNumber(digits, rest);
      case Str(t) => ReadQuoted(t, rest);
      case Arr(items) => ReadPrintedArray(items, rest);
      case Obj(members) => ReadPrintedObject(members, rest);
    }
  }

  lemma {:induction false} ReadPrintedArray(items: seq<Json>, rest: string)
    requires forall x :: x in items ==> NumbersOk(x)
    ensures ReadValue(Print(Arr(items)) + rest) == Some((Arr(items), rest))
    decreases items, 1
  {
    var s := Print(Arr(items)) + rest;
    if items == [] {
      assert s == "[]" + rest && s[2..] == rest;
    } else {
      var body := Join(PrintItems(items)) + "]" + rest;
      assert s == "[" + body && s[0] == '[' && s[1..] == body;
      JoinedItemsStart(items, "]" + rest);
      ReadPrintedItems(items, rest);
    }
  }

  lemma {:induction false} ReadPrintedObject(members: seq<Member>, rest: string)
    requires forall m :: m in members ==> NumbersOk(m.value)
    ensures ReadValue(Print(Obj(members)) + rest) == Some((Obj(members), rest))
    decreases members, 1
  {
    var s := Print(Obj(members)) + rest;
    if members == [] {
      assert s == "{}" + rest && s[2..] == rest;
    } else {
      var body := Join(Texts(PrintMembers(members))) + "}" + rest;
      assert s == "{" + body && s[0] == '{' && s[1..] == body;
      BodyStarts(members, rest);
      ReadPrintedMembers(members, rest);
      ObjectGoesOn(s, members, rest);
    }
  }

  lemma {:induction false} BodyStarts(members: seq<Member>, rest: string)
    requires members != []
    ensures var body := Join(Texts(PrintMembers(members))) + "}" + rest; body != "" && body[0] == '"'
  {
    assert Texts(PrintMembers(members))[0] == PrintMember(members[0]).text;
  }

  lemma {:induction false} ObjectGoesOn(s: string, members: seq<Member>, rest: string)
    requires |s| > 1 && s[0] == '{' && s[1] != '}' && ReadMembers(s[1..]) == Some((members, rest))
    ensures ReadValue(s) == Some((Obj(members), rest))
  {
  }

  lemma {:induction false} JoinedItemsStart(items: seq<Json>, rest: string)
    requires items != [] && NumbersOk(items[0])
    ensures var s := Join(PrintItems(items)) + rest; s != "" && s[0] != ']'
  {
    PrintStarts(items[0]);
    assert PrintItems(items)[0] == Print(items[0]);
  }

  lemma {:induction false} ReadPrintedItems(items: seq<Json>, rest: string)
    requires items != [] && forall x :: x in items ==> NumbersOk(x)
    ensures ReadItems(Join(PrintItems(items)) + "]" + rest) == Some((items, rest))
    decreases items, 0
  {
    var first, more := items[0], items[1..];
    assert PrintItems(items) == [Print(first)] + PrintItems(more);
    var s := Join(PrintItems(items)) + "]" + rest;
    if more == [] {
      assert s == Print(first) + ("]" + rest);
      ReadPrinted(first, "]" + rest);
      assert items == [first];
    } else {
      var tail := Join(PrintItems(more)) + "]" + rest;
      assert PrintItems(items)[1..] == PrintItems(more);
      assert s == Print(first) + ("," + tail);
      ReadPrinted(first, "," + tail);
      ReadPrintedItems(more, rest);
      assert ("," + tail)[1..] == tail;
      assert items == [first] + more;
    }
  }

  /** Reading members, once the first one and what follows it are known. */
  function ContinueMembers(m: Member, after: string): Option<(seq<Member>, string)> {
    if after == "" then None
    else if after[0] == '}' then Some(([m], after[1..]))
    else if after[0] != ',' then None
    else match ReadMembers(after[1..]) case Some((members, end)) => Some(([m] + members, end)) case None => None
  }

  lemma {:induction false} ReadMembersGoesOn(s: string, m: Member, colon: string, after: string)
    requires s != "" && s[0] == '"' && ReadText(s[1..]) == Some((m.key, colon))
    requires colon != "" && colon[0] == ':' && ReadValue(colon[1..]) == Some((m.value, after))
    ensures ReadMembers(s) == ContinueMembers(m, after)
  {
  }

  lemma {:induction false} MemberTextStarts(m: Member, after: string)
    ensures PrintMember(m).text + after == Quote(m.key) + (":" + (Print(m.value) + after))
  {
  }

  lemma {:induction false} ReadFirstMember(m: Member, after: string)
    requires NumbersOk(m.value) && EndsValue(after)
    ensures ReadMembers(PrintMember(m).text + after) == ContinueMembers(m, after)
    decreases m, 1
  {
    var value := Print(m.value) + after;
    var colon := ":" + value;
    MemberTextStarts(m, after);
    ReadQuoted(m.key, colon);
    assert colon[1..] == value;
    ReadPrinted(m.value, after);
    ReadMembersGoesOn(Quote(m.key) + colon, m, colon, after);
  }

  /** What follows the first member in the text of an object. */
  function MembersTail(more: seq<Member>, rest: string): string {
    if more == [] then "}" + rest else "," + (Join(Texts(PrintMembers(more))) + "}" + rest)
  }

  lemma {:induction false} JoinedMembers(m: Member, more: seq<Member>, rest: string)
    ensures Join(Texts(PrintMembers([m] + more))) + "}" + rest == PrintMember(m).text + MembersTail(more, rest)
  {
    var text, texts := PrintMember(m).text, Texts(PrintMembers(more));
    assert PrintMembers([m] + more)[1..] == PrintMembers(more);
    assert Texts(PrintMembers([m] + more)) == [text] + texts && ([text] + texts)[1..] == texts;
    if more == [] {
      assert text + "}" + rest == text + ("}" + rest);
    } else {
      assert text + "," + Join(texts) + "}" + rest == text + ("," + (Join(texts) + "}" + rest));
    }
  }

  lemma {:induction false} ReadPrintedMembers(members: seq<Member>, rest: string)
    requires members != [] && forall m :: m in members ==> NumbersOk(m.value)
    ensures ReadMembers(Join(Texts(PrintMembers(members))) + "}" + rest) == Some((members, rest))
    decreases members, 0
  {
    var m, more := members[0], members[1..];
    assert members == [m] + more;
    JoinedMembers(m, more, rest);
    var tail := MembersTail(more, rest);
    ReadFirstMember(m, tail);
    if more == [] {
      assert tail[1..] == rest && members == [m];
    } else {
      ReadPrintedMembers(more, rest);
      assert tail[1..] == Join(Texts(PrintMembers(more))) + "}" + rest;
    }
  }
}
