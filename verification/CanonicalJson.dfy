// The canonical text of a JSON value (src/agent_runtime_client.cpp, compactJsonValue and
// canonicalTimelineDataValue), and a parser that reads it back.

module CanonicalJson {
  import opened Options
  import opened Bytes
  import opened Decimal
  import opened Json
  import opened KeyOrder

  // ---------------------------------------------------------------------
  // Texts

  /** One character inside quotes. */
  function Escaped(c: char): (r: string)
    ensures r != ""
  {
    if c == '"' || c == '\\' then ['\\', c]
    else if c as int >= 0x20 then [c]
    else if c as int == 0x08 then ['\\', 'b']
    else if c as int == 0x0c then ['\\', 'f']
    else if c == '\n' then ['\\', 'n']
    else if c == '\r' then ['\\', 'r']
    else if c == '\t' then ['\\', 't']
    else ['\\', 'u', '0', '0', HexDigit(c as int / 16), HexDigit(c as int % 16)]
  }

  function EscapedText(text: string): string
    decreases |text|
  {
    if text == "" then "" else Escaped(text[0]) + EscapedText(text[1..])
  }

  function Quoted(text: string): string {
    ['"'] + EscapedText(text) + ['"']
  }

  // ---------------------------------------------------------------------
  // The printer

  /** A value that has a canonical text: no undefined value and no fraction anywhere. */
  ghost predicate Plain(value: Json)
    decreases value
  {
    match value
    case Undefined => false
    case Fraction(_) => false
    case Array(items) => forall i | 0 <= i < |items| :: Plain(items[i])
    case Object(fields) => forall key | key in fields :: Plain(fields[key])
    case _ => true
  }

  /** canonicalTimelineDataValue */
  ghost function Print(value: Json): string
    decreases value, 1
  {
    match value
    case Undefined => "null"
    case Null => "null"
    case Boolean(b) => if b then "true" else "false"
    case Integer(n) => OfInt(n)
    case Fraction(digits) => digits
    case Text(text) => Quoted(text)
    case Array(items) => ['['] + PrintItems(items) + [']']
    case Object(fields) => ['{'] + PrintMembers(fields, SortedKeys(fields.Keys)) + ['}']
  }

  ghost function PrintItems(items: seq<Json>): string
    decreases items, 0
  {
    if items == [] then ""
    else if |items| == 1 then Print(items[0])
    else Print(items[0]) + [','] + PrintItems(items[1..])
  }

  ghost function PrintMember(fields: Fields, key: string): string
    requires key in fields
    decreases Object(fields), 0, 0
  {
    Quoted(key) + [':'] + Print(fields[key])
  }

  ghost function PrintMembers(fields: Fields, keys: seq<string>): string
    requires forall k | 0 <= k < |keys| :: keys[k] in fields
    decreases Object(fields), 0, 1, |keys|
  {
    if keys == [] then ""
    else if |keys| == 1 then PrintMember(fields, keys[0])
    else PrintMember(fields, keys[0]) + [','] + PrintMembers(fields, keys[1..])
  }

  // ---------------------------------------------------------------------
  // The parser

  type Parsed<T> = Option<(T, string)>

  function HexValue(c: char): nat {
    if '0' <= c <= '9' then c as int - '0' as int
    else if 'a' <= c <= 'f' then c as int - 'a' as int + 10
    else 0
  }

  /** What the character behind a backslash stands for. */
  function Unescaped(e: char): char {
    if e == 'b' then 0x08 as char
    else if e == 'f' then 0x0c as char
    else if e == 'n' then '\n'
    else if e == 'r' then '\r'
    else if e == 't' then '\t'
    else e
  }

  /** One character inside quotes, and what follows it; None at the closing quote. */
  function ParseChar(s: string): (r: Parsed<char>)
    ensures r.Some? ==> |r.value.1| < |s|
  {
    if s == "" || s[0] == '"' then None
    else if s[0] != '\\' then Some((s[0], s[1..]))
    else if |s| < 2 then None
    else if s[1] != 'u' then Some((Unescaped(s[1]), s[2..]))
    else if |s| < 6 then None
    else Some(((HexValue(s[4]) * 16 + HexValue(s[5])) as char, s[6..]))
  }

  /** The rest of a quoted text. */
  function ParseText(s: string): (r: Parsed<string>)
    ensures r.Some? ==> |r.value.1| < |s|
    decreases |s|
  {
    match ParseChar(s)
    case None => if s != "" && s[0] == '"' then Some(("", s[1..])) else None
    case Some((c, rest)) =>
      match ParseText(rest)
      case None => None
      case Some((text, after)) => Some(([c] + text, after))
  }

  function DigitCount(s: string): (n: nat)
    ensures n <= |s|
    ensures forall i | 0 <= i < n :: IsDigit(s[i])
    decreases |s|
  {
    if s == "" || !IsDigit(s[0]) then 0 else 1 + DigitCount(s[1..])
  }

  function ParseNat(s: string): (r: Parsed<nat>)
    ensures r.Some? ==> |r.value.1| < |s|
  {
    var n := DigitCount(s);
    if n == 0 then None else Some((NatOf(s[..n]), s[n..]))
  }

  function ParseNumber(s: string): (r: Parsed<Json>)
    ensures r.Some? ==> |r.value.1| < |s|
  {
    if s != "" && s[0] == '-' then
      (match ParseNat(s[1..]) case None => None case Some((n, rest)) => var m: int := n; Some((Integer(-m), rest)))
    else
      (match ParseNat(s) case None => None case Some((n, rest)) => Some((Integer(n), rest)))
  }

  function ParseWord(s: string): (r: Parsed<Json>)
    ensures r.Some? ==> |r.value.1| < |s|
  {
    if "null" <= s then Some((Null, s[4..]))
    else if "true" <= s then Some((Boolean(true), s[4..]))
    else if "false" <= s then Some((Boolean(false), s[5..]))
    else None
  }

  predicate Starts(s: string, c: char) {
    s != "" && s[0] == c
  }

  /** One value at the front of a text, and what follows it. */
  function ParseValue(s: string): (r: Parsed<Json>)
    ensures r.Some? ==> |r.value.1| < |s|
    decreases |s|, 2
  {
    if Starts(s, '"') then
      (match ParseText(s[1..]) case None => None case Some((text, rest)) => Some((Text(text), rest)))
    else if Starts(s, '[') then
      if Starts(s[1..], ']') then Some((Array([]), s[2..]))
      else (match ParseItems(s[1..]) case None => None case Some((items, rest)) => Some((Array(items), rest)))
    else if Starts(s, '{') then
      if Starts(s[1..], '}') then Some((Object(map[]), s[2..]))
      else (match ParseMembers(s[1..]) case None => None case Some((fields, rest)) => Some((Object(fields), rest)))
    else if s != "" && (s[0] == '-' || IsDigit(s[0])) then ParseNumber(s)
    else ParseWord(s)
  }

  /** The items of an array up to its closing bracket. */
  function ParseItems(s: string): (r: Parsed<seq<Json>>)
    ensures r.Some? ==> |r.value.1| < |s|
    decreases |s|, 3
  {
    match ParseValue(s)
    case None => None
    case Some((value, rest)) =>
      if Starts(rest, ']') then Some(([value], rest[1..]))
      else if !Starts(rest, ',') then None
      else
        match ParseItems(rest[1..])
        case None => None
        case Some((values, after)) => Some(([value] + values, after))
  }

  /** One key with its value. */
  function ParseMember(s: string): (r: Parsed<(string, Json)>)
    ensures r.Some? ==> |r.value.1| < |s|
    decreases |s|, 3
  {
    if !Starts(s, '"') then None
    else
      match ParseText(s[1..])
      case None => None
      case Some((key, rest)) =>
        if !Starts(rest, ':') then None
        else
          match ParseValue(rest[1..])
          case None => None
          case Some((value, after)) => Some(((key, value), after))
  }

  /** The members of an object up to its closing brace. */
  function ParseMembers(s: string): (r: Parsed<Fields>)
    ensures r.Some? ==> |r.value.1| < |s|
    decreases |s|, 4
  {
    match ParseMember(s)
    case None => None
    case Some(((key, value), rest)) =>
      if Starts(rest, '}') then Some((map[key := value], rest[1..]))
      else if !Starts(rest, ',') then None
      else
        match ParseMembers(rest[1..])
        case None => None
        case Some((fields, after)) => Some((fields[key := value], after))
  }

  // ---------------------------------------------------------------------
  // Scalars are read back

  lemma CharRoundTrip(c: char, rest: string)
    ensures ParseChar(Escaped(c) + rest) == Some((c, rest))
  {
    var s := Escaped(c) + rest;
    assert s[0] == Escaped(c)[0] && s[|Escaped(c)|..] == rest;
    if |Escaped(c)| == 2 {
      assert s[1] == Escaped(c)[1];
    } else if |Escaped(c)| == 6 {
      assert s[1] == 'u' && s[4] == HexDigit(c as int / 16) && s[5] == HexDigit(c as int % 16);
      assert HexValue(s[4]) * 16 + HexValue(s[5]) == c as int;
    }
  }

  lemma {:induction false} TextRoundTrip(text: string, rest: string)
    ensures ParseText(EscapedText(text) + ['"'] + rest) == Some((text, rest))
    decreases |text|
  {
    var s := EscapedText(text) + ['"'] + rest;
    if text == "" {
      assert s == ['"'] + rest && s[1..] == rest;
    } else {
      var after := EscapedText(text[1..]) + ['"'] + rest;
      assert s == Escaped(text[0]) + after;
      CharRoundTrip(text[0], after);
      TextRoundTrip(text[1..], rest);
      assert [text[0]] + text[1..] == text;
    }
  }

  /** A continuation that cannot be mistaken for more digits. */
  predicate Closed(rest: string) {
    rest == "" || !IsDigit(rest[0])
  }

  lemma {:induction false} DigitsCounted(digits: string, rest: string)
    requires (forall i | 0 <= i < |digits| :: IsDigit(digits[i])) && Closed(rest)
    ensures DigitCount(digits + rest) == |digits|
    decreases |digits|
  {
    var s := digits + rest;
    if digits == "" {
      assert s == rest;
    } else {
      assert s[0] == digits[0] && s[1..] == digits[1..] + rest;
      DigitsCounted(digits[1..], rest);
    }
  }

  lemma NatParses(n: nat, rest: string)
    requires Closed(rest)
    ensures ParseNat(OfNat(n) + rest) == Some((n, rest))
  {
    var digits := OfNat(n);
    forall i | 0 <= i < |digits|
      ensures IsDigit(digits[i])
    {
      assert digits[i] in digits;
    }
    DigitsCounted(digits, rest);
    var s := digits + rest;
    assert s[..|digits|] == digits && s[|digits|..] == rest;
    NatRoundTrip(n);
  }

  lemma NaturalParses(n: nat, rest: string)
    requires Closed(rest)
    ensures ParseNumber(OfNat(n) + rest) == Some((Integer(n), rest))
    ensures IsDigit(OfNat(n)[0])
  {
    var digits := OfNat(n);
    assert digits[0] in digits;
    assert (digits + rest)[0] == digits[0];
    NatParses(n, rest);
  }

  lemma NegativeParses(n: int, rest: string)
    requires n >= 0 && Closed(rest)
    ensures ParseNumber("-" + OfNat(n) + rest) == Some((Integer(-n), rest))
  {
    var s := "-" + OfNat(n) + rest;
    assert s == "-" + (OfNat(n) + rest);
    assert s[0] == '-' && s[1..] == OfNat(n) + rest;
    NatParses(n, rest);
  }

  lemma IntegerParses(n: int, rest: string)
    requires Closed(rest)
    ensures ParseNumber(OfInt(n) + rest) == Some((Integer(n), rest))
    ensures OfInt(n)[0] == '-' || IsDigit(OfInt(n)[0])
  {
    if n < 0 {
      NegativeParses(-n, rest);
    } else {
      NaturalParses(n, rest);
    }
  }

  lemma NumberParses(n: int, rest: string)
    requires Closed(rest)
    ensures ParseValue(OfInt(n) + rest) == Some((Integer(n), rest))
  {
    IntegerParses(n, rest);
    NumberIsParsed(OfInt(n) + rest);
  }

  lemma NumberIsParsed(s: string)
    requires s != "" && (s[0] == '-' || IsDigit(s[0]))
    ensures ParseValue(s) == ParseNumber(s)
  {
  }

  lemma TextParses(text: string, rest: string)
    ensures ParseValue(Quoted(text) + rest) == Some((Text(text), rest))
  {
    var s := Quoted(text) + rest;
    assert s[0] == '"' && s[1..] == EscapedText(text) + ['"'] + rest;
    TextRoundTrip(text, rest);
  }

  lemma WordParses(rest: string)
    ensures ParseValue("null" + rest) == Some((Null, rest))
    ensures ParseValue("true" + rest) == Some((Boolean(true), rest))
    ensures ParseValue("false" + rest) == Some((Boolean(false), rest))
  {
    assert ("null" + rest)[..4] == "null" && ("null" + rest)[4..] == rest;
    assert ("true" + rest)[..4] == "true" && ("true" + rest)[4..] == rest;
    assert ("false" + rest)[..5] == "false" && ("false" + rest)[5..] == rest;
  }

  // ---------------------------------------------------------------------
  // Containers are read back

  lemma ScalarParses(value: Json, rest: string)
    requires Plain(value) && !value.Array? && !value.Object? && Closed(rest)
    ensures ParseValue(Print(value) + rest) == Some((value, rest))
  {
    match value {
      case Integer(n) => NumberParses(n, rest);
      case Text(text) => TextParses(text, rest);
      case _ => WordParses(rest);
    }
  }

  /** No value starts with what ends a container. */
  lemma ValueStarts(value: Json, rest: string)
    requires Plain(value)
    ensures !Starts(Print(value) + rest, ']') && !Starts(Print(value) + rest, '}')
  {
    if value.Integer? {
      IntegerParses(value.n, "");
      assert (Print(value) + rest)[0] == OfInt(value.n)[0];
    }
  }

  /** The list of items, with the rest behind the first one set apart. */
  lemma ItemsSplit(items: seq<Json>, rest: string)
    requires items != []
    ensures PrintItems(items) + [']'] + rest
         == Print(items[0]) + (if |items| == 1 then [']'] + rest else [','] + (PrintItems(items[1..]) + [']'] + rest))
  {
    if |items| == 1 {
      Regroup(Print(items[0]), [']'], rest);
    } else {
      Rebracket(Print(items[0]), [','], PrintItems(items[1..]), [']'], rest);
    }
  }

  lemma Rebracket(first: string, comma: string, more: string, close: string, rest: string)
    ensures first + comma + more + close + rest == first + (comma + (more + close + rest))
  {
    Regroup(first + comma + more, close, rest);
    Regroup(first + comma, more, close + rest);
    Regroup(first, comma, more + (close + rest));
    Regroup(more, close, rest);
  }

  /** The last item, and one before others. */
  lemma ItemsParse(s: string, value: Json, tail: string)
    requires ParseValue(s) == Some((value, tail))
    ensures Starts(tail, ']') ==> ParseItems(s) == Some(([value], tail[1..]))
    ensures Starts(tail, ',') && ParseItems(tail[1..]).Some? ==>
              var (items, after) := ParseItems(tail[1..]).value;
              ParseItems(s) == Some(([value] + items, after))
  {
  }

  lemma LastItemParses(items: seq<Json>, rest: string)
    requires |items| == 1 && ParseValue(Print(items[0]) + ([']'] + rest)) == Some((items[0], [']'] + rest))
    ensures ParseItems(PrintItems(items) + [']'] + rest) == Some((items, rest))
  {
    ItemsSplit(items, rest);
    Behind(']', rest);
    ItemsParse(PrintItems(items) + [']'] + rest, items[0], [']'] + rest);
    assert items == [items[0]];
  }

  lemma MoreItemsParse(items: seq<Json>, after: string, rest: string)
    requires |items| > 1 && after == PrintItems(items[1..]) + [']'] + rest
    requires ParseValue(Print(items[0]) + ([','] + after)) == Some((items[0], [','] + after))
    requires ParseItems(after) == Some((items[1..], rest))
    ensures ParseItems(PrintItems(items) + [']'] + rest) == Some((items, rest))
  {
    ItemsSplit(items, rest);
    Behind(',', after);
    FirstAndRest(items);
    ItemsParse(PrintItems(items) + [']'] + rest, items[0], [','] + after);
  }

  lemma Behind(c: char, rest: string)
    ensures Starts([c] + rest, c) && ([c] + rest)[1..] == rest
  {
  }

  lemma FirstAndRest<T>(list: seq<T>)
    requires list != []
    ensures list == [list[0]] + list[1..]
  {
  }

  lemma {:induction false} ItemsRoundTrip(items: seq<Json>, rest: string)
    requires items != [] && (forall i | 0 <= i < |items| :: Plain(items[i]))
    ensures ParseItems(PrintItems(items) + [']'] + rest) == Some((items, rest))
    decreases items, 0
  {
    if |items| == 1 {
      ValueRoundTrip(items[0], [']'] + rest);
      LastItemParses(items, rest);
    } else {
      var after := PrintItems(items[1..]) + [']'] + rest;
      ValueRoundTrip(items[0], [','] + after);
      ItemsRoundTrip(items[1..], rest);
      MoreItemsParse(items, after, rest);
    }
  }

  function Restrict(fields: Fields, keys: seq<string>): Fields
    requires forall k | 0 <= k < |keys| :: keys[k] in fields
    decreases |keys|
  {
    if keys == [] then map[] else Restrict(fields, keys[1..])[keys[0] := fields[keys[0]]]
  }

  lemma {:induction false} RestrictIs(fields: Fields, keys: seq<string>)
    requires forall k | 0 <= k < |keys| :: keys[k] in fields
    ensures forall key :: key in Restrict(fields, keys) <==> key in keys
    ensures forall key | key in Restrict(fields, keys) :: Restrict(fields, keys)[key] == fields[key]
    decreases |keys|
  {
    if keys != [] {
      RestrictIs(fields, keys[1..]);
      assert keys == [keys[0]] + keys[1..];
    }
  }

  lemma MemberParses(s: string, key: string, value: Json, after: string, rest: string)
    requires Starts(s, '"') && ParseText(s[1..]) == Some((key, [':'] + after))
    requires ParseValue(after) == Some((value, rest))
    ensures ParseMember(s) == Some(((key, value), rest))
  {
    assert ([':'] + after)[1..] == after;
  }

  lemma MemberRoundTrip(fields: Fields, key: string, rest: string)
    requires key in fields && Plain(fields[key]) && Closed(rest)
    ensures ParseMember(PrintMember(fields, key) + rest) == Some(((key, fields[key]), rest))
    decreases Object(fields), 0, 0
  {
    var after := Print(fields[key]) + rest;
    QuotedThen(key, ':', Print(fields[key]), rest);
    TextRoundTrip(key, [':'] + after);
    ValueRoundTrip(fields[key], rest);
    MemberParses(PrintMember(fields, key) + rest, key, fields[key], after, rest);
  }

  lemma QuotedThen(text: string, c: char, value: string, rest: string)
    ensures var s := Quoted(text) + [c] + value + rest;
            s[0] == '"' && s[1..] == EscapedText(text) + ['"'] + ([c] + (value + rest))
  {
  }

  /** The list of members, with the rest behind the first one set apart. */
  lemma MembersSplit(fields: Fields, keys: seq<string>, rest: string)
    requires keys != [] && forall k | 0 <= k < |keys| :: keys[k] in fields
    ensures PrintMembers(fields, keys) + ['}'] + rest
         == PrintMember(fields, keys[0])
            + (if |keys| == 1 then ['}'] + rest else [','] + (PrintMembers(fields, keys[1..]) + ['}'] + rest))
  {
    if |keys| == 1 {
      Regroup(PrintMember(fields, keys[0]), ['}'], rest);
    } else {
      Rebracket(PrintMember(fields, keys[0]), [','], PrintMembers(fields, keys[1..]), ['}'], rest);
    }
  }

  /** The last member, and one before others. */
  lemma MembersParse(s: string, key: string, value: Json, tail: string)
    requires ParseMember(s) == Some(((key, value), tail))
    ensures Starts(tail, '}') ==> ParseMembers(s) == Some((map[key := value], tail[1..]))
    ensures Starts(tail, ',') && ParseMembers(tail[1..]).Some? ==>
              var (fields, after) := ParseMembers(tail[1..]).value;
              ParseMembers(s) == Some((fields[key := value], after))
  {
  }

  lemma {:induction false} MembersRoundTrip(fields: Fields, keys: seq<string>, rest: string)
    requires keys != [] && forall k | 0 <= k < |keys| :: keys[k] in fields && Plain(fields[keys[k]])
    ensures ParseMembers(PrintMembers(fields, keys) + ['}'] + rest) == Some((Restrict(fields, keys), rest))
    decreases Object(fields), 0, 1, |keys|
  {
    var s := PrintMembers(fields, keys) + ['}'] + rest;
    MembersSplit(fields, keys, rest);
    if |keys| == 1 {
      var tail := ['}'] + rest;
      MemberRoundTrip(fields, keys[0], tail);
      MembersParse(s, keys[0], fields[keys[0]], tail);
      assert tail[1..] == rest && Restrict(fields, keys[1..]) == map[];
    } else {
      var after := PrintMembers(fields, keys[1..]) + ['}'] + rest;
      MemberRoundTrip(fields, keys[0], [','] + after);
      MembersRoundTrip(fields, keys[1..], rest);
      assert ([','] + after)[1..] == after;
      MembersParse(s, keys[0], fields[keys[0]], [','] + after);
    }
  }

  lemma ArrayRoundTrip(items: seq<Json>, rest: string)
    requires forall i | 0 <= i < |items| :: Plain(items[i])
    ensures ParseValue(Print(Array(items)) + rest) == Some((Array(items), rest))
    decreases items, 1
  {
    var s := Print(Array(items)) + rest;
    var inner := PrintItems(items) + [']'] + rest;
    assert s[0] == '[' && s[1..] == inner;
    if items == [] {
      assert inner == [']'] + rest && s[2..] == rest;
    } else {
      ItemsStart(items, [']'] + rest);
      assert inner == PrintItems(items) + ([']'] + rest);
      ItemsRoundTrip(items, rest);
    }
  }

  lemma ItemsStart(items: seq<Json>, rest: string)
    requires items != [] && Plain(items[0])
    ensures !Starts(PrintItems(items) + rest, ']')
  {
    if |items| == 1 {
      ValueStarts(items[0], rest);
    } else {
      var more := PrintItems(items[1..]);
      ValueStarts(items[0], [','] + more + rest);
      Regrouped(Print(items[0]), [','], more, rest);
    }
  }

  lemma Regrouped(a: string, b: string, c: string, d: string)
    ensures a + b + c + d == a + (b + c + d)
  {
  }

  lemma MembersStart(fields: Fields, keys: seq<string>, rest: string)
    requires keys != [] && forall k | 0 <= k < |keys| :: keys[k] in fields
    ensures Starts(PrintMembers(fields, keys) + rest, '"')
  {
    assert PrintMember(fields, keys[0])[0] == '"';
  }

  lemma ObjectParses(inner: string, fields: Fields, rest: string)
    requires !Starts(inner, '}') && ParseMembers(inner) == Some((fields, rest))
    ensures ParseValue(['{'] + inner) == Some((Object(fields), rest))
  {
    assert (['{'] + inner)[1..] == inner;
  }

  lemma EmptyObjectParses(rest: string)
    ensures ParseValue(['{'] + ['}'] + rest) == Some((Object(map[]), rest))
  {
    var s := ['{'] + ['}'] + rest;
    assert s[1..] == ['}'] + rest && s[2..] == rest;
  }

  lemma ListedObjectParses(fields: Fields, keys: seq<string>, rest: string)
    requires forall key | key in fields :: Plain(fields[key])
    requires keys != [] && (forall k | 0 <= k < |keys| :: keys[k] in fields) && (forall key | key in fields :: key in keys)
    ensures ParseValue(['{'] + PrintMembers(fields, keys) + ['}'] + rest) == Some((Object(fields), rest))
    decreases Object(fields), 0, 2
  {
    var members := PrintMembers(fields, keys);
    Braced(members, rest);
    MembersStart(fields, keys, ['}'] + rest);
    MembersRoundTrip(fields, keys, rest);
    RestrictAll(fields, keys);
    ObjectParses(members + ['}'] + rest, fields, rest);
  }

  lemma Braced(members: string, rest: string)
    ensures ['{'] + members + ['}'] + rest == ['{'] + (members + ['}'] + rest)
    ensures members + ['}'] + rest == members + (['}'] + rest)
  {
  }

  lemma RestrictAll(fields: Fields, keys: seq<string>)
    requires (forall k | 0 <= k < |keys| :: keys[k] in fields) && (forall key | key in fields :: key in keys)
    ensures Restrict(fields, keys) == fields
  {
    RestrictIs(fields, keys);
  }

  lemma ObjectRoundTrip(fields: Fields, rest: string)
    requires forall key | key in fields :: Plain(fields[key])
    ensures ParseValue(Print(Object(fields)) + rest) == Some((Object(fields), rest))
    decreases Object(fields), 0, 3
  {
    var keys := SortedKeys(fields.Keys);
    SortedKeysList(fields.Keys);
    if keys == [] {
      assert fields == map[];
      EmptyObjectParses(rest);
    } else {
      ListedObjectParses(fields, keys, rest);
    }
  }

  /** The parser reads back every value that has a canonical text, whatever follows it. */
  lemma {:induction false} ValueRoundTrip(value: Json, rest: string)
    requires Plain(value) && Closed(rest)
    ensures ParseValue(Print(value) + rest) == Some((value, rest))
    decreases value, 1
  {
    match value {
      case Array(items) => ArrayRoundTrip(items, rest);
      case Object(fields) => ObjectRoundTrip(fields, rest);
      case _ => ScalarParses(value, rest);
    }
  }

  /** Hence two canonical texts in front of the same text are texts of the same value. */
  lemma Unambiguous(a: Json, b: Json, restA: string, restB: string)
    requires Plain(a) && Plain(b) && Closed(restA) && Closed(restB)
    requires Print(a) + restA == Print(b) + restB
    ensures a == b && restA == restB
  {
    ValueRoundTrip(a, restA);
    ValueRoundTrip(b, restB);
  }

  // ---------------------------------------------------------------------
  // Records with fixed keys, printed in the order of a list

  /** The key of a member, behind the brace or comma that comes before it. */
  function Key(opening: char, key: string): string {
    [opening, '"'] + key + ['"', ':']
  }

  /** The members of a record, without its closing brace. */
  ghost function PrintRecord(opening: char, keys: seq<string>, fields: Fields): string
    decreases |keys|
  {
    if keys == [] then "" else Key(opening, keys[0]) + Print(Value(fields, keys[0])) + PrintRecord(',', keys[1..], fields)
  }

  predicate Separates(c: char) {
    c == '{' || c == ','
  }

  lemma RecordCloses(opening: char, keys: seq<string>, fields: Fields, rest: string)
    requires Separates(opening) && Closed(rest)
    ensures Closed(PrintRecord(opening, keys, fields) + rest)
  {
    if keys != [] {
      assert (PrintRecord(opening, keys, fields) + rest)[0] == opening;
    } else {
      assert PrintRecord(opening, keys, fields) + rest == rest;
    }
  }

  ghost predicate PlainMembers(fields: Fields, keys: seq<string>) {
    forall k | 0 <= k < |keys| :: Plain(Value(fields, keys[k]))
  }

  lemma SameFront(a: string, b: string, c: string)
    requires a + b == a + c
    ensures b == c
  {
    assert (a + b)[|a|..] == b && (a + c)[|a|..] == c;
  }

  /** Equal records, followed by anything that starts with no digit, agree member by member. */
  lemma {:induction false} RecordUnambiguous(opening: char, keys: seq<string>, a: Fields, b: Fields, restA: string, restB: string)
    requires Separates(opening) && Closed(restA) && Closed(restB)
    requires PlainMembers(a, keys) && PlainMembers(b, keys)
    requires PrintRecord(opening, keys, a) + restA == PrintRecord(opening, keys, b) + restB
    ensures forall k | 0 <= k < |keys| :: Value(a, keys[k]) == Value(b, keys[k])
    ensures restA == restB
    decreases |keys|
  {
    if keys == [] {
      assert PrintRecord(opening, keys, a) + restA == restA && PrintRecord(opening, keys, b) + restB == restB;
    } else {
      var tailA := PrintRecord(',', keys[1..], a) + restA;
      var tailB := PrintRecord(',', keys[1..], b) + restB;
      RecordSplits(opening, keys, a, restA);
      RecordSplits(opening, keys, b, restB);
      SameFront(Key(opening, keys[0]), Print(Value(a, keys[0])) + tailA, Print(Value(b, keys[0])) + tailB);
      RecordCloses(',', keys[1..], a, restA);
      RecordCloses(',', keys[1..], b, restB);
      Unambiguous(Value(a, keys[0]), Value(b, keys[0]), tailA, tailB);
      RecordUnambiguous(',', keys[1..], a, b, restA, restB);
    }
  }

  lemma RecordSplits(opening: char, keys: seq<string>, fields: Fields, rest: string)
    requires keys != []
    ensures PrintRecord(opening, keys, fields) + rest
         == Key(opening, keys[0]) + (Print(Value(fields, keys[0])) + (PrintRecord(',', keys[1..], fields) + rest))
  {
    var first, value, more := Key(opening, keys[0]), Print(Value(fields, keys[0])), PrintRecord(',', keys[1..], fields);
    assert first + value + more + rest == first + (value + (more + rest));
  }
}
