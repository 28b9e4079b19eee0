/** JSON values, the compact printer the repository serialises with, and a parser for what it prints.
    Objects keep their fields in insertion order; a value is well formed when no object repeats a key. */
module Json {
  import opened Prelude

  datatype Json =
    | Null
    | Bool(b: bool)
    | Int(n: int)
    | Float(lexeme: string)
    | Str(s: string)
    | Arr(items: seq<Json>)
    | Obj(fields: seq<Field>)

  datatype Field = Field(key: string, value: Json)

  ghost predicate DistinctKeys(fields: seq<Field>) {
    forall i, j :: 0 <= i < j < |fields| ==> fields[i].key != fields[j].key
  }

  ghost predicate Valid(v: Json) {
    match v
    case Float(x) => IsFloatLexeme(x)
    case Arr(items) => forall i :: 0 <= i < |items| ==> Valid(items[i])
    case Obj(fields) =>
      && DistinctKeys(fields)
      && forall i :: 0 <= i < |fields| ==> Valid(fields[i].value)
    case _ => true
  }

  /** `Value::get(key)`: the field of an object, nothing for any other value. */
  function Get(v: Json, key: string): Option<Json> {
    if v.Obj? then Lookup(v.fields, key) else None
  }

  function Lookup(fields: seq<Field>, key: string): Option<Json> {
    if fields == [] then None
    else if fields[0].key == key then Some(fields[0].value)
    else Lookup(fields[1..], key)
  }

  // ---------------------------------------------------------------- numbers

  predicate IsDigit(c: char) { '0' <= c <= '9' }

  predicate IsNumberChar(c: char) {
    IsDigit(c) || c == '-' || c == '+' || c == '.' || c == 'e' || c == 'E'
  }

  predicate AllNumberChars(t: string) {
    forall i :: 0 <= i < |t| ==> IsNumberChar(t[i])
  }

  predicate IsNatLexeme(t: string) {
    |t| > 0 && forall i :: 0 <= i < |t| ==> IsDigit(t[i])
  }

  predicate IsIntLexeme(t: string) {
    IsNatLexeme(t) || (|t| > 0 && t[0] == '-' && IsNatLexeme(t[1..]))
  }

  /** A float is printed with a point or an exponent, so it never reads as an integer. */
  predicate IsFloatLexeme(t: string) {
    && |t| > 0
    && (IsDigit(t[0]) || t[0] == '-')
    && IsDigit(t[|t| - 1])
    && AllNumberChars(t)
    && exists i :: 0 <= i < |t| && (t[i] == '.' || t[i] == 'e' || t[i] == 'E')
  }

  function Digit(d: nat): (c: char)
    requires d < 10
    ensures IsDigit(c) && c as int - '0' as int == d
  {
    ('0' as int + d) as char
  }

  function PrintNat(n: nat): (t: string)
    ensures IsNatLexeme(t)
  {
    if n < 10 then [Digit(n)] else PrintNat(n / 10) + [Digit(n % 10)]
  }

  function PrintInt(n: int): (t: string)
    ensures IsIntLexeme(t)
  {
    if n < 0 then "-" + PrintNat(-n) else PrintNat(n)
  }

  function ReadNat(t: string): nat
    requires forall i :: 0 <= i < |t| ==> IsDigit(t[i])
  {
    if t == [] then 0
    else
      var last := t[|t| - 1];
      assert IsDigit(last);
      ReadNat(t[..|t| - 1]) * 10 + (last as int - '0' as int)
  }

  function ReadInt(t: string): int
    requires IsIntLexeme(t)
  {
    if t[0] == '-' then
      var magnitude: int := ReadNat(t[1..]);
      -magnitude
    else ReadNat(t)
  }

  lemma {:induction false} NatRoundTrip(n: nat)
    ensures ReadNat(PrintNat(n)) == n
  {
    if n >= 10 {
      NatRoundTrip(n / 10);
      assert PrintNat(n)[..|PrintNat(n)| - 1] == PrintNat(n / 10);
    }
  }

  lemma IntRoundTrip(n: int)
    ensures ReadInt(PrintInt(n)) == n
  {
    if n < 0 {
      NatRoundTrip(-n);
      assert PrintInt(n)[1..] == PrintNat(-n);
    } else {
      NatRoundTrip(n);
    }
  }

  // ---------------------------------------------------------------- strings

  function HexDigit(d: nat): (c: char)
    requires d < 16
    ensures c >= ' ' && HexValue(c) == Some(d)
  {
    if d < 10 then ('0' as int + d) as char else ('a' as int + d - 10) as char
  }

  function HexValue(c: char): Option<nat> {
    if '0' <= c <= '9' then Some(c as int - '0' as int)
    else if 'a' <= c <= 'f' then Some(c as int - 'a' as int + 10)
    else if 'A' <= c <= 'F' then Some(c as int - 'A' as int + 10)
    else None
  }

  const BACKSPACE := '\U{0008}'
  const FORM_FEED := '\U{000C}'

  /** How the serialiser writes one character of a string (section 7 of RFC 8259). */
  function EscapeChar(c: char): (t: string)
    ensures |t| > 0 && forall i :: 0 <= i < |t| ==> t[i] >= ' '
  {
    if c == '"' then "\\\""
    else if c == '\\' then "\\\\"
    else if c == BACKSPACE then "\\b"
    else if c == '\t' then "\\t"
    else if c == '\n' then "\\n"
    else if c == FORM_FEED then "\\f"
    else if c == '\r' then "\\r"
    else if c < ' ' then "\\u00" + [HexDigit(c as int / 16), HexDigit(c as int % 16)]
    else [c]
  }

  function Escape(s: string): (t: string)
    ensures forall i :: 0 <= i < |t| ==> t[i] >= ' '
  {
    if s == [] then [] else EscapeChar(s[0]) + Escape(s[1..])
  }

  function Quote(s: string): string {
    "\"" + Escape(s) + "\""
  }

  /** The one-character escapes of section 7 of RFC 8259. */
  function ShortEscape(d: char): Option<char> {
    if d == '"' then Some('"')
    else if d == '\\' then Some('\\')
    else if d == '/' then Some('/')
    else if d == 'b' then Some(BACKSPACE)
    else if d == 't' then Some('\t')
    else if d == 'n' then Some('\n')
    else if d == 'f' then Some(FORM_FEED)
    else if d == 'r' then Some('\r')
    else None
  }

  /** The character a `\uXXXX` escape stands for, outside the surrogate range. */
  function UnicodeEscape(t: string): Option<char>
    requires |t| == 4
  {
    var a, b, c, d := HexValue(t[0]), HexValue(t[1]), HexValue(t[2]), HexValue(t[3]);
    if a.None? || b.None? || c.None? || d.None? then None
    else
      var x := a.value * 4096 + b.value * 256 + c.value * 16 + d.value;
      if x < 0xD800 then Some(x as char) else None
  }

  /** Reads a string body up to its closing quote: the text and what follows the quote. */
  function ParseString(s: string): (r: Option<(string, string)>)
    ensures r.Some? ==> |r.value.1| < |s|
  {
    if s == [] then None
    else if s[0] == '"' then Some(([], s[1..]))
    else if s[0] == '\\' then
      if |s| < 2 then None
      else if s[1] == 'u' then
        if |s| < 6 || UnicodeEscape(s[2..6]).None? then None
        else Prefixed(UnicodeEscape(s[2..6]).value, ParseString(s[6..]))
      else if ShortEscape(s[1]).None? then None
      else Prefixed(ShortEscape(s[1]).value, ParseString(s[2..]))
    else if s[0] < ' ' then None
    else Prefixed(s[0], ParseString(s[1..]))
  }

  function Prefixed(c: char, r: Option<(string, string)>): Option<(string, string)> {
    if r.None? then None else Some(([c] + r.value.0, r.value.1))
  }

  lemma ParseEscapedChar(c: char, rest: string)
    ensures ParseString(EscapeChar(c) + rest) == Prefixed(c, ParseString(rest))
  {
    var t := EscapeChar(c);
    var s := t + rest;
    assert s[|t|..] == rest;
    if t[0] == '\\' && t[1] == 'u' {
      assert s[2..6] == ['0', '0', HexDigit(c as int / 16), HexDigit(c as int % 16)];
      assert s[6..] == rest;
    } else if t[0] == '\\' {
      assert s[2..] == rest;
    } else {
      assert s[1..] == rest;
    }
  }

  lemma {:induction false} StringRoundTrip(s: string, rest: string)
    ensures ParseString(Escape(s) + "\"" + rest) == Some((s, rest))
  {
    if s == [] {
      assert Escape(s) + "\"" + rest == "\"" + rest;
    } else {
      var tail := Escape(s[1..]) + "\"" + rest;
      assert Escape(s) + "\"" + rest == EscapeChar(s[0]) + tail;
      ParseEscapedChar(s[0], tail);
      StringRoundTrip(s[1..], rest);
      assert [s[0]] + s[1..] == s;
    }
  }

  // ---------------------------------------------------------------- printer and parser

  /** The compact form: no whitespace between tokens, fields in the order they are held. */
  function Print(v: Json): string
    decreases v, 1
  {
    match v
    case Null => "null"
    case Bool(b) => if b then "true" else "false"
    case Int(n) => PrintInt(n)
    case Float(x) => x
    case Str(s) => Quote(s)
    case Arr(items) => "[" + PrintItems(items) + "]"
    case Obj(fields) => "{" + PrintFields(fields) + "}"
  }

  function PrintItems(items: seq<Json>): string
    decreases items, 0
  {
    if items == [] then ""
    else if |items| == 1 then Print(items[0])
    else Print(items[0]) + "," + PrintItems(items[1..])
  }

  function PrintField(f: Field): string
    decreases f, 2
  {
    Quote(f.key) + ":" + Print(f.value)
  }

  function PrintFields(fields: seq<Field>): string
    decreases fields, 0
  {
    if fields == [] then ""
    else if |fields| == 1 then PrintField(fields[0])
    else PrintField(fields[0]) + "," + PrintFields(fields[1..])
  }

  function TakeNumber(s: string): (t: string)
    ensures t <= s && AllNumberChars(t)
  {
    if s == [] || !IsNumberChar(s[0]) then [] else [s[0]] + TakeNumber(s[1..])
  }

  function ParseNumber(t: string): Option<Json> {
    if IsIntLexeme(t) then Some(Int(ReadInt(t)))
    else if IsFloatLexeme(t) then Some(Float(t))
    else None
  }

  type Parsed<T> = Option<(T, string)>

  function ParseValue(s: string): (r: Parsed<Json>)
    ensures r.Some? ==> |r.value.1| < |s|
    decreases |s|, 0
  {
    if s == [] then None
    else if "null" <= s then Some((Null, s[4..]))
    else if "true" <= s then Some((Bool(true), s[4..]))
    else if "false" <= s then Some((Bool(false), s[5..]))
    else if s[0] == '"' then
      var r := ParseString(s[1..]);
      if r.None? then None else Some((Str(r.value.0), r.value.1))
    else if s[0] == '[' then
      if |s| > 1 && s[1] == ']' then Some((Arr([]), s[2..]))
      else
        var r := ParseItems(s[1..]);
        if r.None? then None else Some((Arr(r.value.0), r.value.1))
    else if s[0] == '{' then
      if |s| > 1 && s[1] == '}' then Some((Obj([]), s[2..]))
      else
        var r := ParseFields(s[1..]);
        if r.None? then None else Some((Obj(r.value.0), r.value.1))
    else
      var t := TakeNumber(s);
      var n := ParseNumber(t);
      if n.None? then None else Some((n.value, s[|t|..]))
  }

  /** One or more values separated by commas, up to and including the closing bracket. */
  function ParseItems(s: string): (r: Parsed<seq<Json>>)
    ensures r.Some? ==> |r.value.1| < |s|
    decreases |s|, 1
  {
    var head := ParseValue(s);
    if head.None? || head.value.1 == [] then None
    else
      var (v, rest) := head.value;
      if rest[0] == ']' then Some(([v], rest[1..]))
      else if rest[0] == ',' then
        var more := ParseItems(rest[1..]);
        if more.None? then None else Some(([v] + more.value.0, more.value.1))
      else None
  }

  function ParseField(s: string): (r: Parsed<Field>)
    ensures r.Some? ==> |r.value.1| < |s|
    decreases |s|, 1
  {
    if s == [] || s[0] != '"' then None
    else
      var key := ParseString(s[1..]);
      if key.None? || key.value.1 == [] || key.value.1[0] != ':' then None
      else
        var v := ParseValue(key.value.1[1..]);
        if v.None? then None else Some((Field(key.value.0, v.value.0), v.value.1))
  }

  /** One or more fields separated by commas, up to and including the closing brace. */
  function ParseFields(s: string): (r: Parsed<seq<Field>>)
    ensures r.Some? ==> |r.value.1| < |s|
    decreases |s|, 2
  {
    var head := ParseField(s);
    if head.None? || head.value.1 == [] then None
    else
      var (f, rest) := head.value;
      if rest[0] == '}' then Some(([f], rest[1..]))
      else if rest[0] == ',' then
        var more := ParseFields(rest[1..]);
        if more.None? then None else Some(([f] + more.value.0, more.value.1))
      else None
  }

  /** The whole text is one value. */
  function Parse(s: string): Option<Json> {
    var r := ParseValue(s);
    if r.Some? && r.value.1 == [] then Some(r.value.0) else None
  }

  // ---------------------------------------------------------------- the printer's text reads back

  /** Text after which a number token is complete. */
  predicate Delimited(rest: string) {
    rest == [] || !IsNumberChar(rest[0])
  }

  lemma {:induction false} TakeNumberToken(t: string, rest: string)
    requires AllNumberChars(t) && Delimited(rest)
    ensures TakeNumber(t + rest) == t
  {
    if t == [] {
      assert t + rest == rest;
    } else {
      assert (t + rest)[1..] == t[1..] + rest;
      TakeNumberToken(t[1..], rest);
    }
  }

  lemma {:induction false} NumberTokenParses(t: string, v: Json, rest: string)
    requires |t| > 0 && (IsDigit(t[0]) || t[0] == '-') && AllNumberChars(t) && Delimited(rest)
    requires ParseNumber(t) == Some(v)
    ensures ParseValue(t + rest) == Some((v, rest))
  {
    TakeNumberToken(t, rest);
    var s := t + rest;
    assert s[0] == t[0];
    assert s[|t|..] == rest;
  }

  lemma FloatIsNotInt(t: string)
    requires IsFloatLexeme(t)
    ensures !IsIntLexeme(t)
  {
    var i :| 0 <= i < |t| && (t[i] == '.' || t[i] == 'e' || t[i] == 'E');
    if t[0] == '-' {
      assert i > 0 && t[1..][i - 1] == t[i];
    }
  }

  lemma {:induction false} LiteralParses(word: string, v: Json, rest: string)
    requires (word == "null" && v == Null) || (word == "true" && v == Bool(true))
          || (word == "false" && v == Bool(false))
    ensures ParseValue(word + rest) == Some((v, rest))
  {
    var s := word + rest;
    assert s[|word|..] == rest;
    assert word <= s;
    assert s[0] == word[0];
  }

  lemma {:induction false} StringStep(s: string, body: string, rest: string)
    requires |s| > 0 && s[0] == '"' && ParseString(s[1..]) == Some((body, rest))
    ensures ParseValue(s) == Some((Str(body), rest))
  {
  }

  lemma {:induction false} ArrayStep(s: string, items: seq<Json>, rest: string)
    requires |s| > 1 && s[0] == '[' && s[1] != ']' && ParseItems(s[1..]) == Some((items, rest))
    ensures ParseValue(s) == Some((Arr(items), rest))
  {
  }

  lemma {:induction false} ObjectStep(s: string, fields: seq<Field>, rest: string)
    requires |s| > 1 && s[0] == '{' && s[1] != '}' && ParseFields(s[1..]) == Some((fields, rest))
    ensures ParseValue(s) == Some((Obj(fields), rest))
  {
  }

  lemma {:induction false} FieldStep(s: string, key: string, mid: string, v: Json, rest: string)
    requires |s| > 0 && s[0] == '"' && ParseString(s[1..]) == Some((key, mid))
    requires |mid| > 0 && mid[0] == ':' && ParseValue(mid[1..]) == Some((v, rest))
    ensures ParseField(s) == Some((Field(key, v), rest))
  {
  }

  lemma {:induction false} StringParses(s: string, rest: string)
    ensures ParseValue(Quote(s) + rest) == Some((Str(s), rest))
  {
    var text := Quote(s) + rest;
    StringRoundTrip(s, rest);
    assert text[1..] == Escape(s) + "\"" + rest;
    StringStep(text, s, rest);
  }

  lemma {:induction false} ArrayParses(body: string, items: seq<Json>, rest: string)
    requires |body| > 0 && body[0] != ']' && ParseItems(body + "]" + rest) == Some((items, rest))
    ensures ParseValue("[" + body + "]" + rest) == Some((Arr(items), rest))
  {
    var inner := body + "]" + rest;
    var text := "[" + inner;
    assert "[" + body + "]" + rest == text && text[1..] == inner && text[1] == body[0];
    ArrayStep(text, items, rest);
  }

  lemma {:induction false} ObjectParses(body: string, fields: seq<Field>, rest: string)
    requires |body| > 0 && body[0] != '}' && ParseFields(body + "}" + rest) == Some((fields, rest))
    ensures ParseValue("{" + body + "}" + rest) == Some((Obj(fields), rest))
  {
    var inner := body + "}" + rest;
    var text := "{" + inner;
    assert "{" + body + "}" + rest == text && text[1..] == inner && text[1] == body[0];
    ObjectStep(text, fields, rest);
  }

  lemma Regroup(escaped: string, body: string, rest: string)
    ensures ("\"" + escaped + "\"") + ":" + body + rest == "\"" + (escaped + "\"" + (":" + (body + rest)))
  {
  }

  lemma {:induction false} FieldParses(key: string, body: string, v: Json, rest: string)
    requires ParseValue(body + rest) == Some((v, rest))
    ensures ParseField(Quote(key) + ":" + body + rest) == Some((Field(key, v), rest))
  {
    var inner := body + rest;
    var tail := ":" + inner;
    var text := Escape(key) + "\"" + tail;
    StringRoundTrip(key, tail);
    Regroup(Escape(key), body, rest);
    TailOfPair('"', text);
    TailOfPair(':', inner);
    FieldStep("\"" + text, key, tail, v, rest);
  }

  lemma TailOfPair(c: char, t: string)
    ensures ([c] + t)[1..] == t
  {
  }

  lemma FieldsStartWithQuote(fields: seq<Field>)
    requires |fields| > 0
    ensures |PrintFields(fields)| > 0 && PrintFields(fields)[0] == '"'
  {
    assert PrintField(fields[0])[0] == '"';
  }

  /** What the printer writes, followed by any text that ends a number, reads back as the same value. */
  lemma {:induction false} ValueRoundTrip(v: Json, rest: string)
    requires Valid(v) && Delimited(rest)
    ensures ParseValue(Print(v) + rest) == Some((v, rest))
    decreases v, 1
  {
    match v {
      case Null => LiteralParses("null", v, rest);
      case Bool(b) => LiteralParses(if b then "true" else "false", v, rest);
      case Int(n) =>
        IntRoundTrip(n);
        NumberTokenParses(PrintInt(n), v, rest);
      case Float(x) =>
        FloatIsNotInt(x);
        NumberTokenParses(x, v, rest);
      case Str(s) => StringParses(s, rest);
      case Arr(items) =>
        if items == [] {
          EmptyContainersParse(rest);
        } else {
          ItemsRoundTrip(items, rest);
          ItemsStartAValue(items);
          ArrayParses(PrintItems(items), items, rest);
        }
      case Obj(fields) =>
        if fields == [] {
          EmptyContainersParse(rest);
        } else {
          FieldsRoundTrip(fields, rest);
          FieldsStartWithQuote(fields);
          ObjectParses(PrintFields(fields), fields, rest);
        }
    }
  }

  lemma {:induction false} EmptyContainersParse(rest: string)
    ensures ParseValue("[" + "" + "]" + rest) == Some((Arr([]), rest))
    ensures ParseValue("{" + "" + "}" + rest) == Some((Obj([]), rest))
  {
    var s, t := "[]" + rest, "{}" + rest;
    assert s[2..] == rest && t[2..] == rest;
    assert "[" + "" + "]" + rest == s && "{" + "" + "}" + rest == t;
  }

  lemma ItemsStartAValue(items: seq<Json>)
    requires |items| > 0 && Valid(items[0])
    ensures |PrintItems(items)| > 0 && PrintItems(items)[0] != ']'
  {
    PrintEnds(items[0]);
  }

  lemma {:induction false} ItemsRoundTrip(items: seq<Json>, rest: string)
    requires |items| > 0 && forall i :: 0 <= i < |items| ==> Valid(items[i])
    ensures ParseItems(PrintItems(items) + "]" + rest) == Some((items, rest))
    decreases items, 0
  {
    if |items| == 1 {
      assert PrintItems(items) + "]" + rest == Print(items[0]) + ("]" + rest);
      ValueRoundTrip(items[0], "]" + rest);
      assert items == [items[0]];
    } else {
      var more := PrintItems(items[1..]) + "]" + rest;
      assert PrintItems(items) + "]" + rest == Print(items[0]) + ("," + more);
      ValueRoundTrip(items[0], "," + more);
      ItemsRoundTrip(items[1..], rest);
      assert items == [items[0]] + items[1..];
    }
  }

  lemma {:induction false} FieldRoundTrip(f: Field, rest: string)
    requires Valid(f.value) && Delimited(rest)
    ensures ParseField(PrintField(f) + rest) == Some((f, rest))
    decreases f, 2
  {
    ValueRoundTrip(f.value, rest);
    FieldParses(f.key, Print(f.value), f.value, rest);
  }

  lemma {:induction false} FieldsStep(s: string, f: Field, more: string, fs: seq<Field>, rest: string)
    requires ParseField(s) == Some((f, "," + more)) && ParseFields(more) == Some((fs, rest))
    ensures ParseFields(s) == Some(([f] + fs, rest))
  {
    TailOfPair(',', more);
  }

  lemma {:induction false} FieldsRoundTrip(fields: seq<Field>, rest: string)
    requires |fields| > 0 && forall i :: 0 <= i < |fields| ==> Valid(fields[i].value)
    ensures ParseFields(PrintFields(fields) + "}" + rest) == Some((fields, rest))
    decreases fields, 0
  {
    if |fields| == 1 {
      assert PrintFields(fields) + "}" + rest == PrintField(fields[0]) + ("}" + rest);
      FieldRoundTrip(fields[0], "}" + rest);
      assert fields == [fields[0]];
    } else {
      var more := PrintFields(fields[1..]) + "}" + rest;
      assert PrintFields(fields) + "}" + rest == PrintField(fields[0]) + ("," + more);
      FieldRoundTrip(fields[0], "," + more);
      FieldsRoundTrip(fields[1..], rest);
      FieldsStep(PrintField(fields[0]) + ("," + more), fields[0], more, fields[1..], rest);
      assert fields == [fields[0]] + fields[1..];
    }
  }

  lemma RoundTrip(v: Json)
    requires Valid(v)
    ensures Parse(Print(v)) == Some(v)
  {
    ValueRoundTrip(v, []);
    assert Print(v) + [] == Print(v);
  }

  // ---------------------------------------------------------------- shape of the printed text

  /** Characters a JSON text may start with, and those it may end with. */
  predicate StartsValue(c: char) {
    c == 'n' || c == 't' || c == 'f' || c == '"' || c == '[' || c == '{' || c == '-' || IsDigit(c)
  }

  predicate EndsValue(c: char) {
    c == 'l' || c == 'e' || c == '"' || c == ']' || c == '}' || IsDigit(c)
  }

  lemma PrintEnds(v: Json)
    requires Valid(v)
    ensures |Print(v)| > 0
    ensures StartsValue(Print(v)[0]) && EndsValue(Print(v)[|Print(v)| - 1])
  {
    match v {
      case Int(n) =>
        if n < 0 {
          assert IsNatLexeme(PrintNat(-n));
        }
      case _ =>
    }
  }

  predicate NoControl(t: string) {
    forall i :: 0 <= i < |t| ==> t[i] >= ' '
  }

  /** No control character, in particular no raw newline, survives printing. */
  lemma {:induction false} PrintHasNoControl(v: Json)
    requires Valid(v)
    ensures NoControl(Print(v))
    decreases v, 1
  {
    match v {
      case Arr(items) => ItemsHaveNoControl(items);
      case Obj(fields) => FieldsHaveNoControl(fields);
      case _ =>
    }
  }

  lemma {:induction false} ItemsHaveNoControl(items: seq<Json>)
    requires forall i :: 0 <= i < |items| ==> Valid(items[i])
    ensures NoControl(PrintItems(items))
    decreases items, 0
  {
    if |items| > 0 {
      PrintHasNoControl(items[0]);
      ItemsHaveNoControl(items[1..]);
    }
  }

  lemma {:induction false} FieldsHaveNoControl(fields: seq<Field>)
    requires forall i :: 0 <= i < |fields| ==> Valid(fields[i].value)
    ensures NoControl(PrintFields(fields))
    decreases fields, 0
  {
    if |fields| > 0 {
      PrintHasNoControl(fields[0].value);
      FieldsHaveNoControl(fields[1..]);
    }
  }
}
