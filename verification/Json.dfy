/**
  Compact JSON text as `json.dumps(separators=(",", ":"), ensure_ascii=False)` writes it
  (sections 4 and 7 of RFC 8259), the parser that inverts it, and UTF-8 (RFC 3629).
 */
module Json {
  import opened Options
  import opened Values

  // --- printing ---------------------------------------------------------------------------

  function Digit(d: nat): char
    requires d < 10
  {
    "0123456789"[d]
  }

  function Decimal(n: nat): (r: string)
    ensures r != [] && forall c | c in r :: IsDigit(c)
  {
    if n < 10 then [Digit(n)] else Decimal(n / 10) + [Digit(n % 10)]
  }

  function PrintInt(n: int): string {
    if n < 0 then "-" + Decimal(-n) else Decimal(n)
  }

  function HexDigit(d: nat): char
    requires d < 16
  {
    "0123456789abcdef"[d]
  }

  function EscapeChar(c: char): string {
    if c == '"' then "\\\""
    else if c == '\\' then "\\\\"
    else if c == '\n' then "\\n"
    else if c == '\r' then "\\r"
    else if c == '\t' then "\\t"
    else if c == 8 as char then "\\b"
    else if c == 12 as char then "\\f"
    else if c < ' ' then "\\u00" + [HexDigit(c as int / 16), HexDigit(c as int % 16)]
    else [c]
  }

  function Escape(s: string): string {
    if s == [] then [] else EscapeChar(s[0]) + Escape(s[1..])
  }

  function Quote(s: string): string {
    "\"" + Escape(s) + "\""
  }

  function Print(v: Value): string
    decreases v, 1
  {
    match v
    case Null => "null"
    case Bool(b) => if b then "true" else "false"
    case Int(n) => PrintInt(n)
    case Str(s) => Quote(s)
    case List(items) => "[" + PrintArray(items)
    case Dict(fields) => "{" + PrintObject(fields)
  }

  /** An array after its opening bracket. */
  function PrintArray(items: seq<Value>): string
    decreases items, 2
  {
    if items == [] then "]" else Print(items[0]) + PrintItems(items[1..])
  }

  function PrintItems(items: seq<Value>): string
    decreases items, 0
  {
    if items == [] then "]" else "," + (Print(items[0]) + PrintItems(items[1..]))
  }

  /** An object after its opening brace. */
  function PrintObject(fields: seq<Field>): string
    decreases fields, 2
  {
    if fields == [] then "}" else PrintField(fields[0]) + PrintFields(fields[1..])
  }

  function PrintFields(fields: seq<Field>): string
    decreases fields, 0
  {
    if fields == [] then "}" else "," + (PrintField(fields[0]) + PrintFields(fields[1..]))
  }

  function PrintField(f: Field): string
    decreases f, 0
  {
    Quote(f.key) + (":" + Print(f.value))
  }

  // --- parsing ----------------------------------------------------------------------------

  datatype Parsed<+T> = Fail | Done(value: T, rest: string)

  predicate IsDigit(c: char) {
    '0' <= c <= '9'
  }

  function DigitRun(s: string): (n: nat)
    ensures n <= |s|
  {
    if s != [] && IsDigit(s[0]) then 1 + DigitRun(s[1..]) else 0
  }

  function DigitValue(c: char): nat {
    if IsDigit(c) then c as int - '0' as int else 0
  }

  function Number(digits: string): nat {
    if digits == [] then 0 else
    Number(digits[..|digits| - 1]) * 10 + DigitValue(digits[|digits| - 1])
  }

  function ParseNat(s: string): (r: Parsed<nat>)
    ensures r.Done? ==> |r.rest| < |s|
  {
    var n := DigitRun(s);
    if n == 0 then Fail else Done(Number(s[..n]), s[n..])
  }

  function HexValue(c: char): int {
    if '0' <= c <= '9' then c as int - '0' as int
    else if 'a' <= c <= 'f' then c as int - 'a' as int + 10
    else -1
  }

  /** One character of a string's inside, escaped or not; a bare quote ends the string. */
  function ParseChar(s: string): (r: Parsed<char>)
    ensures r.Done? ==> |r.rest| < |s|
  {
    if s == [] || s[0] == '"' then Fail
    else if s[0] != '\\' then Done(s[0], s[1..])
    else if |s| < 2 then Fail
    else match s[1]
      case '"' => Done('"', s[2..])
      case '\\' => Done('\\', s[2..])
      case 'n' => Done('\n', s[2..])
      case 'r' => Done('\r', s[2..])
      case 't' => Done('\t', s[2..])
      case 'b' => Done(8 as char, s[2..])
      case 'f' => Done(12 as char, s[2..])
      case 'u' =>
        if |s| >= 6 && s[2] == '0' && s[3] == '0' && HexValue(s[4]) >= 0 && HexValue(s[5]) >= 0
        then Done((HexValue(s[4]) * 16 + HexValue(s[5])) as char, s[6..])
        else Fail
      case _ => Fail
  }

  function ParseText(s: string): (r: Parsed<string>)
    ensures r.Done? ==> |r.rest| < |s|
    decreases |s|
  {
    if s != [] && s[0] == '"' then Done([], s[1..]) else
    match ParseChar(s)
    case Fail => Fail
    case Done(c, rest) =>
      match ParseText(rest)
      case Fail => Fail
      case Done(more, after) => Done([c] + more, after)
  }

  function ParseNumber(s: string): (r: Parsed<Value>)
    ensures r.Done? ==> |r.rest| < |s|
  {
    var negative := "-" <= s;
    match ParseNat(if negative then s[1..] else s)
    case Fail => Fail
    case Done(n, rest) => Done(Int(if negative then -(n as int) else n), rest)
  }

  function ParseWord(s: string): (r: Parsed<Value>)
    ensures r.Done? ==> |r.rest| < |s|
  {
    if "null" <= s then Done(Null, s[4..])
    else if "true" <= s then Done(Bool(true), s[4..])
    else if "false" <= s then Done(Bool(false), s[5..])
    else Fail
  }

  function ParseQuoted(s: string): (r: Parsed<string>)
    ensures r.Done? ==> |r.rest| < |s|
  {
    if "\"" <= s then ParseText(s[1..]) else Fail
  }

  function ParseValue(s: string): (r: Parsed<Value>)
    ensures r.Done? ==> |r.rest| < |s|
    decreases |s|, 1
  {
    if s == [] then Fail
    else if s[0] == '"' then
      match ParseQuoted(s) case Fail => Fail case Done(t, rest) => Done(Str(t), rest)
    else if s[0] == '[' then
      match ParseArray(s[1..]) case Fail => Fail case Done(items, rest) => Done(List(items), rest)
    else if s[0] == '{' then
      match ParseObject(s[1..]) case Fail => Fail case Done(fields, rest) => Done(Dict(fields), rest)
    else if s[0] == '-' || IsDigit(s[0]) then ParseNumber(s)
    else ParseWord(s)
  }

  function ParseArray(s: string): (r: Parsed<seq<Value>>)
    ensures r.Done? ==> |r.rest| < |s|
    decreases |s|, 2
  {
    if "]" <= s then Done([], s[1..]) else
    match ParseValue(s)
    case Fail => Fail
    case Done(first, rest) =>
      match ParseItems(rest)
      case Fail => Fail
      case Done(more, after) => Done([first] + more, after)
  }

  function ParseItems(s: string): (r: Parsed<seq<Value>>)
    ensures r.Done? ==> |r.rest| < |s|
    decreases |s|, 0
  {
    if "]" <= s then Done([], s[1..])
    else if "," <= s then
      match ParseValue(s[1..])
      case Fail => Fail
      case Done(first, rest) =>
        (match ParseItems(rest)
         case Fail => Fail
         case Done(more, after) => Done([first] + more, after))
    else Fail
  }

  function ParseObject(s: string): (r: Parsed<seq<Field>>)
    ensures r.Done? ==> |r.rest| < |s|
    decreases |s|, 3
  {
    if "}" <= s then Done([], s[1..]) else
    match ParseField(s)
    case Fail => Fail
    case Done(first, rest) =>
      match ParseFields(rest)
      case Fail => Fail
      case Done(more, after) => Done([first] + more, after)
  }

  function ParseFields(s: string): (r: Parsed<seq<Field>>)
    ensures r.Done? ==> |r.rest| < |s|
    decreases |s|, 0
  {
    if "}" <= s then Done([], s[1..])
    else if "," <= s then
      match ParseField(s[1..])
      case Fail => Fail
      case Done(first, rest) =>
        (match ParseFields(rest)
         case Fail => Fail
         case Done(more, after) => Done([first] + more, after))
    else Fail
  }

  function ParseField(s: string): (r: Parsed<Field>)
    ensures r.Done? ==> |r.rest| < |s|
    decreases |s|, 2
  {
    match ParseQuoted(s)
    case Fail => Fail
    case Done(key, rest) =>
      if !(":" <= rest) then Fail else
      match ParseValue(rest[1..])
      case Fail => Fail
      case Done(value, after) => Done(Field(key, value), after)
  }

  // --- the round trip ---------------------------------------------------------------------

  lemma {:induction false} NumberOfDecimal(n: nat)
    ensures Number(Decimal(n)) == n
  {
    if n >= 10 {
      NumberOfDecimal(n / 10);
      assert Decimal(n)[..|Decimal(n)| - 1] == Decimal(n / 10);
    } else {
      assert Decimal(n)[..0] == [];
    }
  }

  lemma {:induction false} DigitRunStops(digits: string, rest: string)
    requires forall c | c in digits :: IsDigit(c)
    requires rest == [] || !IsDigit(rest[0])
    ensures DigitRun(digits + rest) == |digits|
  {
    if digits == [] {
      assert digits + rest == rest;
    } else {
      assert (digits + rest)[1..] == digits[1..] + rest;
      DigitRunStops(digits[1..], rest);
    }
  }

  lemma NatRoundTrip(n: nat, rest: string)
    requires rest == [] || !IsDigit(rest[0])
    ensures ParseNat(Decimal(n) + rest) == Done(n, rest)
  {
    DigitRunStops(Decimal(n), rest);
    NumberOfDecimal(n);
    assert (Decimal(n) + rest)[..|Decimal(n)|] == Decimal(n);
  }

  lemma ControlRoundTrip(c: char, rest: string)
    requires c < ' '
    ensures ParseChar("\\u00" + [HexDigit(c as int / 16), HexDigit(c as int % 16)] + rest) == Done(c, rest)
  {
    var s := "\\u00" + [HexDigit(c as int / 16), HexDigit(c as int % 16)] + rest;
    assert s[6..] == rest;
    assert HexValue(HexDigit(c as int / 16)) == c as int / 16;
    assert HexValue(HexDigit(c as int % 16)) == c as int % 16;
  }

  lemma CharRoundTrip(c: char, rest: string)
    ensures ParseChar(EscapeChar(c) + rest) == Done(c, rest)
  {
    var e := EscapeChar(c);
    assert (e + rest)[|e|..] == rest && (e + rest)[..|e|] == e;
    if |e| == 6 { ControlRoundTrip(c, rest); }
  }

  lemma NextChar(s: string, c: char, more: string, tail: string, rest: string)
    requires ParseChar(s) == Done(c, tail) && ParseText(tail) == Done(more, rest)
    ensures ParseText(s) == Done([c] + more, rest)
  {}

  lemma {:induction false} TextRoundTrip(t: string, rest: string)
    ensures ParseText(Escape(t) + ("\"" + rest)) == Done(t, rest)
  {
    if t == [] {
      assert Escape(t) + ("\"" + rest) == "\"" + rest;
    } else {
      var tail := Escape(t[1..]) + ("\"" + rest);
      Regroup(EscapeChar(t[0]), Escape(t[1..]), "\"" + rest);
      CharRoundTrip(t[0], tail);
      TextRoundTrip(t[1..], rest);
      NextChar(EscapeChar(t[0]) + tail, t[0], t[1..], tail, rest);
      assert [t[0]] + t[1..] == t;
    }
  }

  lemma QuoteRoundTrip(t: string, rest: string)
    ensures ParseQuoted(Quote(t) + rest) == Done(t, rest)
  {
    TextRoundTrip(t, rest);
    QuoteRest(Escape(t), rest);
    assert Quote(t) + rest == ("\"" + Escape(t) + "\"") + rest;
  }

  lemma QuoteRest(body: string, rest: string)
    ensures "\"" <= ("\"" + body + "\"") + rest
    ensures (("\"" + body + "\"") + rest)[1..] == body + ("\"" + rest)
  {
    assert ("\"" + body + "\"") + rest == "\"" + (body + ("\"" + rest));
  }

  lemma SignedRoundTrip(n: nat, digits: string, rest: string)
    requires digits != [] && IsDigit(digits[0])
    requires ParseNat(digits + rest) == Done(n, rest)
    ensures ParseNumber(digits + rest) == Done(Int(n), rest)
    ensures ParseNumber(("-" + digits) + rest) == Done(Int(-(n as int)), rest)
  {
    assert (digits + rest)[0] == digits[0];
    assert (("-" + digits) + rest)[0] == '-' && (("-" + digits) + rest)[1..] == digits + rest;
  }

  lemma IntRoundTrip(n: int, rest: string)
    requires Ends(rest)
    ensures ParseNumber(PrintInt(n) + rest) == Done(Int(n), rest)
    ensures PrintInt(n)[0] == '-' || IsDigit(PrintInt(n)[0])
  {
    var m: nat := if n < 0 then -n else n;
    var digits := Decimal(m);
    assert digits[0] in digits;
    NatRoundTrip(m, rest);
    SignedRoundTrip(m, digits, rest);
  }

  lemma WordRoundTrip(v: Value, rest: string)
    requires v.Null? || v.Bool?
    ensures ParseWord(Print(v) + rest) == Done(v, rest)
  {
    var s := Print(v) + rest;
    assert s[|Print(v)|..] == rest && s[..|Print(v)|] == Print(v);
    assert v.Bool? ==> s[0] != 'n' && (v.b <==> s[0] == 't');
  }

  /** What may follow a printed value: anything that cannot extend a number. */
  ghost predicate Ends(rest: string) {
    rest == [] || !IsDigit(rest[0])
  }

  lemma Regroup(head: string, tail: string, rest: string)
    ensures (head + tail) + rest == head + (tail + rest)
    ensures head != [] ==> ((head + tail) + rest)[0] == head[0]
  {
  }

  /** What is left of a printed list once its first character is read. */
  lemma AfterFirst(c: char, head: string, tail: string, rest: string)
    ensures ([c] + (head + tail) + rest)[0] == c
    ensures ([c] + (head + tail) + rest)[1..] == head + (tail + rest)
  {
    assert ([c] + (head + tail) + rest)[1..] == head + (tail + rest);
  }

  lemma {:induction false} ValueRoundTrip(v: Value, rest: string)
    requires Ends(rest)
    ensures ParseValue(Print(v) + rest) == Done(v, rest)
    ensures Print(v) != [] && Print(v)[0] != ']' && Print(v)[0] != '}'
    decreases v, 1
  {
    match v
    case Null => WordRoundTrip(v, rest);
    case Bool(_) => WordRoundTrip(v, rest);
    case Int(n) => NumberText(n, rest);
    case Str(t) => QuotedText(t, rest);
    case List(items) =>
      ArrayRoundTrip(items, rest);
      ListText(items, rest);
    case Dict(fields) =>
      ObjectRoundTrip(fields, rest);
      DictText(fields, rest);
  }

  lemma NumberText(n: int, rest: string)
    requires Ends(rest)
    ensures ParseValue(Print(Int(n)) + rest) == Done(Int(n), rest) && Print(Int(n))[0] == PrintInt(n)[0]
    ensures PrintInt(n)[0] == '-' || IsDigit(PrintInt(n)[0])
  {
    IntRoundTrip(n, rest);
    assert (PrintInt(n) + rest)[0] == PrintInt(n)[0];
  }

  lemma QuotedText(t: string, rest: string)
    ensures ParseValue(Print(Str(t)) + rest) == Done(Str(t), rest) && Print(Str(t))[0] == '"'
  {
    QuoteRoundTrip(t, rest);
    assert (Quote(t) + rest)[0] == '"';
  }

  lemma Headed(c: char, body: string, rest: string)
    ensures (([c] + body) + rest)[0] == c && (([c] + body) + rest)[1..] == body + rest
  {
    assert ([c] + body) + rest == [c] + (body + rest);
  }

  lemma ParseListFrom(s: string, items: seq<Value>, rest: string)
    requires s != [] && s[0] == '[' && ParseArray(s[1..]) == Done(items, rest)
    ensures ParseValue(s) == Done(List(items), rest)
  {}

  lemma ParseDictFrom(s: string, fields: seq<Field>, rest: string)
    requires s != [] && s[0] == '{' && ParseObject(s[1..]) == Done(fields, rest)
    ensures ParseValue(s) == Done(Dict(fields), rest)
  {}

  lemma ListText(items: seq<Value>, rest: string)
    requires ParseArray(PrintArray(items) + rest) == Done(items, rest)
    ensures ParseValue(("[" + PrintArray(items)) + rest) == Done(List(items), rest)
  {
    Headed('[', PrintArray(items), rest);
    ParseListFrom(("[" + PrintArray(items)) + rest, items, rest);
  }

  lemma DictText(fields: seq<Field>, rest: string)
    requires ParseObject(PrintObject(fields) + rest) == Done(fields, rest)
    ensures ParseValue(("{" + PrintObject(fields)) + rest) == Done(Dict(fields), rest)
  {
    Headed('{', PrintObject(fields), rest);
    ParseDictFrom(("{" + PrintObject(fields)) + rest, fields, rest);
  }

  lemma {:induction false} ArrayRoundTrip(items: seq<Value>, rest: string)
    ensures ParseArray(PrintArray(items) + rest) == Done(items, rest)
    decreases items, 2
  {
    var s := PrintArray(items) + rest;
    if items == [] {
      assert s[0] == ']' && s[1..] == rest;
    } else {
      ItemsRoundTrip(items[1..], rest);
      ValueRoundTrip(items[0], PrintItems(items[1..]) + rest);
      Regroup(Print(items[0]), PrintItems(items[1..]), rest);
      assert [items[0]] + items[1..] == items;
    }
  }

  lemma {:induction false} ItemsRoundTrip(items: seq<Value>, rest: string)
    ensures ParseItems(PrintItems(items) + rest) == Done(items, rest)
    ensures Ends(PrintItems(items) + rest)
    decreases items, 0
  {
    var s := PrintItems(items) + rest;
    if items == [] {
      assert s[0] == ']' && s[1..] == rest;
    } else {
      ItemsRoundTrip(items[1..], rest);
      ValueRoundTrip(items[0], PrintItems(items[1..]) + rest);
      AfterFirst(',', Print(items[0]), PrintItems(items[1..]), rest);
      assert [items[0]] + items[1..] == items;
    }
  }

  lemma {:induction false} ObjectRoundTrip(fields: seq<Field>, rest: string)
    ensures ParseObject(PrintObject(fields) + rest) == Done(fields, rest)
    decreases fields, 2
  {
    var s := PrintObject(fields) + rest;
    if fields == [] {
      assert s[0] == '}' && s[1..] == rest;
    } else {
      FieldsRoundTrip(fields[1..], rest);
      FieldRoundTrip(fields[0], PrintFields(fields[1..]) + rest);
      Regroup(PrintField(fields[0]), PrintFields(fields[1..]), rest);
      assert [fields[0]] + fields[1..] == fields;
    }
  }

  lemma {:induction false} FieldsRoundTrip(fields: seq<Field>, rest: string)
    ensures ParseFields(PrintFields(fields) + rest) == Done(fields, rest)
    ensures Ends(PrintFields(fields) + rest)
    decreases fields, 0
  {
    var s := PrintFields(fields) + rest;
    if fields == [] {
      assert s[0] == '}' && s[1..] == rest;
    } else {
      FieldsRoundTrip(fields[1..], rest);
      FieldRoundTrip(fields[0], PrintFields(fields[1..]) + rest);
      AfterFirst(',', PrintField(fields[0]), PrintFields(fields[1..]), rest);
      assert [fields[0]] + fields[1..] == fields;
    }
  }

  lemma {:induction false} FieldRoundTrip(f: Field, rest: string)
    requires Ends(rest)
    ensures ParseField(PrintField(f) + rest) == Done(f, rest)
    ensures PrintField(f) != [] && PrintField(f)[0] == '"'
    decreases f, 0
  {
    var tail := ":" + (Print(f.value) + rest);
    assert PrintField(f) + rest == Quote(f.key) + tail;
    QuoteRoundTrip(f.key, tail);
    ValueRoundTrip(f.value, rest);
    assert tail[0] == ':' && tail[1..] == Print(f.value) + rest;
  }

  // --- UTF-8 ------------------------------------------------------------------------------

  type Byte = b: int | 0 <= b < 256

  function EncodeChar(ch: char): (r: seq<Byte>)
    ensures r != []
  {
    var c := ch as int;
    if c < 0x80 then [c]
    else if c < 0x800 then [0xC0 + c / 64, 0x80 + c % 64]
    else if c < 0x1_0000 then [0xE0 + c / 4096, 0x80 + c / 64 % 64, 0x80 + c % 64]
    else [0xF0 + c / 262144, 0x80 + c / 4096 % 64, 0x80 + c / 64 % 64, 0x80 + c % 64]
  }

  function EncodeUtf8(s: string): seq<Byte> {
    if s == [] then [] else EncodeChar(s[0]) + EncodeUtf8(s[1..])
  }

  function SequenceLength(lead: Byte): nat {
    if lead < 0x80 then 1 else if lead < 0xE0 then 2 else if lead < 0xF0 then 3 else 4
  }

  /** The six bits a continuation byte carries. */
  function Low(b: Byte): int {
    b as int - 0x80
  }

  function ScalarOf(bytes: seq<Byte>): int
    requires bytes != [] && |bytes| == SequenceLength(bytes[0])
  {
    var lead: int := bytes[0];
    if |bytes| == 1 then lead
    else if |bytes| == 2 then (lead - 0xC0) * 64 + Low(bytes[1])
    else if |bytes| == 3 then (lead - 0xE0) * 4096 + Low(bytes[1]) * 64 + Low(bytes[2])
    else (lead - 0xF0) * 262144 + Low(bytes[1]) * 4096 + Low(bytes[2]) * 64 + Low(bytes[3])
  }

  function DecodeUtf8(bytes: seq<Byte>): Option<string> {
    if bytes == [] then Some([]) else
    var n := SequenceLength(bytes[0]);
    if n > |bytes| then None else
    var c := ScalarOf(bytes[..n]);
    if !(0 <= c < 0xD800 || 0xE000 <= c < 0x11_0000) then None else
    match DecodeUtf8(bytes[n..])
    case None => None
    case Some(rest) => Some([c as char] + rest)
  }

  lemma EncodedChar(ch: char)
    ensures |EncodeChar(ch)| == SequenceLength(EncodeChar(ch)[0])
    ensures ScalarOf(EncodeChar(ch)) == ch as int
  {
    var c := ch as int;
    assert c / 4096 == c / 64 / 64 && c / 262144 == c / 64 / 64 / 64;
  }

  lemma {:induction false} Utf8RoundTrip(s: string)
    ensures DecodeUtf8(EncodeUtf8(s)) == Some(s)
  {
    if s != [] {
      var head, tail := EncodeChar(s[0]), EncodeUtf8(s[1..]);
      EncodedChar(s[0]);
      Utf8RoundTrip(s[1..]);
      assert (head + tail)[..|head|] == head && (head + tail)[|head|..] == tail;
      assert [s[0]] + s[1..] == s;
    }
  }
}
