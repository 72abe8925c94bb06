/** A reader for the compact JSON subset the canonical printer writes, and the proof that it
    undoes the printer in front of any trailing text. */
module JsonParser {
  import opened Bytes
  import opened CanonicalJson
  import opened Common

  predicate IsDigit(c: char) {
    '0' <= c <= '9'
  }

  function ParseHex4(s: string): (r: Option<(int, string)>)
    ensures r.Some? ==> 0 <= r.value.0 < 0x10000 && |r.value.1| == |s| - 4
  {
    if |s| < 4 || HexValue(s[0]) < 0 || HexValue(s[1]) < 0 || HexValue(s[2]) < 0 || HexValue(s[3]) < 0 then None
    else Some((4096 * HexValue(s[0]) + 256 * HexValue(s[1]) + 16 * HexValue(s[2]) + HexValue(s[3]), s[4..]))
  }

  /** The character after `\u`: one unit, or a surrogate pair. */
  function ParseUnicodeEscape(s: string): (r: Option<(char, string)>)
    ensures r.Some? ==> |r.value.1| < |s|
  {
    match ParseHex4(s)
    case None => None
    case Some((hi, rest)) =>
      if hi < 0xD800 || 0xE000 <= hi then Some((hi as char, rest))
      else if |rest| < 2 || rest[0] != '\\' || rest[1] != 'u' then None
      else match ParseHex4(rest[2..])
        case None => None
        case Some((lo, rest')) =>
          if 0xD800 <= hi < 0xDC00 && 0xDC00 <= lo < 0xE000
          then Some(((0x10000 + (hi - 0xD800) * 0x400 + (lo - 0xDC00)) as char, rest'))
          else None
  }

  /** One character of a string body; None at the closing quote or on malformed text. */
  function ParseChar(s: string): (r: Option<(char, string)>)
    ensures r.Some? ==> |r.value.1| < |s|
  {
    if s == "" || s[0] == '"' then None
    else if s[0] != '\\' then Some((s[0], s[1..]))
    else if |s| < 2 then None
    else match s[1]
      case '"' => Some(('"', s[2..]))
      case '\\' => Some(('\\', s[2..]))
      case 'n' => Some(('\n', s[2..]))
      case 'r' => Some(('\r', s[2..]))
      case 't' => Some(('\t', s[2..]))
      case 'b' => Some((8 as char, s[2..]))
      case 'f' => Some((12 as char, s[2..]))
      case 'u' => ParseUnicodeEscape(s[2..])
      case _ => None
  }

  /** A string body up to and including the closing quote. */
  function ParseString(s: string): (r: Option<(string, string)>)
    ensures r.Some? ==> |r.value.1| < |s|
    decreases |s|
  {
    if s != "" && s[0] == '"' then Some(("", s[1..]))
    else match ParseChar(s)
      case None => None
      case Some((c, rest)) =>
        match ParseString(rest)
        case None => None
        case Some((cs, rest')) => Some(([c] + cs, rest'))
  }

  function ParseNat(acc: nat, s: string): (r: (nat, string))
    ensures |r.1| <= |s|
    decreases |s|
  {
    if s != "" && IsDigit(s[0]) then ParseNat(10 * acc + (s[0] as int - '0' as int), s[1..]) else (acc, s)
  }

  /** One value from the front of the text, with the text that follows it. */
  function Parse(s: string): (r: Option<(Json, string)>)
    ensures r.Some? ==> |r.value.1| < |s|
    decreases |s|, 0
  {
    if s == "" then None
    else if s[0] == 'n' then if "null" <= s then Some((Null, s[4..])) else None
    else if s[0] == 't' then if "true" <= s then Some((Bool(true), s[4..])) else None
    else if s[0] == 'f' then if "false" <= s then Some((Bool(false), s[5..])) else None
    else if s[0] == '"' then
      match ParseString(s[1..])
      case None => None
      case Some((cs, rest)) => Some((Str(cs), rest))
    else if s[0] == '[' then
      if |s| > 1 && s[1] == ']' then Some((List([]), s[2..]))
      else match ParseItems(s[1..])
        case None => None
        case Some((items, rest)) => Some((List(items), rest))
    else if s[0] == '{' then
      if |s| > 1 && s[1] == '}' then Some((Object([]), s[2..]))
      else match ParseFields(s[1..])
        case None => None
        case Some((fields, rest)) => Some((Object(fields), rest))
    else if s[0] == '-' then
      if |s| > 1 && IsDigit(s[1]) then
        var (n, rest) := ParseNat(0, s[1..]);
        Some((Int(-(n as int)), rest))
      else None
    else if IsDigit(s[0]) then
      var (n, rest) := ParseNat(s[0] as int - '0' as int, s[1..]);
      Some((Int(n), rest))
    else None
  }

  /** One or more comma-separated values closed by `]`. */
  function ParseItems(s: string): (r: Option<(seq<Json>, string)>)
    ensures r.Some? ==> |r.value.1| < |s|
    decreases |s|, 1
  {
    match Parse(s)
    case None => None
    case Some((v, rest)) =>
      if rest == "" then None
      else if rest[0] == ']' then Some(([v], rest[1..]))
      else if rest[0] != ',' then None
      else match ParseItems(rest[1..])
        case None => None
        case Some((vs, rest')) => Some(([v] + vs, rest'))
  }

  /** One or more comma-separated fields closed by `}`. */
  function ParseFields(s: string): (r: Option<(seq<Field>, string)>)
    ensures r.Some? ==> |r.value.1| < |s|
    decreases |s|, 1
  {
    if s == "" || s[0] != '"' then None
    else match ParseString(s[1..])
      case None => None
      case Some((key, colon)) =>
        if colon == "" || colon[0] != ':' then None
        else match Parse(colon[1..])
          case None => None
          case Some((v, rest)) =>
            if rest == "" then None
            else if rest[0] == '}' then Some(([Field(key, v)], rest[1..]))
            else if rest[0] != ',' then None
            else match ParseFields(rest[1..])
              case None => None
              case Some((fs, rest')) => Some(([Field(key, v)] + fs, rest'))
  }

  // ── The reader undoes the printer ──────────────────────────────────

  lemma ParseHex4OfHex4(n: int, rest: string)
    requires 0 <= n < 0x10000
    ensures ParseHex4(Hex4(n) + rest) == Some((n, rest))
  {
    FourDigits(n);
    ParseFourDigits(n / 4096, n / 256 % 16, n / 16 % 16, n % 16, rest);
  }

  lemma FourDigits(n: int)
    requires 0 <= n < 0x10000
    ensures n / 4096 < 16 && n == 4096 * (n / 4096) + 256 * (n / 256 % 16) + 16 * (n / 16 % 16) + n % 16
  {
    assert n / 256 == 16 * (n / 4096) + n / 256 % 16;
    assert n / 16 == 16 * (n / 256) + n / 16 % 16;
  }

  lemma ParseFourDigits(a: int, b: int, c: int, d: int, rest: string)
    requires 0 <= a < 16 && 0 <= b < 16 && 0 <= c < 16 && 0 <= d < 16
    ensures ParseHex4([HexDigit(a), HexDigit(b), HexDigit(c), HexDigit(d)] + rest) ==
            Some((4096 * a + 256 * b + 16 * c + d, rest))
  {
    var s := [HexDigit(a), HexDigit(b), HexDigit(c), HexDigit(d)] + rest;
    assert s[0] == HexDigit(a) && s[1] == HexDigit(b) && s[2] == HexDigit(c) && s[3] == HexDigit(d);
    assert HexValue(s[0]) == a && HexValue(s[1]) == b && HexValue(s[2]) == c && HexValue(s[3]) == d;
    assert s[4..] == rest;
  }

  lemma ParseUnicodeEscapeOfPair(hi: int, lo: int, rest: string)
    requires 0xD800 <= hi < 0xDC00 <= lo < 0xE000
    ensures ParseUnicodeEscape(Hex4(hi) + (['\\', 'u'] + (Hex4(lo) + rest)))
         == Some(((0x10000 + (hi - 0xD800) * 0x400 + (lo - 0xDC00)) as char, rest))
  {
    var tail := ['\\', 'u'] + (Hex4(lo) + rest);
    ParseHex4OfHex4(hi, tail);
    assert tail[2..] == Hex4(lo) + rest;
    ParseHex4OfHex4(lo, rest);
  }

  // What the reader does with each form the printer gives a character.
  lemma ParseCharPlain(c: char, rest: string)
    requires c != '"' && c != '\\'
    ensures ParseChar([c] + rest) == Some((c, rest))
  {
    assert ([c] + rest)[1..] == rest;
  }

  lemma ParseCharShort(c: char, e: char, rest: string)
    requires (c, e) in {('"', '"'), ('\\', '\\'), ('\n', 'n'), ('\r', 'r'), ('\t', 't'), (8 as char, 'b'),
                        (12 as char, 'f')}
    ensures ParseChar(['\\', e] + rest) == Some((c, rest))
  {
    var s := ['\\', e] + rest;
    assert s[0] == '\\' && s[1] == e && s[2..] == rest;
  }

  lemma ParseCharUnicode(tail: string)
    ensures ParseChar(['\\', 'u'] + tail) == ParseUnicodeEscape(tail)
  {
    var s := ['\\', 'u'] + tail;
    assert s[0] == '\\' && s[1] == 'u' && s[2..] == tail;
  }

  lemma ParseCharOfUnit(c: char, rest: string)
    requires c as int < 0x10000
    ensures ParseChar(['\\', 'u'] + (Hex4(c as int) + rest)) == Some((c, rest))
  {
    hide ParseChar, ParseHex4, Hex4;
    ParseCharUnicode(Hex4(c as int) + rest);
    ParseHex4OfHex4(c as int, rest);
  }

  lemma ParseCharOfEscape(c: char, rest: string)
    ensures EscapeChar(c) != "" && EscapeChar(c)[0] != '"'
    ensures ParseChar(EscapeChar(c) + rest) == Some((c, rest))
  {
    hide ParseChar;
    var n := c as int;
    var e := EscapeChar(c);
    if e == [c] {
      ParseCharPlain(c, rest);
    } else if |e| == 2 {
      assert e == ['\\', e[1]];
      ParseCharShort(c, e[1], rest);
    } else if n < 0x10000 {
      ParseCharOfUnit(c, rest);
      assert e + rest == ['\\', 'u'] + (Hex4(n) + rest);
    } else {
      ParseCharOfPair(c, rest);
    }
  }

  lemma ParseCharOfPair(c: char, rest: string)
    requires c as int >= 0x10000
    ensures EscapeChar(c)[0] == '\\'
    ensures ParseChar(EscapeChar(c) + rest) == Some((c, rest))
  {
    var n := c as int - 0x10000;
    var hi, lo := 0xD800 + n / 0x400, 0xDC00 + n % 0x400;
    assert 0x10000 + (hi - 0xD800) * 0x400 + (lo - 0xDC00) == c as int;
    assert EscapeChar(c) == SurrogatePair(hi, lo);
    var tail := Hex4(hi) + (['\\', 'u'] + (Hex4(lo) + rest));
    ParseCharUnicode(tail);
    ParseUnicodeEscapeOfPair(hi, lo, rest);
    SurrogatePairText(hi, lo, rest);
  }

  lemma SurrogatePairText(hi: int, lo: int, rest: string)
    requires 0 <= hi < 0x10000 && 0 <= lo < 0x10000
    ensures SurrogatePair(hi, lo)[0] == '\\'
    ensures SurrogatePair(hi, lo) + rest == ['\\', 'u'] + (Hex4(hi) + (['\\', 'u'] + (Hex4(lo) + rest)))
  {
    Regroup(['\\', 'u'], Hex4(hi), ['\\', 'u'], Hex4(lo), rest);
  }

  lemma Regroup(a: string, b: string, c: string, d: string, e: string)
    ensures a + b + c + d + e == a + (b + (c + (d + e)))
  {
  }

  lemma ParseStringStep(e: string, c: char, tail: string)
    requires e != "" && e[0] != '"' && ParseChar(e + tail) == Some((c, tail))
    ensures ParseString(tail).Some? ==>
              ParseString(e + tail) == Some(([c] + ParseString(tail).value.0, ParseString(tail).value.1))
  {
    hide ParseChar;
  }

  lemma EscapeStep(cs: string, rest: string)
    requires cs != ""
    ensures Escape(cs) + "\"" + rest == EscapeChar(cs[0]) + (Escape(cs[1..]) + "\"" + rest)
  {
    hide EscapeChar;
  }

  lemma {:induction false} ParseStringOfEscape(cs: string, rest: string)
    ensures ParseString(Escape(cs) + "\"" + rest) == Some((cs, rest))
  {
    if cs == "" {
      assert Escape(cs) + "\"" + rest == "\"" + rest;
    } else {
      hide ParseChar, ParseString, Escape, EscapeChar;
      var tail := Escape(cs[1..]) + "\"" + rest;
      ParseCharOfEscape(cs[0], tail);
      ParseStringStep(EscapeChar(cs[0]), cs[0], tail);
      ParseStringOfEscape(cs[1..], rest);
      EscapeStep(cs, rest);
      assert [cs[0]] + cs[1..] == cs;
    }
  }

  // Trailing text does not extend the value; only a number could run on.
  ghost predicate EndsHere(v: Json, rest: string) {
    v.Int? && rest != "" ==> !IsDigit(rest[0])
  }

  lemma {:induction false} ParseNatOfPrint(n: nat, rest: string)
    ensures PrintNat(n) != "" && IsDigit(PrintNat(n)[0])
    ensures ParseNat(0, PrintNat(n) + rest) == ParseNat(n, rest)
  {
    if n >= 10 {
      var d := HexDigit(n % 10);
      ParseNatOfPrint(n / 10, [d] + rest);
      assert PrintNat(n) + rest == PrintNat(n / 10) + ([d] + rest);
      assert ([d] + rest)[1..] == rest;
    } else {
      assert (PrintNat(n) + rest)[1..] == rest;
    }
  }

  lemma ParseIntOfPrint(n: int, rest: string)
    requires EndsHere(Int(n), rest)
    ensures Parse(Print(Int(n)) + rest) == Some((Int(n), rest))
  {
    var s := Print(Int(n)) + rest;
    if n < 0 {
      ParseNatOfPrint(-n, rest);
      assert s[1..] == PrintNat(-n) + rest;
    } else {
      ParseNatOfPrint(n, rest);
    }
  }

  // The first character of a printed value cannot close a list or an object.
  lemma PrintStarts(v: Json)
    ensures Print(v) != "" && Print(v)[0] != ']' && Print(v)[0] != '}'
  {
    if v.Int? && v.n >= 0 {
      ParseNatOfPrint(v.n, "");
    }
  }

  lemma ParsePrintWord(v: Json, rest: string)
    requires v.Null? || v.Bool?
    ensures Parse(Print(v) + rest) == Some((v, rest))
  {
    hide ParseString, ParseItems, ParseFields, ParseNat;
    assert ("null" + rest)[4..] == rest;
    assert ("true" + rest)[4..] == rest;
    assert ("false" + rest)[5..] == rest;
  }

  lemma ParsePrintString(cs: string, rest: string)
    ensures Parse(Print(Str(cs)) + rest) == Some((Str(cs), rest))
  {
    hide ParseString, ParseItems, ParseFields, ParseNat, Escape;
    var body := Escape(cs) + "\"" + rest;
    assert Print(Str(cs)) + rest == ['"'] + body;
    assert (['"'] + body)[1..] == body;
    ParseStringOfEscape(cs, rest);
  }

  /** The reader returns the printed value and exactly the text behind it. */
  lemma {:induction false} ParsePrint(v: Json, rest: string)
    requires EndsHere(v, rest)
    ensures Parse(Print(v) + rest) == Some((v, rest))
    decreases v, 1
  {
    hide Parse, Print;
    match v
    case Null => ParsePrintWord(v, rest);
    case Bool(_) => ParsePrintWord(v, rest);
    case Int(n) => ParseIntOfPrint(n, rest);
    case Str(cs) => ParsePrintString(cs, rest);
    case List(items) => ParsePrintList(items, rest);
    case Object(fields) => ParsePrintObject(fields, rest);
  }

  lemma {:induction false} ParsePrintList(items: seq<Json>, rest: string)
    ensures Parse(Print(List(items)) + rest) == Some((List(items), rest))
    decreases items, 1
  {
    hide ParseString, ParseItems, ParseFields, ParseNat;
    var body := PrintItems(items) + "]" + rest;
    assert Print(List(items)) + rest == ['['] + body;
    assert (['['] + body)[1..] == body;
    if items == [] {
      assert body == [']'] + rest;
    } else {
      ParsePrintItems(items, rest);
    }
  }

  lemma {:induction false} ParsePrintObject(fields: seq<Field>, rest: string)
    ensures Parse(Print(Object(fields)) + rest) == Some((Object(fields), rest))
    decreases fields, 1
  {
    hide ParseString, ParseItems, ParseFields, ParseNat, PrintField;
    var body := PrintFields(fields) + "}" + rest;
    assert Print(Object(fields)) + rest == ['{'] + body;
    assert (['{'] + body)[1..] == body;
    if fields == [] {
      assert body == ['}'] + rest;
    } else {
      ParsePrintFields(fields, rest);
    }
  }

  lemma {:induction false} ParsePrintItems(items: seq<Json>, rest: string)
    requires items != []
    ensures PrintItems(items) != "" && PrintItems(items)[0] != ']'
    ensures ParseItems(PrintItems(items) + "]" + rest) == Some((items, rest))
    decreases items, 0
  {
    hide Parse, Print, ParseItems;
    var s := PrintItems(items) + "]" + rest;
    PrintStarts(items[0]);
    if |items| == 1 {
      var close := "]" + rest;
      assert s == Print(items[0]) + close;
      assert close[1..] == rest;
      ParsePrint(items[0], close);
      ParseItemsStep(s, items[0], close);
      assert [items[0]] == items;
    } else {
      var tail := PrintItems(items[1..]) + "]" + rest;
      var comma := "," + tail;
      assert s == Print(items[0]) + comma;
      assert comma[1..] == tail;
      ParsePrint(items[0], comma);
      ParsePrintItems(items[1..], rest);
      ParseItemsStep(s, items[0], comma);
      assert [items[0]] + items[1..] == items;
    }
  }

  // One turn of the item loop.
  lemma ParseItemsStep(s: string, v: Json, rest: string)
    requires Parse(s) == Some((v, rest)) && rest != ""
    ensures rest[0] == ']' ==> ParseItems(s) == Some(([v], rest[1..]))
    ensures rest[0] == ',' && ParseItems(rest[1..]).Some? ==>
              ParseItems(s) == Some(([v] + ParseItems(rest[1..]).value.0, ParseItems(rest[1..]).value.1))
  {
    hide Parse;
  }

  // One turn of the field loop, up to the separator after the value.
  lemma ParseFieldsStep(s: string, key: string, colon: string, v: Json, rest: string)
    requires s != "" && s[0] == '"' && ParseString(s[1..]) == Some((key, colon))
    requires colon != "" && colon[0] == ':' && Parse(colon[1..]) == Some((v, rest))
    requires rest != ""
    ensures rest[0] == '}' ==> ParseFields(s) == Some(([Field(key, v)], rest[1..]))
    ensures rest[0] == ',' && ParseFields(rest[1..]).Some? ==>
              ParseFields(s) == Some(([Field(key, v)] + ParseFields(rest[1..]).value.0, ParseFields(rest[1..]).value.1))
  {
    hide Parse, ParseString;
  }

  lemma {:induction false} ParsePrintFields(fields: seq<Field>, rest: string)
    requires fields != []
    ensures PrintFields(fields) != "" && PrintFields(fields)[0] == '"'
    ensures ParseFields(PrintFields(fields) + "}" + rest) == Some((fields, rest))
    decreases fields, 0
  {
    hide Parse, ParseFields, PrintField;
    var s := PrintFields(fields) + "}" + rest;
    if |fields| == 1 {
      var close := "}" + rest;
      assert s == PrintField(fields[0]) + close;
      assert close[1..] == rest;
      ParsePrintField(fields[0], close);
      assert [fields[0]] == fields;
    } else {
      var tail := PrintFields(fields[1..]) + "}" + rest;
      var comma := "," + tail;
      assert s == PrintField(fields[0]) + comma;
      assert comma[1..] == tail;
      ParsePrintFields(fields[1..], rest);
      ParsePrintField(fields[0], comma);
      assert [fields[0]] + fields[1..] == fields;
    }
  }

  lemma {:induction false} ParsePrintField(f: Field, rest: string)
    requires rest != "" && !IsDigit(rest[0])
    ensures PrintField(f) != "" && PrintField(f)[0] == '"'
    ensures rest[0] == '}' ==> ParseFields(PrintField(f) + rest) == Some(([f], rest[1..]))
    ensures rest[0] == ',' && ParseFields(rest[1..]).Some? ==>
              ParseFields(PrintField(f) + rest) ==
              Some(([f] + ParseFields(rest[1..]).value.0, ParseFields(rest[1..]).value.1))
    decreases f, 0
  {
    var colon := [':'] + (Print(f.value) + rest);
    var body := Escape(f.key) + "\"" + colon;
    var s := PrintField(f) + rest;
    PrintFieldText(f, rest);
    assert s[1..] == body;
    ParseStringOfEscape(f.key, colon);
    assert colon[1..] == Print(f.value) + rest;
    ParsePrint(f.value, rest);
    ParseFieldsStep(s, f.key, colon, f.value, rest);
  }

  lemma PrintFieldText(f: Field, rest: string)
    ensures PrintField(f) + rest == ['"'] + (Escape(f.key) + "\"" + ([':'] + (Print(f.value) + rest)))
  {
    assert "\":" == ['"'] + [':'];
  }
}
