/** The canonical JSON printer shared by the audit export and the inbound envelope:
    `json.dumps(v, sort_keys=True, separators=(",", ":"))` with its default ASCII escapes.

    A Python dict keeps its insertion order, so an object is an ordered list of fields with
    distinct keys (`WellFormed`). `Dumps` sorts every object and then prints in order. */
module CanonicalJson {
  import opened Bytes
  import opened Common

  datatype Json =
    | Null
    | Bool(b: bool)
    | Int(n: int)
    | Str(s: string)
    | List(items: seq<Json>)
    | Object(fields: seq<Field>)

  datatype Field = Field(key: string, value: Json)

  ghost predicate WellFormed(v: Json) {
    match v
    case List(items) => forall i | 0 <= i < |items| :: WellFormed(items[i])
    case Object(fields) => UniqueKeys(fields) && forall i | 0 <= i < |fields| :: WellFormed(fields[i].value)
    case _ => true
  }

  ghost predicate UniqueKeys(fields: seq<Field>) {
    forall i, j | 0 <= i < j < |fields| :: fields[i].key != fields[j].key
  }

  /** `dict.get(key)` */
  function Get(fields: seq<Field>, key: string): Option<Json> {
    if fields == [] then None
    else if fields[0].key == key then Some(fields[0].value)
    else Get(fields[1..], key)
  }

  /** Python truth of a value, absent counting as None. */
  predicate Truthy(v: Option<Json>) {
    match v
    case None => false
    case Some(Null) => false
    case Some(Bool(b)) => b
    case Some(Int(n)) => n != 0
    case Some(Str(s)) => s != ""
    case Some(List(items)) => items != []
    case Some(Object(fields)) => fields != []
  }

  // ── Text of one value ──────────────────────────────────────────────

  function Hex4(n: int): (s: string)
    requires 0 <= n < 0x10000
    ensures |s| == 4
  {
    [HexDigit(n / 4096), HexDigit(n / 256 % 16), HexDigit(n / 16 % 16), HexDigit(n % 16)]
  }

  function SurrogatePair(hi: int, lo: int): string
    requires 0 <= hi < 0x10000 && 0 <= lo < 0x10000
  {
    "\\u" + Hex4(hi) + "\\u" + Hex4(lo)
  }

  function EscapeChar(c: char): string {
    var n := c as int;
    if c == '"' then "\\\""
    else if c == '\\' then "\\\\"
    else if c == '\n' then "\\n"
    else if c == '\r' then "\\r"
    else if c == '\t' then "\\t"
    else if n == 8 then "\\b"
    else if n == 12 then "\\f"
    else if 32 <= n <= 126 then [c]
    else if n < 0x10000 then "\\u" + Hex4(n)
    else SurrogatePair(0xD800 + (n - 0x10000) / 0x400, 0xDC00 + (n - 0x10000) % 0x400)
  }

  /** As json.dumps writes a character with ensure_ascii: printable ASCII but for the quote and the
      backslash as it is, those two and five control characters by a letter, all else by its UTF-16
      units in lower-case hex. */
  lemma EscapedAsPublished(c: char)
    ensures ' ' <= c <= '~' && c != '"' && c != '\\' ==> EscapeChar(c) == [c]
    ensures EscapeChar('"') == ['\\', '"'] && EscapeChar('\\') == ['\\', '\\']
    ensures EscapeChar('\n') == ['\\', 'n'] && EscapeChar('\r') == ['\\', 'r'] && EscapeChar('\t') == ['\\', 't']
    ensures EscapeChar(8 as char) == ['\\', 'b'] && EscapeChar(12 as char) == ['\\', 'f']
    ensures var n := c as int;
            && ((c < ' ' && n !in {8, 9, 10, 12, 13}) || 127 <= n < 0x10000 ==> EscapeChar(c) == ['\\', 'u'] + Hex4(n))
            && (n >= 0x10000 ==>
                  var hi, lo := 0xD800 + (n - 0x10000) / 0x400, 0xDC00 + (n - 0x10000) % 0x400;
                  EscapeChar(c) == ['\\', 'u'] + Hex4(hi) + ['\\', 'u'] + Hex4(lo))
  {
  }

  function Escape(s: string): string {
    if s == "" then "" else EscapeChar(s[0]) + Escape(s[1..])
  }

  function PrintNat(n: nat): string {
    if n < 10 then [HexDigit(n)] else PrintNat(n / 10) + [HexDigit(n % 10)]
  }

  /** Compact JSON text of a value, object fields in the order they have. */
  function Print(v: Json): string
    decreases v, 1
  {
    match v
    case Null => "null"
    case Bool(b) => if b then "true" else "false"
    case Int(n) => if n < 0 then "-" + PrintNat(-n) else PrintNat(n)
    case Str(s) => "\"" + Escape(s) + "\""
    case List(items) => "[" + PrintItems(items) + "]"
    case Object(fields) => "{" + PrintFields(fields) + "}"
  }

  function PrintItems(items: seq<Json>): string
    decreases items, 0
  {
    if items == [] then ""
    else if |items| == 1 then Print(items[0])
    else Print(items[0]) + "," + PrintItems(items[1..])
  }

  function PrintField(f: Field): string
    decreases f, 0
  {
    "\"" + Escape(f.key) + "\":" + Print(f.value)
  }

  function PrintFields(fields: seq<Field>): string
    decreases fields, 0
  {
    if fields == [] then ""
    else if |fields| == 1 then PrintField(fields[0])
    else PrintField(fields[0]) + "," + PrintFields(fields[1..])
  }

  // ── Key order ──────────────────────────────────────────────────────

  /** Python's `<` on strings: by code point, a proper prefix first. */
  predicate StrLess(a: string, b: string) {
    b != "" && (a == "" || a[0] < b[0] || (a[0] == b[0] && StrLess(a[1..], b[1..])))
  }

  function Insert(f: Field, sorted: seq<Field>): seq<Field> {
    if sorted == [] || StrLess(f.key, sorted[0].key) then [f] + sorted
    else [sorted[0]] + Insert(f, sorted[1..])
  }

  function SortFields(fields: seq<Field>): seq<Field> {
    if fields == [] then [] else Insert(fields[0], SortFields(fields[1..]))
  }

  /** The value with the fields of every object in key order. */
  function Canon(v: Json): Json
    decreases v, 1
  {
    match v
    case List(items) => List(CanonItems(items))
    case Object(fields) => Object(SortFields(CanonFields(fields)))
    case _ => v
  }

  function CanonItems(items: seq<Json>): (r: seq<Json>)
    ensures |r| == |items|
    ensures forall i | 0 <= i < |r| :: r[i] == Canon(items[i])
    decreases items, 0
  {
    if items == [] then [] else [Canon(items[0])] + CanonItems(items[1..])
  }

  function CanonFields(fields: seq<Field>): (r: seq<Field>)
    ensures |r| == |fields|
    ensures forall i | 0 <= i < |r| :: r[i] == Field(fields[i].key, Canon(fields[i].value))
    decreases fields, 0
  {
    if fields == [] then []
    else [Field(fields[0].key, Canon(fields[0].value))] + CanonFields(fields[1..])
  }

  /** `json.dumps(v, sort_keys=True, separators=(",", ":"))` */
  function Dumps(v: Json): string {
    Print(Canon(v))
  }

  // ── Equality of Python values ──────────────────────────────────────

  /** The two values are the same data: objects agree key by key, whatever their field order. */
  ghost predicate Same(v: Json, w: Json)
    decreases v, 2
  {
    match v
    case List(xs) =>
      w.List? && |xs| == |w.items| && forall i | 0 <= i < |xs| :: Same(xs[i], w.items[i])
    case Object(fs) =>
      && w.Object?
      && (forall i | 0 <= i < |fs| :: MatchedBy(fs[i], w.fields))
      && (forall j | 0 <= j < |w.fields| :: MatchedIn(fs, w.fields[j]))
    case _ => v == w
  }

  ghost predicate SameField(f: Field, g: Field)
    decreases f, 0
  {
    f.key == g.key && Same(f.value, g.value)
  }

  ghost predicate MatchedBy(f: Field, gs: seq<Field>)
    decreases f, 1
  {
    exists j :: 0 <= j < |gs| && SameField(f, gs[j])
  }

  ghost predicate MatchedIn(fs: seq<Field>, g: Field)
    decreases fs, 1
  {
    exists i :: 0 <= i < |fs| && SameField(fs[i], g)
  }
}
