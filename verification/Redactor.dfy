/** The redactor of the dual-write copy (kya/_redactor.py): which payloads become the same copy,
    and how deep a copy can nest. */
module Redactor {
  import opened Bytes
  import J = CanonicalJson
  import opened Common
  import opened FoldHash

  // A Python payload. Other stands for every value the redactor passes through: floats, dates, objects.
  datatype Value =
    | Nothing
    | Flag(b: bool)
    | Number(n: int)
    | Text(s: string)
    | Binary(bytes: Bytes)         // bytes and bytearray
    | List(items: seq<Value>)
    | Tuple(items: seq<Value>)
    | Dict(entries: seq<Entry>)    // in insertion order
    | Other(id: int)

  datatype Entry = Entry(key: Key, value: Value)

  datatype Key = Name(name: string) | OtherKey(id: int)

  // `pii_fields`, `truncate_at`, `max_depth`; and what the redactor takes from Python: str.lower,
  // the encoded str() of a value, SHA-256 and the deployment's salt.
  datatype Settings = Settings(pii: set<string>, truncateAt: int, maxDepth: int,
                               lower: string -> string, encoded: Value -> Bytes, sha: Sha, salt: Bytes)

  // The constructor lowers every configured name.
  function Configure(names: seq<string>, truncateAt: int, maxDepth: int, lower: string -> string,
                     encoded: Value -> Bytes, sha: Sha, salt: Bytes): Settings {
    Settings(set f | f in names :: lower(f), truncateAt, maxDepth, lower, encoded, sha, salt)
  }

  ghost predicate Idempotent(lower: string -> string) {
    forall s :: lower(lower(s)) == lower(s)
  }

  /** A key is treated as PII exactly when some configured name lowers to the same text, so its case
      and that of the configured names make no difference. */
  lemma PiiIgnoresCase(names: seq<string>, truncateAt: int, maxDepth: int, lower: string -> string,
                       encoded: Value -> Bytes, sha: Sha, salt: Bytes, key: string)
    requires Idempotent(lower)
    ensures var cfg := Configure(names, truncateAt, maxDepth, lower, encoded, sha, salt);
            && (IsPii(cfg, Name(key)) <==> exists k :: 0 <= k < |names| && lower(names[k]) == lower(key))
            && (IsPii(cfg, Name(key)) <==> IsPii(cfg, Name(lower(key))))
            && cfg == Configure(Lowered(names, lower), truncateAt, maxDepth, lower, encoded, sha, salt)
  {
    var low := Lowered(names, lower);
    var before := Configure(names, truncateAt, maxDepth, lower, encoded, sha, salt).pii;
    var after := Configure(low, truncateAt, maxDepth, lower, encoded, sha, salt).pii;
    forall f
      ensures f in before <==> f in after
    {
      if n :| n in names && f == lower(n) {
        var k :| 0 <= k < |names| && names[k] == n;
        assert low[k] == lower(n) && lower(low[k]) == f;
      }
      if n :| n in low && f == lower(n) {
        var k :| 0 <= k < |low| && low[k] == n;
        assert lower(names[k]) == f;
      }
    }
  }

  function Lowered(names: seq<string>, lower: string -> string): (r: seq<string>)
    ensures |r| == |names| && forall k | 0 <= k < |names| :: r[k] == lower(names[k])
  {
    seq(|names|, k requires 0 <= k < |names| => lower(names[k]))
  }

  function Digest(cfg: Settings, v: Value): Bytes {
    cfg.sha(cfg.salt + cfg.encoded(v))
  }

  function Hash(cfg: Settings, v: Value): Value {
    Text("sha256:" + Hex(Digest(cfg, v))[..16])
  }

  predicate IsPii(cfg: Settings, k: Key) {
    k.Name? && cfg.lower(k.name) in cfg.pii
  }

  // `s[:n]`
  function Prefix(s: string, n: int): string {
    if n >= 0 then (if n <= |s| then s[..n] else s)
    else if |s| + n >= 0 then s[..|s| + n] else ""
  }

  function Marker(dropped: nat): string {
    "\U{2026}[+" + J.PrintNat(dropped) + "ch]"
  }

  function DepthMark(): Value {
    Dict([Entry(Name("__truncated__"), Text("depth"))])
  }

  function Stub(length: nat): Value {
    Dict([Entry(Name("__redacted__"), Text("bytes")), Entry(Name("len"), Number(length))])
  }

  function Redact(cfg: Settings, v: Value, depth: nat): Value
    decreases v
  {
    if depth > cfg.maxDepth then DepthMark()
    else
      match v
      case Dict(entries) => Dict(RedactEntries(cfg, entries, depth))
      case List(items) => List(RedactItems(cfg, items, depth))
      case Tuple(items) => List(RedactItems(cfg, items, depth))
      case Binary(bytes) => Stub(|bytes|)
      case Text(s) =>
        if |s| > cfg.truncateAt then Text(Prefix(s, cfg.truncateAt) + Marker(|s| - cfg.truncateAt)) else v
      case _ => v
  }

  function RedactItems(cfg: Settings, items: seq<Value>, depth: nat): seq<Value>
    decreases items
  {
    if items == [] then [] else [Redact(cfg, items[0], depth + 1)] + RedactItems(cfg, items[1..], depth)
  }

  function RedactEntries(cfg: Settings, entries: seq<Entry>, depth: nat): seq<Entry>
    decreases entries
  {
    if entries == [] then []
    else [Entry(entries[0].key, RedactEntry(cfg, entries[0], depth))] + RedactEntries(cfg, entries[1..], depth)
  }

  function RedactEntry(cfg: Settings, e: Entry, depth: nat): Value
    decreases e
  {
    if IsPii(cfg, e.key) && !e.value.Nothing? then Hash(cfg, e.value) else Redact(cfg, e.value, depth + 1)
  }

  // ── What the copy does not tell apart ──────────────────────────────

  // At this depth the stub of a byte string, written out as a dictionary, is left as it is.
  predicate StubSurvives(cfg: Settings, depth: nat) {
    && depth < cfg.maxDepth && cfg.truncateAt >= |"bytes"|
    && !IsPii(cfg, Name("__redacted__")) && !IsPii(cfg, Name("len"))
  }

  /** Differing only where the redactor is meant to hide it: below the depth limit, in PII values
      with equal hashes, in byte contents of equal length, in string tails past the limit of equal
      length (and in whether a sequence is a list or a tuple); or, the one accident, a byte string
      against its own stub written out. */
  predicate LowEqual(cfg: Settings, a: Value, b: Value, depth: nat)
    decreases a
  {
    depth > cfg.maxDepth ||
    match a
    case Dict(xs) =>
      if b.Binary? then StubSurvives(cfg, depth) && a == Stub(|b.bytes|)
      else b.Dict? && LowEqualEntries(cfg, xs, b.entries, depth)
    case List(xs) => (b.List? || b.Tuple?) && LowEqualItems(cfg, xs, b.items, depth)
    case Tuple(xs) => (b.List? || b.Tuple?) && LowEqualItems(cfg, xs, b.items, depth)
    case Binary(x) =>
      if b.Dict? then StubSurvives(cfg, depth) && b == Stub(|x|) else b.Binary? && |x| == |b.bytes|
    case Text(s) =>
      b.Text? && (if |s| > cfg.truncateAt then |s| == |b.s| && Prefix(s, cfg.truncateAt) == Prefix(b.s, cfg.truncateAt)
                  else s == b.s)
    case _ => a == b
  }

  predicate LowEqualItems(cfg: Settings, xs: seq<Value>, ys: seq<Value>, depth: nat)
    decreases xs
  {
    |xs| == |ys| &&
    (xs != [] ==> LowEqual(cfg, xs[0], ys[0], depth + 1) && LowEqualItems(cfg, xs[1..], ys[1..], depth))
  }

  predicate LowEqualEntries(cfg: Settings, xs: seq<Entry>, ys: seq<Entry>, depth: nat)
    decreases xs
  {
    |xs| == |ys| &&
    (xs != [] ==>
       && xs[0].key == ys[0].key
       && LowEqualEntry(cfg, xs[0], ys[0], depth)
       && LowEqualEntries(cfg, xs[1..], ys[1..], depth))
  }

  predicate LowEqualEntry(cfg: Settings, x: Entry, y: Entry, depth: nat)
    decreases x
  {
    if IsPii(cfg, x.key) && !x.value.Nothing?
    then !y.value.Nothing? && Digest(cfg, x.value)[..8] == Digest(cfg, y.value)[..8]
    else !(IsPii(cfg, x.key) && !y.value.Nothing?) && LowEqual(cfg, x.value, y.value, depth + 1)
  }

  // ── Text and hashes ────────────────────────────────────────────────

  // Sixteen hex digits are the first eight bytes of the digest.
  lemma {:induction false} HexPrefix(d: Bytes, n: nat)
    requires n <= |d|
    ensures Hex(d)[..2 * n] == Hex(d[..n])
  {
    if n > 0 {
      HexPrefix(d[1..], n - 1);
      assert d[..n][1..] == d[1..][..n - 1];
      var pair := [HexDigit(d[0] / 16), HexDigit(d[0] % 16)];
      assert (pair + Hex(d[1..]))[..2 * n] == pair + Hex(d[1..])[..2 * (n - 1)];
    } else {
      assert d[..0] == [];
    }
  }

  lemma HashesAgreeIff(cfg: Settings, v: Value, w: Value)
    ensures Hash(cfg, v) == Hash(cfg, w) <==> Digest(cfg, v)[..8] == Digest(cfg, w)[..8]
  {
    HexPrefix(Digest(cfg, v), 8);
    HexPrefix(Digest(cfg, w), 8);
    var tag, x, y := "sha256:", Hex(Digest(cfg, v))[..16], Hex(Digest(cfg, w))[..16];
    assert (tag + x)[|tag|..] == x && (tag + y)[|tag|..] == y;
    if x == y {
      HexInjective(Digest(cfg, v)[..8], Digest(cfg, w)[..8]);
    }
  }

  predicate AllDigits(s: string) {
    forall i | 0 <= i < |s| :: '0' <= s[i] <= '9'
  }

  lemma {:induction false} PrintNatDigits(n: nat)
    ensures AllDigits(J.PrintNat(n)) && J.PrintNat(n) != ""
  {
    if n >= 10 {
      PrintNatDigits(n / 10);
    }
  }

  lemma {:induction false} PrintNatInjective(m: nat, n: nat)
    requires J.PrintNat(m) == J.PrintNat(n)
    ensures m == n
    decreases m + n
  {
    PrintNatDigits(m / 10);
    PrintNatDigits(n / 10);
    var s, t := J.PrintNat(m), J.PrintNat(n);
    assert s[|s| - 1] == HexDigit(m % 10) && t[|t| - 1] == HexDigit(n % 10);
    assert HexValue(s[|s| - 1]) == m % 10 && HexValue(t[|t| - 1]) == n % 10;
    if m >= 10 && n >= 10 {
      assert s[..|s| - 1] == J.PrintNat(m / 10) && t[..|t| - 1] == J.PrintNat(n / 10);
      PrintNatInjective(m / 10, n / 10);
    }
  }

  // The number in a marker can be read off the end of the text.
  lemma LastNumber(x: string, y: string, d: string, e: string)
    requires x + "+" + d == y + "+" + e && AllDigits(d) && AllDigits(e)
    ensures d == e && x == y
  {
    var s := x + "+" + d;
    LastPlus(s, x, d);
    LastPlus(s, y, e);
    assert s[|x| + 1..] == d && s[|y| + 1..] == e;
    assert s[..|x|] == x && s[..|y|] == y;
  }

  lemma LastPlus(s: string, x: string, d: string)
    requires s == x + "+" + d && AllDigits(d)
    ensures |x| < |s| && s[|x|] == '+' && forall k | |x| < k < |s| :: s[k] != '+'
  {
    forall k | |x| < k < |s|
      ensures s[k] != '+'
    {
      assert s[k] == d[k - |x| - 1];
    }
  }

  lemma TruncatedIff(a: string, b: string, m: nat, n: nat)
    ensures a + Marker(m) == b + Marker(n) <==> a == b && m == n
  {
    if a + Marker(m) == b + Marker(n) {
      PrintNatDigits(m);
      PrintNatDigits(n);
      var s := a + Marker(m);
      var x, y := a + "\U{2026}[", b + "\U{2026}[";
      assert s[..|s| - 3] == x + "+" + J.PrintNat(m);
      assert s[..|s| - 3] == y + "+" + J.PrintNat(n);
      LastNumber(x, y, J.PrintNat(m), J.PrintNat(n));
      PrintNatInjective(m, n);
      assert x[..|x| - 2] == a && y[..|y| - 2] == b;
    }
  }

  // ── Non-interference, and nothing more is lost ─────────────────────

  /** Two payloads have the same copy exactly when they differ only there. */
  lemma {:induction false} RedactsAlikeIff(cfg: Settings, a: Value, b: Value, depth: nat)
    ensures Redact(cfg, a, depth) == Redact(cfg, b, depth) <==> LowEqual(cfg, a, b, depth)
    decreases a
  {
    hide Prefix, Marker, Hash, StubSurvives;
    if depth <= cfg.maxDepth {
      match a {
        case Dict(xs) =>
          if b.Dict? {
            EntriesAlikeIff(cfg, xs, b.entries, depth);
          } else if b.Binary? {
            RedactsToStubIff(cfg, xs, |b.bytes|, depth);
          }
        case List(xs) =>
          if b.List? || b.Tuple? {
            ItemsAlikeIff(cfg, xs, b.items, depth);
          }
        case Tuple(xs) =>
          if b.List? || b.Tuple? {
            ItemsAlikeIff(cfg, xs, b.items, depth);
          }
        case Binary(x) =>
          if b.Dict? {
            RedactsToStubIff(cfg, b.entries, |x|, depth);
          }
        case Text(s) =>
          if b.Text? {
            TextsAlikeIff(cfg, s, b.s, depth);
          }
        case _ =>
      }
    }
  }

  /** A dictionary has the copy of a byte string exactly when it is that stub, and the stub is left
      as it is at this depth. */
  lemma RedactsToStubIff(cfg: Settings, entries: seq<Entry>, n: nat, depth: nat)
    requires depth <= cfg.maxDepth
    ensures Redact(cfg, Dict(entries), depth) == Stub(n) <==> StubSurvives(cfg, depth) && Dict(entries) == Stub(n)
  {
    hide Redact, RedactEntry, RedactEntries, StubSurvives;
    DictRedacts(cfg, entries, depth);
    EntriesRedact(cfg, entries, depth);
    if |entries| == 2 && entries[0].key == Name("__redacted__") && entries[1].key == Name("len") {
      StubValues(cfg, entries[0], entries[1], n, depth);
      assert entries == [entries[0], entries[1]];
    }
  }

  lemma DictRedacts(cfg: Settings, entries: seq<Entry>, depth: nat)
    requires depth <= cfg.maxDepth
    ensures Redact(cfg, Dict(entries), depth) == Dict(RedactEntries(cfg, entries, depth))
  {
  }

  // Keys are never changed.
  lemma {:induction false} EntriesRedact(cfg: Settings, entries: seq<Entry>, depth: nat)
    ensures |RedactEntries(cfg, entries, depth)| == |entries|
    ensures forall k | 0 <= k < |entries| ::
              RedactEntries(cfg, entries, depth)[k] == Entry(entries[k].key, RedactEntry(cfg, entries[k], depth))
    decreases entries
  {
    hide RedactEntry;
    if entries != [] {
      EntriesRedact(cfg, entries[1..], depth);
    }
  }

  lemma StubValues(cfg: Settings, e: Entry, f: Entry, n: nat, depth: nat)
    requires depth <= cfg.maxDepth && e.key == Name("__redacted__") && f.key == Name("len")
    ensures RedactEntry(cfg, e, depth) == Text("bytes") && RedactEntry(cfg, f, depth) == Number(n) <==>
            StubSurvives(cfg, depth) && e.value == Text("bytes") && f.value == Number(n)
  {
    if e.value.Text? && |e.value.s| > cfg.truncateAt {
      EndsInBracket(Prefix(e.value.s, cfg.truncateAt), |e.value.s| - cfg.truncateAt);
    }
    hide Prefix, Marker;
  }

  lemma EndsInBracket(s: string, n: nat)
    ensures s + Marker(n) != "bytes"
  {
    var t := s + Marker(n);
    assert t[|t| - 1] == ']';
    assert "bytes"[4] == 's';
  }

  lemma TextsAlikeIff(cfg: Settings, s: string, t: string, depth: nat)
    requires depth <= cfg.maxDepth
    ensures Redact(cfg, Text(s), depth) == Redact(cfg, Text(t), depth) <==> LowEqual(cfg, Text(s), Text(t), depth)
  {
    var n := cfg.truncateAt;
    if |s| > n && |t| > n {
      TruncatedIff(Prefix(s, n), Prefix(t, n), |s| - n, |t| - n);
    } else if |s| > n {
      TruncatedIsLonger(s, n);
    } else if |t| > n {
      TruncatedIsLonger(t, n);
    }
  }

  lemma TruncatedIsLonger(s: string, n: int)
    requires 0 <= n < |s|
    ensures |Prefix(s, n) + Marker(|s| - n)| > n
  {
  }

  lemma {:induction false} ItemsAlikeIff(cfg: Settings, xs: seq<Value>, ys: seq<Value>, depth: nat)
    ensures RedactItems(cfg, xs, depth) == RedactItems(cfg, ys, depth) <==> LowEqualItems(cfg, xs, ys, depth)
    decreases xs
  {
    hide Redact, LowEqual;
    if xs != [] && ys != [] {
      RedactsAlikeIff(cfg, xs[0], ys[0], depth + 1);
      ItemsAlikeIff(cfg, xs[1..], ys[1..], depth);
      var r, t := RedactItems(cfg, xs[1..], depth), RedactItems(cfg, ys[1..], depth);
      assert RedactItems(cfg, xs, depth)[1..] == r && RedactItems(cfg, ys, depth)[1..] == t;
    }
  }

  lemma {:induction false} EntriesAlikeIff(cfg: Settings, xs: seq<Entry>, ys: seq<Entry>, depth: nat)
    ensures RedactEntries(cfg, xs, depth) == RedactEntries(cfg, ys, depth) <==> LowEqualEntries(cfg, xs, ys, depth)
    decreases xs
  {
    hide RedactEntry, LowEqualEntry;
    if xs != [] && ys != [] {
      EntryAlikeIff(cfg, xs[0], ys[0], depth);
      EntriesAlikeIff(cfg, xs[1..], ys[1..], depth);
      var r, t := RedactEntries(cfg, xs[1..], depth), RedactEntries(cfg, ys[1..], depth);
      assert RedactEntries(cfg, xs, depth)[1..] == r && RedactEntries(cfg, ys, depth)[1..] == t;
    }
  }

  lemma EntryAlikeIff(cfg: Settings, x: Entry, y: Entry, depth: nat)
    ensures x.key == y.key ==>
              (RedactEntry(cfg, x, depth) == RedactEntry(cfg, y, depth) <==> LowEqualEntry(cfg, x, y, depth))
    decreases x
  {
    hide Redact, LowEqual, Hash, IsPii;
    RedactsAlikeIff(cfg, x.value, y.value, depth + 1);
    HashesAgreeIff(cfg, x.value, y.value);
    HashIsNotNothing(cfg, x.value, depth + 1);
    HashIsNotNothing(cfg, y.value, depth + 1);
  }

  // A hash is never what None redacts to.
  lemma HashIsNotNothing(cfg: Settings, v: Value, depth: nat)
    ensures Hash(cfg, v) != Redact(cfg, Nothing, depth)
  {
  }

  // ── What the copy is ───────────────────────────────────────────────

  // Nothing in the payload is to be hidden: no PII value, tuple, bytes or long text, and not too deep.
  predicate Plain(cfg: Settings, v: Value, depth: nat)
    decreases v
  {
    depth <= cfg.maxDepth &&
    match v
    case Dict(entries) => PlainEntries(cfg, entries, depth)
    case List(items) => PlainItems(cfg, items, depth)
    case Tuple(_) => false
    case Binary(_) => false
    case Text(s) => |s| <= cfg.truncateAt
    case _ => true
  }

  predicate PlainItems(cfg: Settings, items: seq<Value>, depth: nat)
    decreases items
  {
    items != [] ==> Plain(cfg, items[0], depth + 1) && PlainItems(cfg, items[1..], depth)
  }

  predicate PlainEntries(cfg: Settings, entries: seq<Entry>, depth: nat)
    decreases entries
  {
    entries != [] ==> PlainEntry(cfg, entries[0], depth) && PlainEntries(cfg, entries[1..], depth)
  }

  predicate PlainEntry(cfg: Settings, e: Entry, depth: nat)
    decreases e
  {
    (IsPii(cfg, e.key) ==> e.value.Nothing?) && Plain(cfg, e.value, depth + 1)
  }

  /** A payload with nothing to hide is copied unchanged. */
  lemma {:induction false} PlainIsCopied(cfg: Settings, v: Value, depth: nat)
    requires Plain(cfg, v, depth)
    ensures Redact(cfg, v, depth) == v
    decreases v
  {
    match v {
      case Dict(entries) => PlainEntriesCopied(cfg, entries, depth);
      case List(items) => PlainItemsCopied(cfg, items, depth);
      case _ =>
    }
  }

  lemma {:induction false} PlainItemsCopied(cfg: Settings, items: seq<Value>, depth: nat)
    requires PlainItems(cfg, items, depth)
    ensures RedactItems(cfg, items, depth) == items
    decreases items
  {
    if items != [] {
      PlainIsCopied(cfg, items[0], depth + 1);
      PlainItemsCopied(cfg, items[1..], depth);
    }
  }

  lemma {:induction false} PlainEntriesCopied(cfg: Settings, entries: seq<Entry>, depth: nat)
    requires PlainEntries(cfg, entries, depth)
    ensures RedactEntries(cfg, entries, depth) == entries
    decreases entries
  {
    if entries != [] {
      PlainEntryCopied(cfg, entries[0], depth);
      PlainEntriesCopied(cfg, entries[1..], depth);
    }
  }

  lemma PlainEntryCopied(cfg: Settings, e: Entry, depth: nat)
    requires PlainEntry(cfg, e, depth)
    ensures RedactEntry(cfg, e, depth) == e.value
    decreases e
  {
    PlainIsCopied(cfg, e.value, depth + 1);
  }

  // The decimal number a text spells.
  function Spells(digits: string): nat
    requires AllDigits(digits)
  {
    if digits == "" then 0
    else 10 * Spells(digits[..|digits| - 1]) + (digits[|digits| - 1] as int - '0' as int)
  }

  lemma {:induction false} PrintNatSpells(n: nat)
    ensures AllDigits(J.PrintNat(n)) && Spells(J.PrintNat(n)) == n
  {
    PrintNatDigits(n);
    var s := J.PrintNat(n);
    assert s[|s| - 1] == HexDigit(n % 10) && HexValue(s[|s| - 1]) == n % 10;
    if n >= 10 {
      assert s[..|s| - 1] == J.PrintNat(n / 10);
      PrintNatSpells(n / 10);
    } else {
      assert s[..|s| - 1] == "";
    }
  }

  /** A text over the limit keeps its first characters, and the marker after them says how many more
      there were; a shorter one is kept. */
  lemma LongTextCopied(cfg: Settings, s: string, depth: nat) returns (digits: string)
    requires depth <= cfg.maxDepth && cfg.truncateAt >= 0
    ensures |s| <= cfg.truncateAt ==> Redact(cfg, Text(s), depth) == Text(s)
    ensures |s| > cfg.truncateAt ==>
              && AllDigits(digits) && cfg.truncateAt + Spells(digits) == |s|
              && Redact(cfg, Text(s), depth) == Text(s[..cfg.truncateAt] + "\U{2026}[+" + digits + "ch]")
  {
    digits := "";
    if |s| > cfg.truncateAt {
      digits := J.PrintNat(|s| - cfg.truncateAt);
      PrintNatSpells(|s| - cfg.truncateAt);
      assert s[..cfg.truncateAt] + Marker(|s| - cfg.truncateAt) == s[..cfg.truncateAt] + "\U{2026}[+" + digits + "ch]";
    }
  }

  /** A dictionary keeps its keys and their order; a PII value that is not None becomes its hash,
      sixteen hex digits of SHA-256 over the salt and its text, every other value its own copy. */
  lemma DictCopied(cfg: Settings, entries: seq<Entry>, depth: nat)
    requires depth <= cfg.maxDepth
    ensures var r := Redact(cfg, Dict(entries), depth);
            && r.Dict? && |r.entries| == |entries|
            && forall k | 0 <= k < |entries| ::
                 var e, f := entries[k], r.entries[k];
                 && f.key == e.key
                 && (IsPii(cfg, e.key) && !e.value.Nothing? ==>
                       f.value == Text("sha256:" + Hex(cfg.sha(cfg.salt + cfg.encoded(e.value))[..8])))
                 && (!IsPii(cfg, e.key) || e.value.Nothing? ==> f.value == Redact(cfg, e.value, depth + 1))
  {
    DictRedacts(cfg, entries, depth);
    EntriesRedact(cfg, entries, depth);
    hide Redact, IsPii, RedactEntries;
    forall k | 0 <= k < |entries|
      ensures Hash(cfg, entries[k].value)
              == Text("sha256:" + Hex(cfg.sha(cfg.salt + cfg.encoded(entries[k].value))[..8]))
    {
      HexPrefix(Digest(cfg, entries[k].value), 8);
    }
  }

  /** Lists and tuples become lists of the elements' copies, bytes their number, and what lies below
      the depth limit one mark. */
  lemma OthersCopied(cfg: Settings, v: Value, depth: nat)
    ensures depth > cfg.maxDepth ==> Redact(cfg, v, depth) == Dict([Entry(Name("__truncated__"), Text("depth"))])
    ensures depth <= cfg.maxDepth && v.Binary? ==>
              Redact(cfg, v, depth) ==
              Dict([Entry(Name("__redacted__"), Text("bytes")), Entry(Name("len"), Number(|v.bytes|))])
    ensures depth <= cfg.maxDepth && (v.List? || v.Tuple?) ==>
              var r := Redact(cfg, v, depth);
              && r.List? && |r.items| == |v.items|
              && forall k | 0 <= k < |v.items| :: r.items[k] == Redact(cfg, v.items[k], depth + 1)
  {
    if v.List? || v.Tuple? {
      ItemsRedact(cfg, v.items, depth);
    }
  }

  lemma {:induction false} ItemsRedact(cfg: Settings, items: seq<Value>, depth: nat)
    ensures |RedactItems(cfg, items, depth)| == |items|
    ensures forall k | 0 <= k < |items| :: RedactItems(cfg, items, depth)[k] == Redact(cfg, items[k], depth + 1)
    decreases items
  {
    hide Redact;
    if items != [] {
      ItemsRedact(cfg, items[1..], depth);
    }
  }

  // ── Depth ──────────────────────────────────────────────────────────

  function Max(a: int, b: int): int {
    if a >= b then a else b
  }

  // How many containers are nested around the deepest leaf.
  function Nesting(v: Value): (r: nat)
    decreases v
  {
    match v
    case Dict(entries) => 1 + EntriesNesting(entries)
    case List(items) => 1 + ItemsNesting(items)
    case Tuple(items) => 1 + ItemsNesting(items)
    case _ => 0
  }

  function ItemsNesting(items: seq<Value>): (r: nat)
    decreases items
  {
    if items == [] then 0 else Max(Nesting(items[0]), ItemsNesting(items[1..]))
  }

  function EntriesNesting(entries: seq<Entry>): (r: nat)
    decreases entries
  {
    if entries == [] then 0 else Max(EntryNesting(entries[0]), EntriesNesting(entries[1..]))
  }

  function EntryNesting(e: Entry): (r: nat)
    decreases e
  {
    Nesting(e.value)
  }

  lemma {:induction false} NestingFrom(cfg: Settings, v: Value, depth: nat)
    ensures Nesting(Redact(cfg, v, depth)) <= Max(1, cfg.maxDepth + 2 - depth)
    decreases v
  {
    if depth > cfg.maxDepth {
      MarkNesting();
    } else {
      match v {
        case Dict(entries) => EntriesNestingFrom(cfg, entries, depth);
        case List(items) => ItemsNestingFrom(cfg, items, depth);
        case Tuple(items) => ItemsNestingFrom(cfg, items, depth);
        case Binary(bytes) => MarkNesting();
        case _ =>
      }
    }
  }

  lemma MarkNesting()
    ensures Nesting(DepthMark()) == 1
    ensures forall n: nat :: Nesting(Stub(n)) == 1
  {
    forall n: nat
      ensures Nesting(Stub(n)) == 1
    {
      var e := Stub(n).entries;
      assert EntryNesting(e[0]) == 0 && EntryNesting(e[1]) == 0;
      assert e[1..] == [e[1]] && [e[1]][1..] == [];
      assert EntriesNesting([e[1]]) == 0;
    }
  }

  lemma {:induction false} ItemsNestingFrom(cfg: Settings, items: seq<Value>, depth: nat)
    ensures ItemsNesting(RedactItems(cfg, items, depth)) <= Max(1, cfg.maxDepth + 1 - depth)
    decreases items
  {
    if items != [] {
      NestingFrom(cfg, items[0], depth + 1);
      ItemsNestingFrom(cfg, items[1..], depth);
      assert RedactItems(cfg, items, depth)[1..] == RedactItems(cfg, items[1..], depth);
    }
  }

  lemma {:induction false} EntriesNestingFrom(cfg: Settings, entries: seq<Entry>, depth: nat)
    ensures EntriesNesting(RedactEntries(cfg, entries, depth)) <= Max(1, cfg.maxDepth + 1 - depth)
    decreases entries
  {
    if entries != [] {
      EntryNestingFrom(cfg, entries[0], depth);
      EntriesNestingFrom(cfg, entries[1..], depth);
      assert RedactEntries(cfg, entries, depth)[1..] == RedactEntries(cfg, entries[1..], depth);
    }
  }

  lemma EntryNestingFrom(cfg: Settings, e: Entry, depth: nat)
    ensures Nesting(RedactEntry(cfg, e, depth)) <= Max(1, cfg.maxDepth + 1 - depth)
    decreases e
  {
    NestingFrom(cfg, e.value, depth + 1);
  }

  // A leaf inside n lists.
  function Lists(n: nat): Value {
    if n == 0 then Nothing else List([Lists(n - 1)])
  }

  /** A copy never nests deeper than max_depth + 2 containers (1 if max_depth is negative), and some
      payload reaches that. */
  lemma NestingBound(cfg: Settings, v: Value)
    ensures Nesting(Redact(cfg, v, 0)) <= Max(1, cfg.maxDepth + 2)
    ensures cfg.maxDepth >= -1 ==> Nesting(Redact(cfg, Lists(cfg.maxDepth + 1), 0)) == cfg.maxDepth + 2
  {
    NestingFrom(cfg, v, 0);
    if cfg.maxDepth >= -1 {
      ListsNest(cfg, 0);
    }
  }

  lemma {:induction false} ListsNest(cfg: Settings, depth: nat)
    requires depth <= cfg.maxDepth + 1
    ensures Nesting(Redact(cfg, Lists(cfg.maxDepth + 1 - depth), depth)) == cfg.maxDepth + 2 - depth
    decreases cfg.maxDepth + 1 - depth
  {
    if depth > cfg.maxDepth {
      MarkNesting();
    } else {
      ListsNest(cfg, depth + 1);
      var inner := Lists(cfg.maxDepth - depth);
      assert RedactItems(cfg, [inner][1..], depth) == [];
      var r := Redact(cfg, inner, depth + 1);
      assert RedactItems(cfg, [inner], depth) == [r];
      assert ItemsNesting([r][1..]) == 0;
    }
  }
}
