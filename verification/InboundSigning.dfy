/** Signed inbound envelopes: what bytes a signature covers, the trust anchors it is checked
    against, and when an envelope is accepted. */
module InboundSigning {
  import opened Bytes
  import opened CanonicalJson
  import opened Common
  import opened JsonIdentity

  // ── Canonical bytes ────────────────────────────────────────────────

  /** `{k: v for k, v in payload.items() if k != "signature"}` */
  function Stripped(envelope: seq<Field>): seq<Field> {
    if envelope == [] then []
    else if envelope[0].key == "signature" then Stripped(envelope[1..])
    else [envelope[0]] + Stripped(envelope[1..])
  }

  function CanonicalBytes(envelope: seq<Field>): Bytes {
    Utf8(Dumps(Object(Stripped(envelope))))
  }

  lemma {:induction false} StrippedMembers(envelope: seq<Field>)
    ensures forall f :: f in Stripped(envelope) <==> f in envelope && f.key != "signature"
    ensures UniqueKeys(envelope) ==> UniqueKeys(Stripped(envelope))
  {
    if envelope != [] {
      StrippedMembers(envelope[1..]);
      var rest := Stripped(envelope[1..]);
      if UniqueKeys(envelope) && envelope[0].key != "signature" {
        forall j | 0 <= j < |rest|
          ensures rest[j].key != envelope[0].key
        {
          assert rest[j] in envelope[1..];
        }
      }
    }
  }

  lemma StrippedWellFormed(envelope: seq<Field>)
    requires WellFormed(Object(envelope))
    ensures WellFormed(Object(Stripped(envelope)))
  {
    StrippedMembers(envelope);
    var s := Stripped(envelope);
    forall i | 0 <= i < |s|
      ensures WellFormed(s[i].value)
    {
      assert s[i] in envelope;
      var j :| 0 <= j < |envelope| && envelope[j] == s[i];
    }
  }

  /** Two envelopes have the same signed bytes exactly when they agree on every field but the
      signature, whatever the field order. */
  lemma CanonicalBytesIffSame(a: seq<Field>, b: seq<Field>)
    requires WellFormed(Object(a)) && WellFormed(Object(b))
    ensures CanonicalBytes(a) == CanonicalBytes(b) <==> Same(Object(Stripped(a)), Object(Stripped(b)))
  {
    var v, w := Object(Stripped(a)), Object(Stripped(b));
    StrippedWellFormed(a);
    StrippedWellFormed(b);
    DumpsIffSame(v, w);
    PrintAscii(Canon(v));
    PrintAscii(Canon(w));
    if CanonicalBytes(a) == CanonicalBytes(b) {
      Utf8AsciiInjective(Dumps(v), Dumps(w));
    }
  }

  /** `envelope["signature"] = value`: replaced in place, or added at the end. */
  function SetField(envelope: seq<Field>, key: string, value: Json): seq<Field> {
    if envelope == [] then [Field(key, value)]
    else if envelope[0].key == key then [Field(key, value)] + envelope[1..]
    else [envelope[0]] + SetField(envelope[1..], key, value)
  }

  /** Attaching or replacing the signature never changes the signed bytes. */
  lemma {:induction false} SignatureNotCovered(envelope: seq<Field>, value: Json)
    ensures Stripped(SetField(envelope, "signature", value)) == Stripped(envelope)
    ensures CanonicalBytes(SetField(envelope, "signature", value)) == CanonicalBytes(envelope)
  {
    if envelope != [] && envelope[0].key != "signature" {
      SignatureNotCovered(envelope[1..], value);
      assert SetField(envelope, "signature", value)[1..] == SetField(envelope[1..], "signature", value);
    } else if envelope != [] {
      assert SetField(envelope, "signature", value)[1..] == envelope[1..];
    } else {
      assert SetField(envelope, "signature", value)[1..] == [];
    }
  }

  lemma {:induction false} GetAfterSet(envelope: seq<Field>, key: string, value: Json, k: string)
    ensures Get(SetField(envelope, key, value), k) == if k == key then Some(value) else Get(envelope, k)
  {
    if envelope != [] && envelope[0].key != key {
      GetAfterSet(envelope[1..], key, value, k);
    }
  }

  // ── Trust anchors from the environment ─────────────────────────────

  /** The characters Python's `str.strip` removes. */
  predicate IsSpace(c: char) {
    var n := c as int;
    || 9 <= n <= 13 || 28 <= n <= 32 || n == 0x85 || n == 0xA0 || n == 0x1680 || 0x2000 <= n <= 0x200A
    || n == 0x2028 || n == 0x2029 || n == 0x202F || n == 0x205F || n == 0x3000
  }

  // One by one.
  lemma Spaces(c: char)
    ensures IsSpace(c) <==>
            c as int in {0x9, 0xA, 0xB, 0xC, 0xD, 0x1C, 0x1D, 0x1E, 0x1F, 0x20, 0x85, 0xA0, 0x1680,
                         0x2000, 0x2001, 0x2002, 0x2003, 0x2004, 0x2005, 0x2006, 0x2007, 0x2008, 0x2009, 0x200A,
                         0x2028, 0x2029, 0x202F, 0x205F, 0x3000}
  {
  }

  function Lstrip(s: string): string {
    if s != "" && IsSpace(s[0]) then Lstrip(s[1..]) else s
  }

  function Rstrip(s: string): string {
    if s != "" && IsSpace(s[|s| - 1]) then Rstrip(s[..|s| - 1]) else s
  }

  function Strip(s: string): string {
    Rstrip(Lstrip(s))
  }

  /** Index of the first occurrence of `c`, the length when there is none. */
  function Find(s: string, c: char): (i: nat)
    ensures i <= |s| && c !in s[..i] && (i < |s| ==> s[i] == c)
  {
    if s == "" || s[0] == c then 0 else
      var i := 1 + Find(s[1..], c);
      assert s[..i] == [s[0]] + s[1..][..i - 1];
      i
  }

  /** `s.split(",")` */
  function SplitCommas(s: string): (chunks: seq<string>)
    ensures chunks != []
    decreases |s|
  {
    var i := Find(s, ',');
    if i == |s| then [s] else [s[..i]] + SplitCommas(s[i + 1..])
  }

  // A chunk that names a key: None when it is blank or has no colon.
  function Anchor(chunk: string): Option<(string, string)> {
    var t := Strip(chunk);
    var i := Find(t, ':');
    if i == |t| then None else Some((Strip(t[..i]), Strip(t[i + 1..])))
  }

  function Anchors(chunks: seq<string>): map<string, string> {
    if chunks == [] then map[]
    else
      var before := Anchors(chunks[..|chunks| - 1]);
      match Anchor(chunks[|chunks| - 1])
      case None => before
      case Some((kid, b64)) => before[kid := b64]
  }

  /** The anchors an environment value pins. */
  function EnvAnchors(env: string): map<string, string> {
    if Strip(env) == "" then map[] else Anchors(SplitCommas(Strip(env)))
  }

  /** `_load_env_keys` */
  method LoadEnvKeys(env: string) returns (keys: map<string, string>)
    ensures keys == EnvAnchors(env)
  {
    hide Strip, SplitCommas;
    var raw := Strip(env);
    keys := map[];
    if raw == "" {
      return;
    }
    var chunks := SplitCommas(raw);
    for i := 0 to |chunks|
      invariant keys == Anchors(chunks[..i])
    {
      var chunk := Strip(chunks[i]);
      var colon := Find(chunk, ':');
      assert chunks[..i + 1][..i] == chunks[..i];
      if colon < |chunk| {
        keys := keys[Strip(chunk[..colon]) := Strip(chunk[colon + 1..])];
      }
    }
    assert chunks[..|chunks|] == chunks;
  }

  /** The effective anchors: the environment wins over the pinned defaults. */
  function Effective(defaults: map<string, string>, env: string): map<string, string> {
    defaults + EnvAnchors(env)
  }

  /** `trusted_keys` */
  method TrustedKeys(defaults: map<string, string>, env: string) returns (keys: map<string, string>)
    ensures forall kid :: kid in keys <==> kid in EnvAnchors(env) || kid in defaults
    ensures forall kid | kid in EnvAnchors(env) :: keys[kid] == EnvAnchors(env)[kid]
    ensures forall kid | kid in defaults && kid !in EnvAnchors(env) :: keys[kid] == defaults[kid]
    ensures keys == Effective(defaults, env)
  {
    keys := defaults;
    var loaded := LoadEnvKeys(env);
    keys := keys + loaded;
  }

  // ── Writing anchors so that they read back ─────────────────────────

  // Text that survives the reader: no separators, no white space at either end.
  ghost predicate Clean(s: string) {
    && ',' !in s
    && (s != "" ==> !IsSpace(s[0]) && !IsSpace(s[|s| - 1]))
  }

  ghost predicate CleanEntry(e: (string, string)) {
    Clean(e.0) && Clean(e.1) && ':' !in e.0
  }

  /** "<keyid>:<base64>[,<keyid>:<base64>...]" */
  function Render(entries: seq<(string, string)>): string
    requires entries != []
  {
    var head := entries[0].0 + ":" + entries[0].1;
    if |entries| == 1 then head else head + "," + Render(entries[1..])
  }

  function AsMap(entries: seq<(string, string)>): map<string, string> {
    if entries == [] then map[]
    else AsMap(entries[..|entries| - 1])[entries[|entries| - 1].0 := entries[|entries| - 1].1]
  }

  function Chunks(entries: seq<(string, string)>): (r: seq<string>)
    ensures |r| == |entries|
    ensures forall i | 0 <= i < |r| :: r[i] == entries[i].0 + ":" + entries[i].1
  {
    seq(|entries|, i requires 0 <= i < |entries| => entries[i].0 + ":" + entries[i].1)
  }

  lemma StripClean(s: string)
    requires s != "" ==> !IsSpace(s[0]) && !IsSpace(s[|s| - 1])
    ensures Strip(s) == s
  {
  }

  lemma FindConcat(a: string, c: char, b: string)
    requires c !in a
    ensures Find(a + [c] + b, c) == |a|
  {
    var s := a + [c] + b;
    var i := Find(s, c);
    forall k | 0 <= k < i
      ensures s[k] != c
    {
      assert s[k] in s[..i];
    }
    forall k | 0 <= k < |a|
      ensures s[k] != c
    {
      assert s[k] == a[k];
    }
    assert s[|a|] == c;
  }

  lemma SplitFirst(head: string, tail: string)
    requires ',' !in head
    ensures SplitCommas(head + [','] + tail) == [head] + SplitCommas(tail)
    ensures SplitCommas(head) == [head]
  {
    FindConcat(head, ',', tail);
    var all := head + [','] + tail;
    assert all[|head| + 1..] == tail && all[..|head|] == head;
    assert Find(head, ',') == |head|;
  }

  // The text of the first entry, and of the others.
  function EntryText(e: (string, string)): string {
    e.0 + ":" + e.1
  }

  lemma RenderHead(entries: seq<(string, string)>)
    requires |entries| > 1
    ensures Render(entries) == EntryText(entries[0]) + [','] + Render(entries[1..])
    ensures Chunks(entries) == [EntryText(entries[0])] + Chunks(entries[1..])
  {
  }

  lemma CleanText(e: (string, string))
    requires CleanEntry(e)
    ensures ',' !in EntryText(e)
  {
  }

  lemma {:induction false} SplitRender(entries: seq<(string, string)>)
    requires entries != [] && forall e | e in entries :: CleanEntry(e)
    ensures SplitCommas(Render(entries)) == Chunks(entries)
  {
    CleanText(entries[0]);
    if |entries| == 1 {
      SplitFirst(EntryText(entries[0]), "");
      assert Chunks(entries) == [EntryText(entries[0])];
    } else {
      hide Render, Chunks, SplitCommas, CleanEntry, EntryText;
      RenderHead(entries);
      SplitFirst(EntryText(entries[0]), Render(entries[1..]));
      SplitRender(entries[1..]);
    }
  }

  lemma AnchorOfChunk(e: (string, string))
    requires CleanEntry(e)
    ensures Anchor(e.0 + ":" + e.1) == Some(e)
  {
    var s := e.0 + [':'] + e.1;
    assert !IsSpace(':');
    assert s[0] == (if e.0 == "" then ':' else e.0[0]);
    assert s[|s| - 1] == (if e.1 == "" then ':' else e.1[|e.1| - 1]);
    StripClean(s);
    FindConcat(e.0, ':', e.1);
    assert s[..|e.0|] == e.0 && s[|e.0| + 1..] == e.1;
    StripClean(e.0);
    StripClean(e.1);
  }

  lemma {:induction false} AnchorsOfChunks(entries: seq<(string, string)>)
    requires forall e | e in entries :: CleanEntry(e)
    ensures Anchors(Chunks(entries)) == AsMap(entries)
  {
    if entries != [] {
      var n := |entries| - 1;
      AnchorsOfChunks(entries[..n]);
      assert Chunks(entries)[..n] == Chunks(entries[..n]);
      assert entries[n] in entries;
      AnchorOfChunk(entries[n]);
    }
  }

  lemma {:induction false} RenderEnds(entries: seq<(string, string)>)
    requires entries != [] && forall e | e in entries :: CleanEntry(e)
    ensures Render(entries) != "" && !IsSpace(Render(entries)[0]) && !IsSpace(Render(entries)[|Render(entries)| - 1])
  {
    assert CleanEntry(entries[0]);
    if |entries| > 1 {
      RenderEnds(entries[1..]);
    }
  }

  /** Every list of clean entries, written in the documented format, reads back as itself, the
      later of two entries for one key id winning. */
  lemma RenderedAnchorsReadBack(entries: seq<(string, string)>)
    requires entries != [] && forall e | e in entries :: CleanEntry(e)
    ensures EnvAnchors(Render(entries)) == AsMap(entries)
  {
    RenderEnds(entries);
    StripClean(Render(entries));
    SplitRender(entries);
    AnchorsOfChunks(entries);
  }

  // The last entry for the key id.
  ghost predicate LastFor(entries: seq<(string, string)>, kid: string, i: int) {
    0 <= i < |entries| && entries[i].0 == kid && forall j | i < j < |entries| :: entries[j].0 != kid
  }

  /** So the last clean entry for a key id pins it, whatever the defaults hold, and a default stands
      exactly when no entry names its key id. */
  lemma LastEntryPins(defaults: map<string, string>, entries: seq<(string, string)>, kid: string)
    requires entries != [] && forall e | e in entries :: CleanEntry(e)
    ensures forall i | LastFor(entries, kid, i) ::
              kid in Effective(defaults, Render(entries)) && Effective(defaults, Render(entries))[kid] == entries[i].1
    ensures (forall i | 0 <= i < |entries| :: entries[i].0 != kid) && kid in defaults ==>
              kid in Effective(defaults, Render(entries)) && Effective(defaults, Render(entries))[kid] == defaults[kid]
  {
    hide EnvAnchors, Render, AsMap;
    RenderedAnchorsReadBack(entries);
    forall i | LastFor(entries, kid, i)
      ensures kid in AsMap(entries) && AsMap(entries)[kid] == entries[i].1
    {
      LastIsRead(entries, kid, i);
    }
    if forall i | 0 <= i < |entries| :: entries[i].0 != kid {
      UnnamedIsAbsent(entries, kid);
    }
  }

  lemma {:induction false} LastIsRead(entries: seq<(string, string)>, kid: string, i: nat)
    requires LastFor(entries, kid, i)
    ensures kid in AsMap(entries) && AsMap(entries)[kid] == entries[i].1
  {
    var n := |entries| - 1;
    if i < n {
      LastIsRead(entries[..n], kid, i);
    }
  }

  lemma {:induction false} UnnamedIsAbsent(entries: seq<(string, string)>, kid: string)
    requires forall i | 0 <= i < |entries| :: entries[i].0 != kid
    ensures kid !in AsMap(entries)
  {
    if entries != [] {
      UnnamedIsAbsent(entries[..|entries| - 1], kid);
    }
  }

  // ── Verifying an envelope ──────────────────────────────────────────

  // `verify(key, signature, message)` for a 32-byte public key, and strict base64.
  datatype Crypto = Crypto(
    verify: (Digest, Bytes, Bytes) -> bool,
    b64Decode: string -> Option<Bytes>)

  datatype Rejection =
    | FieldsMissing | NotEd25519Signature | SignatureNotBase64 | UntrustedKeyId
    | AnchorNotBase64 | AnchorNot32Bytes | SignatureMismatch

  // Raised: an exception other than SignatureVerificationError (an unhashable key id).
  datatype Outcome = Accepted | Rejected(why: Rejection) | Raised

  const SCHEME := "ed25519:"

  /** `verify_envelope` against the given anchors. */
  function VerifyEnvelope(c: Crypto, keys: map<string, string>, envelope: seq<Field>): Outcome {
    var keyId, signature := Get(envelope, "signing_key_id"), Get(envelope, "signature");
    if !Truthy(keyId) || !Truthy(signature) then Rejected(FieldsMissing)
    else if !signature.value.Str? || !(SCHEME <= signature.value.s) then Rejected(NotEd25519Signature)
    else match c.b64Decode(signature.value.s[|SCHEME|..])
      case None => Rejected(SignatureNotBase64)
      case Some(sig) =>
        if keyId.value.List? || keyId.value.Object? then Raised
        else if !keyId.value.Str? || keyId.value.s !in keys || keys[keyId.value.s] == "" then Rejected(UntrustedKeyId)
        else match c.b64Decode(keys[keyId.value.s])
          case None => Rejected(AnchorNotBase64)
          case Some(pinned) =>
            if |pinned| != 32 then Rejected(AnchorNot32Bytes)
            else if c.verify(pinned, sig, CanonicalBytes(envelope)) then Accepted
            else Rejected(SignatureMismatch)
  }

  // The envelope is signed under the anchor its own key id maps to.
  ghost predicate SignedUnderAnchor(c: Crypto, keys: map<string, string>, envelope: seq<Field>, kid: string,
                                    sig64: string) {
    && Get(envelope, "signing_key_id") == Some(Str(kid)) && kid != ""
    && Get(envelope, "signature") == Some(Str("ed25519:" + sig64))
    && kid in keys
    && c.b64Decode(sig64).Some?
    && c.b64Decode(keys[kid]).Some? && |c.b64Decode(keys[kid]).value| == 32
    && c.verify(c.b64Decode(keys[kid]).value, c.b64Decode(sig64).value, CanonicalBytes(envelope))
  }

  /** An envelope is accepted exactly when its signature verifies under the anchor its key id maps
      to, an environment entry standing before the pinned default. */
  lemma AcceptedIff(c: Crypto, defaults: map<string, string>, env: string, envelope: seq<Field>)
    requires c.b64Decode("") == Some([])
    ensures VerifyEnvelope(c, Effective(defaults, env), envelope).Accepted? <==>
            exists kid, sig64 :: SignedUnderAnchor(c, Effective(defaults, env), envelope, kid, sig64)
    ensures forall kid | kid in Effective(defaults, env) ::
              Effective(defaults, env)[kid] == if kid in EnvAnchors(env) then EnvAnchors(env)[kid] else defaults[kid]
  {
    hide Get, CanonicalBytes, EnvAnchors;
    var keys := Effective(defaults, env);
    if VerifyEnvelope(c, keys, envelope).Accepted? {
      var s := Get(envelope, "signature").value.s;
      var sig64 := s[|SCHEME|..];
      assert s == SCHEME + sig64;
      assert SignedUnderAnchor(c, keys, envelope, Get(envelope, "signing_key_id").value.s, sig64);
    }
    forall kid, sig64 | SignedUnderAnchor(c, keys, envelope, kid, sig64)
      ensures VerifyEnvelope(c, keys, envelope).Accepted?
    {
      assert (SCHEME + sig64)[|SCHEME|..] == sig64;
    }
  }

  /** Sign the canonical bytes, attach the result: the envelope verifies under the pinned key. */
  lemma SignThenAttachVerifies(c: Crypto, keys: map<string, string>, envelope: seq<Field>, kid: string,
                               sig64: string, pk: Digest)
    requires Get(envelope, "signing_key_id") == Some(Str(kid)) && kid != ""
    requires kid in keys && keys[kid] != "" && c.b64Decode(keys[kid]) == Some(pk)
    requires c.b64Decode(sig64).Some? && c.verify(pk, c.b64Decode(sig64).value, CanonicalBytes(envelope))
    ensures VerifyEnvelope(c, keys, SetField(envelope, "signature", Str("ed25519:" + sig64))).Accepted?
  {
    hide Get, CanonicalBytes, SetField;
    var signed := SetField(envelope, "signature", Str(SCHEME + sig64));
    SignatureNotCovered(envelope, Str(SCHEME + sig64));
    GetAfterSet(envelope, "signature", Str(SCHEME + sig64), "signature");
    GetAfterSet(envelope, "signature", Str(SCHEME + sig64), "signing_key_id");
    assert (SCHEME + sig64)[|SCHEME|..] == sig64;
  }

  // The anchor bytes and the signature an accepted envelope was checked with.
  function AnchorOf(c: Crypto, keys: map<string, string>, envelope: seq<Field>): Digest
    requires VerifyEnvelope(c, keys, envelope).Accepted?
  {
    c.b64Decode(keys[Get(envelope, "signing_key_id").value.s]).value
  }

  function SignatureOf(c: Crypto, keys: map<string, string>, envelope: seq<Field>): Bytes
    requires VerifyEnvelope(c, keys, envelope).Accepted?
  {
    c.b64Decode(Get(envelope, "signature").value.s[|SCHEME|..]).value
  }

  // One signature that verifies on two different messages.
  ghost predicate SignsBoth(c: Crypto, key: Digest, sig: Bytes, m: Bytes, m': Bytes) {
    m != m' && c.verify(key, sig, m) && c.verify(key, sig, m')
  }

  /** An accepted signature put on another envelope with the same key id is accepted exactly when
      the two agree on every other field, or that one signature verifies on their two messages. */
  lemma SignatureTransfersIff(c: Crypto, keys: map<string, string>, envelope: seq<Field>, other: seq<Field>)
    requires WellFormed(Object(envelope)) && WellFormed(Object(other))
    requires VerifyEnvelope(c, keys, envelope).Accepted?
    requires Get(other, "signing_key_id") == Get(envelope, "signing_key_id")
    requires Get(other, "signature") == Get(envelope, "signature")
    ensures VerifyEnvelope(c, keys, other).Accepted? <==>
            || Same(Object(Stripped(envelope)), Object(Stripped(other)))
            || SignsBoth(c, AnchorOf(c, keys, envelope), SignatureOf(c, keys, envelope),
                         CanonicalBytes(envelope), CanonicalBytes(other))
  {
    hide Get, CanonicalBytes, Same;
    CanonicalBytesIffSame(envelope, other);
  }
}
