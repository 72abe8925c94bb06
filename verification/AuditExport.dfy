/** The signed audit export and its offline verifier.

    Ed25519, base64 and PEM are functions held in a `Crypto` record; `Lawful` states the only
    things assumed of them, and each lemma names what it needs. */
module AuditExport {
  import opened Bytes
  import opened CanonicalJson
  import opened Common
  import opened FoldHash
  import opened JsonIdentity
  import opened JsonParser

  // An Ed25519 key, private or public: 32 bytes.
  type Key = Digest

  datatype KeyLoad = BadPem | OtherKind | Ed25519(key: Key)

  datatype Crypto = Crypto(
    sha: Sha,
    publicKey: Key -> Key,
    sign: (Key, Bytes) -> Bytes,
    verify: (Key, Bytes, Bytes) -> bool,
    b64Encode: Bytes -> string,
    b64Decode: string -> Option<Bytes>,
    privateFromPem: string -> KeyLoad,
    publicFromPem: string -> KeyLoad,
    publicToPem: Key -> string)

  ghost predicate Lawful(c: Crypto) {
    && (forall k, m :: c.sign(k, m) != [] && c.verify(c.publicKey(k), c.sign(k, m), m))
    && (forall bs :: c.b64Decode(c.b64Encode(bs)) == Some(bs) && (bs != [] ==> c.b64Encode(bs) != ""))
    && (forall k :: c.publicToPem(k) != "" && c.publicFromPem(c.publicToPem(k)) == Ed25519(k))
  }

  const SCHEMA_VERSION := 1
  const DOMAIN_SEP := "||kya-audit-v1||"

  /** The bytes that are signed: canonical manifest, separator, digest text. */
  function SigningPayload(manifest: Json, chainDigest: string): Bytes {
    Utf8(Dumps(manifest)) + Utf8(DOMAIN_SEP) + Utf8(chainDigest)
  }

  function Fingerprint(sha: Sha, publicPem: string): string {
    Hex(sha(Utf8(publicPem)))[..16]
  }

  // ── Export ─────────────────────────────────────────────────────────

  // A moment, with the ISO text `_iso` gives it.
  datatype Time = Time(at: int, iso: string)

  // A row of kya_evidence as the query returns it, its payload already coerced to a JSON value.
  datatype EvidenceRow = EvidenceRow(
    id: int,
    invocationId: Option<int>,
    evidenceKind: string,
    role: Option<string>,
    payload: Json,
    signedHash: string,
    occurredAt: Time)

  datatype Request = Request(
    tenantId: string,
    start: Time,
    end: Time,
    signingKeyPem: string,
    includePayloads: bool,
    invocationId: Option<int>)

  datatype ExportError = TenantRequired | KeyRequired | EmptyRange | KeyNotPem | KeyNotEd25519 | NoRows

  datatype ExportResult = Refused(error: ExportError) | Exported(fields: seq<Field>)

  function OptInt(n: Option<int>): Json {
    if n.Some? then Int(n.value) else Null
  }

  function OptStr(s: Option<string>): Json {
    if s.Some? then Str(s.value) else Null
  }

  function SignedHashes(rows: seq<EvidenceRow>): seq<string> {
    seq(|rows|, i requires 0 <= i < |rows| => rows[i].signedHash)
  }

  function ManifestFields(sha: Sha, req: Request, rows: seq<EvidenceRow>, publicPem: string): seq<Field>
    requires rows != []
  {
    [
      Field("schema_version", Int(SCHEMA_VERSION)),
      Field("tenant_id", Str(req.tenantId)),
      Field("range_start", Str(req.start.iso)),
      Field("range_end", Str(req.end.iso)),
      Field("invocation_id", OptInt(req.invocationId)),
      Field("row_count", Int(|rows|)),
      Field("first_row_id", Int(rows[0].id)),
      Field("last_row_id", Int(rows[|rows| - 1].id)),
      Field("first_recorded_at", Str(rows[0].occurredAt.iso)),
      Field("last_recorded_at", Str(rows[|rows| - 1].occurredAt.iso)),
      Field("signing_key_fingerprint", Str(Fingerprint(sha, publicPem))),
      Field("kya_export_lib_version", Str("1"))
    ]
  }

  function Manifest(sha: Sha, req: Request, rows: seq<EvidenceRow>, publicPem: string): Json
    requires rows != []
  {
    Object(ManifestFields(sha, req, rows, publicPem))
  }

  function RowJson(r: EvidenceRow): Json {
    Object([
      Field("id", Int(r.id)),
      Field("invocation_id", OptInt(r.invocationId)),
      Field("evidence_kind", Str(r.evidenceKind)),
      Field("role", OptStr(r.role)),
      Field("payload", r.payload),
      Field("signed_hash", Str(r.signedHash)),
      Field("recorded_at", Str(r.occurredAt.iso))])
  }

  function RowsJson(rows: seq<EvidenceRow>): seq<Json> {
    seq(|rows|, i requires 0 <= i < |rows| => RowJson(rows[i]))
  }

  function Document(manifest: Json, digest: string, signature: string, signedAt: string, publicPem: string,
                    included: Option<Json>): seq<Field> {
    var fields := [
      Field("manifest", manifest),
      Field("chain_digest", Str(digest)),
      Field("signature_b64", Str(signature)),
      Field("signed_at", Str(signedAt)),
      Field("public_key_pem", Str(publicPem))];
    if included.Some? then fields + [Field("rows", included.value)] else fields
  }

  /** `signed_export`, the query result and the current time given. */
  function SignedExport(c: Crypto, req: Request, rows: seq<EvidenceRow>, now: Time): ExportResult {
    if req.tenantId == "" then Refused(TenantRequired)
    else if req.signingKeyPem == "" then Refused(KeyRequired)
    else if req.end.at <= req.start.at then Refused(EmptyRange)
    else match c.privateFromPem(req.signingKeyPem)
      case BadPem => Refused(KeyNotPem)
      case OtherKind => Refused(KeyNotEd25519)
      case Ed25519(key) =>
        if rows == [] then Refused(NoRows)
        else
          var publicPem := c.publicToPem(c.publicKey(key));
          var digest := ChainDigest(c.sha, SignedHashes(rows));
          var manifest := Manifest(c.sha, req, rows, publicPem);
          var signature := c.sign(key, SigningPayload(manifest, digest));
          var included := if req.includePayloads then Some(List(RowsJson(rows))) else None;
          Exported(Document(manifest, digest, c.b64Encode(signature), now.iso, publicPem, included))
  }

  // ── Verification ───────────────────────────────────────────────────

  datatype Reason =
    | EmbeddedKeyMissing | KeyNotSupplied | PublicKeyNotPem | PublicKeyNotEd25519 | FieldsMissing
    | UnsupportedSchema | SignatureNotBase64 | SignatureMismatch | RowCountMismatch | DigestMismatch

  // Raised: a Python exception leaves the verifier instead of a verdict.
  datatype Verdict = Raised | Invalid(reason: Reason) | Valid(manifest: Json)

  /** Python `v == n` for an integer `n`: True and False equal 1 and 0. */
  predicate EqualsInt(v: Option<Json>, n: int) {
    match v
    case Some(Int(m)) => m == n
    case Some(Bool(b)) => n == (if b then 1 else 0)
    case _ => false
  }

  /** `len(rows)`, None where it raises. */
  function Length(rows: Json): Option<nat> {
    match rows
    case Str(s) => Some(|s|)
    case List(items) => Some(|items|)
    case Object(fields) => Some(|fields|)
    case _ => None
  }

  /** `[r["signed_hash"] for r in rows]` as strings, None where that or decoding one raises. */
  function RowHashes(rows: Json): Option<seq<string>> {
    match rows
    case List(items) => ItemHashes(items)
    case Str(s) => if s == "" then Some([]) else None
    case Object(fields) => if fields == [] then Some([]) else None
    case _ => None
  }

  function ItemHashes(items: seq<Json>): (r: Option<seq<string>>)
    ensures r.Some? ==> |r.value| == |items|
    ensures r.Some? <==> forall i | 0 <= i < |items| ::
              && items[i].Object? && Get(items[i].fields, "signed_hash").Some?
              && Get(items[i].fields, "signed_hash").value.Str?
    ensures r.Some? ==> forall i | 0 <= i < |items| :: Get(items[i].fields, "signed_hash").value.s == r.value[i]
  {
    if items == [] then Some([])
    else
      var rest := ItemHashes(items[1..]);
      if !items[0].Object? then None
      else match Get(items[0].fields, "signed_hash")
        case Some(Str(h)) => if rest.Some? then Some([h] + rest.value) else None
        case _ => None
  }

  /** The PEM to verify with: the caller's, or the embedded one when that is trusted. */
  function ChoosePem(doc: seq<Field>, publicKeyPem: Option<string>, trustEmbedded: bool): Result<Json> {
    if publicKeyPem.Some? && publicKeyPem.value != "" then Chosen(Str(publicKeyPem.value))
    else if !trustEmbedded then Rejected(KeyNotSupplied)
    else if !Truthy(Get(doc, "public_key_pem")) then Rejected(EmbeddedKeyMissing)
    else Chosen(Get(doc, "public_key_pem").value)
  }

  datatype Result<T> = Rejected(reason: Reason) | Chosen(value: T)

  /** `verify_signed_export` */
  function VerifySignedExport(c: Crypto, doc: seq<Field>, publicKeyPem: Option<string>, trustEmbedded: bool): Verdict {
    match ChoosePem(doc, publicKeyPem, trustEmbedded)
    case Rejected(reason) => Invalid(reason)
    case Chosen(pem) =>
      match if pem.Str? then c.publicFromPem(pem.s) else BadPem
      case BadPem => Invalid(PublicKeyNotPem)
      case OtherKind => Invalid(PublicKeyNotEd25519)
      case Ed25519(key) => VerifyWithKey(c, doc, key)
  }

  function VerifyWithKey(c: Crypto, doc: seq<Field>, key: Key): Verdict {
    VerifyParts(c, key, Get(doc, "manifest"), Get(doc, "chain_digest"), Get(doc, "signature_b64"), Get(doc, "rows"))
  }

  function VerifyParts(c: Crypto, key: Key, manifest: Option<Json>, digest: Option<Json>, signature: Option<Json>,
                       included: Option<Json>): Verdict {
    if !(Truthy(manifest) && Truthy(digest) && Truthy(signature)) then Invalid(FieldsMissing)
    else if !manifest.value.Object? then Raised
    else if !EqualsInt(Get(manifest.value.fields, "schema_version"), SCHEMA_VERSION) then Invalid(UnsupportedSchema)
    else match if signature.value.Str? then c.b64Decode(signature.value.s) else None
      case None => Invalid(SignatureNotBase64)
      case Some(sig) =>
        if !(digest.value.Str? && IsAscii(digest.value.s)) then Raised
        else if !c.verify(key, sig, SigningPayload(manifest.value, digest.value.s)) then Invalid(SignatureMismatch)
        else match included
          case None => Valid(manifest.value)
          case Some(rows) => VerifyRows(c, manifest.value, digest.value.s, rows)
  }

  function VerifyRows(c: Crypto, manifest: Json, digest: string, rows: Json): Verdict
    requires manifest.Object?
  {
    match Length(rows)
    case None => Raised
    case Some(n) =>
      if !EqualsInt(Get(manifest.fields, "row_count"), n) then Invalid(RowCountMismatch)
      else match RowHashes(rows)
        case None => Raised
        case Some(hashes) => if ChainDigest(c.sha, hashes) == digest then Valid(manifest) else Invalid(DigestMismatch)
  }

  // ── The signed bytes are unambiguous ───────────────────────────────

  /** One payload, one manifest and one digest, for any ASCII digest text. */
  lemma PayloadInjective(m: Json, d: string, m': Json, d': string)
    requires m.Object? && m'.Object? && WellFormed(m) && WellFormed(m')
    requires IsAscii(d) && IsAscii(d')
    requires SigningPayload(m, d) == SigningPayload(m', d')
    ensures Same(m, m') && d == d'
  {
    hide Utf8;
    assert IsAscii(DOMAIN_SEP);
    PayloadText(m, DOMAIN_SEP, d);
    PayloadText(m', DOMAIN_SEP, d');
    SeparatedInjective(m, DOMAIN_SEP, d, m', d');
  }

  lemma PayloadText(m: Json, sep: string, d: string)
    requires IsAscii(sep) && IsAscii(d)
    ensures IsAscii(Dumps(m) + (sep + d))
    ensures Utf8(Dumps(m)) + Utf8(sep) + Utf8(d) == Utf8(Dumps(m) + (sep + d))
  {
    PrintAscii(Canon(m));
    Utf8Concat(Dumps(m), sep + d);
    Utf8Concat(sep, d);
  }

  lemma SeparatedInjective(m: Json, sep: string, d: string, m': Json, d': string)
    requires m.Object? && m'.Object? && WellFormed(m) && WellFormed(m')
    requires IsAscii(Dumps(m) + (sep + d)) && IsAscii(Dumps(m') + (sep + d'))
    requires Utf8(Dumps(m) + (sep + d)) == Utf8(Dumps(m') + (sep + d'))
    ensures Same(m, m') && d == d'
  {
    Utf8AsciiInjective(Dumps(m) + (sep + d), Dumps(m') + (sep + d'));
    ObjectsPrefixFree(m, m', sep + d, sep + d');
    assert (sep + d)[|sep|..] == d && (sep + d')[|sep|..] == d';
  }

  // ── An accepted export was signed ──────────────────────────────────

  // One successful call of `signed_export`.
  datatype Run = Run(req: Request, rows: seq<EvidenceRow>, now: Time)

  // Its arguments pass the checks, its key loads, and the query found rows.
  predicate Succeeded(c: Crypto, run: Run) {
    && run.req.tenantId != "" && run.req.start.at < run.req.end.at && run.rows != []
    && run.req.signingKeyPem != "" && c.privateFromPem(run.req.signingKeyPem).Ed25519?
  }

  /** A call returns an export exactly then; else it raises. */
  lemma SucceededIff(c: Crypto, run: Run)
    ensures SignedExport(c, run.req, run.rows, run.now).Exported? <==> Succeeded(c, run)
  {
    hide Manifest, ChainDigest, SigningPayload;
  }

  function RunKey(c: Crypto, run: Run): Key
    requires Succeeded(c, run)
  {
    c.privateFromPem(run.req.signingKeyPem).key
  }

  function RunManifest(c: Crypto, run: Run): Json
    requires Succeeded(c, run)
  {
    Manifest(c.sha, run.req, run.rows, c.publicToPem(c.publicKey(RunKey(c, run))))
  }

  function RunDigest(c: Crypto, run: Run): string {
    ChainDigest(c.sha, SignedHashes(run.rows))
  }

  function RunPayload(c: Crypto, run: Run): Bytes
    requires Succeeded(c, run)
  {
    SigningPayload(RunManifest(c, run), RunDigest(c, run))
  }

  // Exports made with the private half of one key.
  ghost predicate SignedUnder(c: Crypto, key: Key, runs: seq<Run>) {
    forall i | 0 <= i < |runs| :: Succeeded(c, runs[i]) && c.publicKey(RunKey(c, runs[i])) == key
  }

  // A signature that verifies on a message none of the exports signed.
  ghost predicate Forgery(c: Crypto, key: Key, runs: seq<Run>, sig: Bytes, m: Bytes)
    requires SignedUnder(c, key, runs)
  {
    c.verify(key, sig, m) && forall i | 0 <= i < |runs| :: RunPayload(c, runs[i]) != m
  }

  lemma ManifestKeys(sha: Sha, req: Request, rows: seq<EvidenceRow>, pem: string)
    requires rows != []
    ensures UniqueKeys(ManifestFields(sha, req, rows, pem))
  {
    hide Fingerprint, OptInt;
  }

  // No lists or objects inside.
  ghost predicate Leaves(fields: seq<Field>) {
    forall i | 0 <= i < |fields| :: !fields[i].value.List? && !fields[i].value.Object?
  }

  lemma ManifestLeaves(sha: Sha, req: Request, rows: seq<EvidenceRow>, pem: string)
    requires rows != []
    ensures Leaves(ManifestFields(sha, req, rows, pem))
  {
    hide Fingerprint;
  }

  lemma LeavesWellFormed(fields: seq<Field>)
    requires UniqueKeys(fields) && Leaves(fields)
    ensures WellFormed(Object(fields))
  {
  }

  lemma ManifestWellFormed(sha: Sha, req: Request, rows: seq<EvidenceRow>, pem: string)
    requires rows != []
    ensures Manifest(sha, req, rows, pem).Object? && WellFormed(Manifest(sha, req, rows, pem))
  {
    hide UniqueKeys, Leaves, ManifestFields, WellFormed;
    ManifestKeys(sha, req, rows, pem);
    ManifestLeaves(sha, req, rows, pem);
    LeavesWellFormed(ManifestFields(sha, req, rows, pem));
  }

  lemma RunManifestWellFormed(c: Crypto, run: Run)
    requires Succeeded(c, run)
    ensures RunManifest(c, run).Object? && WellFormed(RunManifest(c, run))
  {
    ManifestWellFormed(c.sha, run.req, run.rows, c.publicToPem(c.publicKey(RunKey(c, run))));
  }

  // The member holds this signature in base64.
  ghost predicate Presents(c: Crypto, member: Option<Json>, sig: Bytes) {
    member.Some? && member.value.Str? && c.b64Decode(member.value.s) == Some(sig)
  }

  // What acceptance says about the document.
  ghost predicate Accepted(c: Crypto, key: Key, m: Json, digest: string, sig: Bytes, rows: Option<Json>) {
    && m.Object? && IsAscii(digest)
    && c.verify(key, sig, SigningPayload(m, digest))
    && (rows.Some? ==> RowHashes(rows.value).Some? && ChainDigest(c.sha, RowHashes(rows.value).value) == digest)
  }

  lemma ValidMeansAccepted(c: Crypto, doc: seq<Field>, key: Key) returns (digest: string, sig: Bytes)
    requires VerifyWithKey(c, doc, key).Valid?
    ensures Get(doc, "manifest") == Some(VerifyWithKey(c, doc, key).manifest)
    ensures Get(doc, "chain_digest") == Some(Str(digest))
    ensures Presents(c, Get(doc, "signature_b64"), sig)
    ensures Accepted(c, key, VerifyWithKey(c, doc, key).manifest, digest, sig, Get(doc, "rows"))
  {
    digest, sig := PartsAccepted(c, key, Get(doc, "manifest"), Get(doc, "chain_digest"), Get(doc, "signature_b64"),
                                 Get(doc, "rows"));
  }

  lemma PartsAccepted(c: Crypto, key: Key, manifest: Option<Json>, digest: Option<Json>, signature: Option<Json>,
                      included: Option<Json>) returns (text: string, sig: Bytes)
    requires VerifyParts(c, key, manifest, digest, signature, included).Valid?
    ensures manifest == Some(VerifyParts(c, key, manifest, digest, signature, included).manifest)
    ensures digest == Some(Str(text))
    ensures Presents(c, signature, sig)
    ensures Accepted(c, key, manifest.value, text, sig, included)
  {
    hide EqualsInt, IsAscii, ChainDigest, SigningPayload, Get, RowHashes, Length;
    text := digest.value.s;
    sig := c.b64Decode(signature.value.s).value;
  }

  lemma MemberWellFormed(fields: seq<Field>, key: string)
    requires WellFormed(Object(fields)) && Get(fields, key).Some?
    ensures WellFormed(Get(fields, key).value)
  {
    GetIsMember(fields, key);
    var i :| 0 <= i < |fields| && fields[i] == Field(key, Get(fields, key).value);
  }

  // A payload that verifies is that of one of the runs, or a forgery.
  lemma SignedPayloadIsRuns(c: Crypto, key: Key, runs: seq<Run>, m: Json, digest: string, sig: Bytes) returns (i: nat)
    requires m.Object? && WellFormed(m) && IsAscii(digest)
    requires SignedUnder(c, key, runs)
    requires c.verify(key, sig, SigningPayload(m, digest))
    ensures || (i < |runs| && Same(m, RunManifest(c, runs[i])) && digest == RunDigest(c, runs[i]))
            || Forgery(c, key, runs, sig, SigningPayload(m, digest))
  {
    hide Manifest, ChainDigest, SignedExport, Utf8, Dumps;
    i := 0;
    if j :| 0 <= j < |runs| && RunPayload(c, runs[j]) == SigningPayload(m, digest) {
      i := j;
      var run := runs[i];
      RunManifestWellFormed(c, run);
      PayloadInjective(m, digest, RunManifest(c, run), RunDigest(c, run));
    }
  }

  // The message the document presents for verification.
  function Presented(doc: seq<Field>): Bytes
    requires Get(doc, "manifest").Some? && Get(doc, "chain_digest").Some? && Get(doc, "chain_digest").value.Str?
  {
    SigningPayload(Get(doc, "manifest").value, Get(doc, "chain_digest").value.s)
  }

  // Under one key: manifest and digest are those of an export signed with it, or forged.
  lemma ManifestWasSigned(c: Crypto, key: Key, runs: seq<Run>, doc: seq<Field>) returns (i: nat, sig: Bytes)
    requires WellFormed(Object(doc))
    requires SignedUnder(c, key, runs)
    requires VerifyWithKey(c, doc, key).Valid?
    ensures Get(doc, "manifest") == Some(VerifyWithKey(c, doc, key).manifest)
    ensures Get(doc, "chain_digest").Some? && Get(doc, "chain_digest").value.Str?
    ensures Presents(c, Get(doc, "signature_b64"), sig)
    ensures || (i < |runs| && Same(VerifyWithKey(c, doc, key).manifest, RunManifest(c, runs[i]))
                && Get(doc, "chain_digest").value.s == RunDigest(c, runs[i]))
            || Forgery(c, key, runs, sig, Presented(doc))
  {
    hide VerifyWithKey, SigningPayload, Manifest, ChainDigest, SignedExport, Get;
    var digest;
    digest, sig := ValidMeansAccepted(c, doc, key);
    MemberWellFormed(doc, "manifest");
    i := SignedPayloadIsRuns(c, key, runs, VerifyWithKey(c, doc, key).manifest, digest, sig);
  }

  // And with rows.
  lemma RowsWereSigned(c: Crypto, key: Key, runs: seq<Run>, doc: seq<Field>)
    returns (i: nat, x: Bytes, y: Bytes, sig: Bytes)
    requires WellFormed(Object(doc))
    requires SignedUnder(c, key, runs)
    requires VerifyWithKey(c, doc, key).Valid? && Get(doc, "rows").Some?
    ensures Get(doc, "chain_digest").Some? && Get(doc, "chain_digest").value.Str?
    ensures Presents(c, Get(doc, "signature_b64"), sig)
    ensures Get(doc, "manifest") == Some(VerifyWithKey(c, doc, key).manifest)
    ensures RowHashes(Get(doc, "rows").value).Some?
    ensures || (&& i < |runs|
                && Same(VerifyWithKey(c, doc, key).manifest, RunManifest(c, runs[i]))
                && (|| Decoded(RowHashes(Get(doc, "rows").value).value) == Decoded(SignedHashes(runs[i].rows))
                    || Collision(c.sha, x, y)))
            || Forgery(c, key, runs, sig, Presented(doc))
  {
    hide VerifyWithKey, SigningPayload, Manifest, ChainDigest, SignedExport, Get, RowHashes, Forgery, Decoded;
    i, sig := ManifestWasSigned(c, key, runs, doc);
    var digest, _ := ValidMeansAccepted(c, doc, key);
    x, y := [], [];
    if i < |runs| && digest == RunDigest(c, runs[i]) {
      x, y := DigestBindsRows(c.sha, RowHashes(Get(doc, "rows").value).value, SignedHashes(runs[i].rows));
    }
  }

  // The edit leaves manifest, digest and signature as they were.
  ghost predicate SameSigned(doc: seq<Field>, edited: seq<Field>) {
    && Get(edited, "manifest") == Get(doc, "manifest") && Get(edited, "chain_digest") == Get(doc, "chain_digest")
    && Get(edited, "signature_b64") == Get(doc, "signature_b64")
  }

  // The rows decode to this list of byte strings.
  ghost predicate DecodesTo(rows: Option<Json>, list: seq<Bytes>) {
    rows.Some? && RowHashes(rows.value).Some? && Decoded(RowHashes(rows.value).value) == list
  }

  lemma KeyCoversHashes(c: Crypto, key: Key, doc: seq<Field>, edited: seq<Field>) returns (x: Bytes, y: Bytes)
    requires VerifyWithKey(c, doc, key).Valid? && Get(doc, "rows").Some?
    requires SameSigned(doc, edited)
    ensures RowHashes(Get(doc, "rows").value).Some?
    ensures var list := Decoded(RowHashes(Get(doc, "rows").value).value);
            && (Get(edited, "rows").None? || DecodesTo(Get(edited, "rows"), list) ==>
                  VerifyWithKey(c, edited, key) == VerifyWithKey(c, doc, key))
            && (VerifyWithKey(c, edited, key).Valid? && Get(edited, "rows").Some? ==>
                  DecodesTo(Get(edited, "rows"), list) || Collision(c.sha, x, y))
  {
    hide SigningPayload, Get, RowHashes, Length, Decoded, ChainDigest, Collision;
    var m, digest := Get(doc, "manifest"), Get(doc, "chain_digest");
    x, y := [], [];
    var rows := Get(doc, "rows").value;
    HashedLength(rows);
    var edit := Get(edited, "rows");
    if edit.Some? {
      HashedLength(edit.value);
      if RowHashes(edit.value).Some? {
        var p, q := RowHashes(rows).value, RowHashes(edit.value).value;
        if Decoded(p) == Decoded(q) {
          SameListSameDigest(c.sha, p, q);
        } else if ChainDigest(c.sha, p) == ChainDigest(c.sha, q) {
          x, y := DigestBindsRows(c.sha, p, q);
        }
      }
    }
  }

  lemma HashedLength(rows: Json)
    ensures RowHashes(rows).Some? ==> Length(rows) == Some(|RowHashes(rows).value|)
  {
  }

  lemma SameListSameDigest(sha: Sha, p: seq<string>, q: seq<string>)
    requires Decoded(p) == Decoded(q)
    ensures |p| == |q| && ChainDigest(sha, p) == ChainDigest(sha, q)
  {
    assert |Decoded(p)| == |Decoded(q)|;
  }

  // ── Which key decides ──────────────────────────────────────────────

  // The key of the PEM the caller supplied; only when none was supplied and the caller opted in, that
  // of the PEM embedded in the document.
  predicate KeyUsed(c: Crypto, doc: seq<Field>, supplied: Option<string>, optIn: bool, key: Key) {
    if supplied.Some? && supplied.value != "" then c.publicFromPem(supplied.value) == Ed25519(key)
    else
      var embedded := Get(doc, "public_key_pem");
      && optIn && embedded.Some? && embedded.value.Str? && embedded.value.s != ""
      && c.publicFromPem(embedded.value.s) == Ed25519(key)
  }

  /** An export is accepted exactly when there is such a key and the document is accepted under it; so
      never without a supplied PEM or the opt-in, nor under an embedded key when one is supplied. */
  lemma AcceptedIffUnderKey(c: Crypto, doc: seq<Field>, supplied: Option<string>, optIn: bool)
    ensures VerifySignedExport(c, doc, supplied, optIn).Valid? <==>
            exists key :: KeyUsed(c, doc, supplied, optIn, key) && VerifyWithKey(c, doc, key).Valid?
    ensures forall key | KeyUsed(c, doc, supplied, optIn, key) ::
              VerifySignedExport(c, doc, supplied, optIn) == VerifyWithKey(c, doc, key)
    ensures !optIn && (supplied == None || supplied == Some("")) ==>
              VerifySignedExport(c, doc, supplied, optIn) == Invalid(KeyNotSupplied)
  {
    hide VerifyWithKey, Get;
    var v := VerifySignedExport(c, doc, supplied, optIn);
    if v.Valid? {
      var key := if supplied.Some? && supplied.value != "" then c.publicFromPem(supplied.value).key
                 else c.publicFromPem(Get(doc, "public_key_pem").value.s).key;
      assert KeyUsed(c, doc, supplied, optIn, key);
    }
  }

  /** What the document embeds, or the opt-in, changes no verdict under a supplied PEM. */
  lemma EmbeddedPemIgnored(c: Crypto, doc: seq<Field>, edited: seq<Field>, pem: string, optIn: bool, optIn': bool)
    requires pem != "" && forall k | k != "public_key_pem" :: Get(edited, k) == Get(doc, k)
    ensures VerifySignedExport(c, edited, Some(pem), optIn') == VerifySignedExport(c, doc, Some(pem), optIn)
  {
    hide VerifyParts;
  }

  /** Whatever export the verifier accepts: the key it used is the supplied one, or after an opt-in the
      embedded one, and manifest and digest are those of one of the exports signed with that key, or
      its own signature is a forgery on a message nobody signed. */
  lemma AcceptedManifestWasSigned(c: Crypto, doc: seq<Field>, supplied: Option<string>, optIn: bool, runs: seq<Run>)
    returns (key: Key, i: nat, sig: Bytes)
    requires WellFormed(Object(doc)) && VerifySignedExport(c, doc, supplied, optIn).Valid?
    ensures KeyUsed(c, doc, supplied, optIn, key)
    ensures Get(doc, "manifest") == Some(VerifySignedExport(c, doc, supplied, optIn).manifest)
    ensures Get(doc, "chain_digest").Some? && Get(doc, "chain_digest").value.Str?
    ensures Presents(c, Get(doc, "signature_b64"), sig)
    ensures SignedUnder(c, key, runs) ==>
              || (&& i < |runs| && Same(VerifySignedExport(c, doc, supplied, optIn).manifest, RunManifest(c, runs[i]))
                  && Get(doc, "chain_digest").value.s == RunDigest(c, runs[i]))
              || Forgery(c, key, runs, sig, Presented(doc))
  {
    hide VerifySignedExport, VerifyWithKey, KeyUsed, SignedUnder, Forgery, Presented, RunManifest, WellFormed, Same;
    AcceptedIffUnderKey(c, doc, supplied, optIn);
    key :| KeyUsed(c, doc, supplied, optIn, key) && VerifyWithKey(c, doc, key).Valid?;
    var digest;
    digest, sig := ValidMeansAccepted(c, doc, key);
    i := 0;
    if SignedUnder(c, key, runs) {
      i, sig := ManifestWasSigned(c, key, runs, doc);
    }
  }

  /** End to end: an accepted export with rows carries the manifest and, byte for byte once decoded,
      the row hashes of an export signed with the key that was used; otherwise here is a SHA-256
      collision, or a signature that verifies on a message nobody signed. */
  lemma AcceptedWasSigned(c: Crypto, doc: seq<Field>, supplied: Option<string>, optIn: bool, runs: seq<Run>)
    returns (key: Key, i: nat, x: Bytes, y: Bytes, sig: Bytes)
    requires WellFormed(Object(doc)) && VerifySignedExport(c, doc, supplied, optIn).Valid? && Get(doc, "rows").Some?
    ensures KeyUsed(c, doc, supplied, optIn, key)
    ensures Get(doc, "manifest") == Some(VerifySignedExport(c, doc, supplied, optIn).manifest)
    ensures Get(doc, "chain_digest").Some? && Get(doc, "chain_digest").value.Str?
    ensures Presents(c, Get(doc, "signature_b64"), sig)
    ensures RowHashes(Get(doc, "rows").value).Some?
    ensures SignedUnder(c, key, runs) ==>
              || (&& i < |runs|
                  && Same(VerifySignedExport(c, doc, supplied, optIn).manifest, RunManifest(c, runs[i]))
                  && (|| Decoded(RowHashes(Get(doc, "rows").value).value) == Decoded(SignedHashes(runs[i].rows))
                      || Collision(c.sha, x, y)))
              || Forgery(c, key, runs, sig, Presented(doc))
  {
    hide VerifySignedExport, VerifyWithKey, KeyUsed, SignedUnder, Forgery, Presented, RunManifest, WellFormed, Same,
      RowHashes, Decoded, Collision;
    AcceptedIffUnderKey(c, doc, supplied, optIn);
    key :| KeyUsed(c, doc, supplied, optIn, key) && VerifyWithKey(c, doc, key).Valid?;
    var digest;
    digest, sig := ValidMeansAccepted(c, doc, key);
    i, x, y := 0, [], [];
    if SignedUnder(c, key, runs) {
      i, x, y, sig := RowsWereSigned(c, key, runs, doc);
    }
  }

  /** What the verifier proves about included rows, under a supplied PEM. An edit of an accepted export
      that leaves the decoded signed hashes alone, whatever it does to the rows otherwise, to their
      spelling or to the embedded key, is accepted, and so is dropping the rows; an accepted edit that
      keeps rows has the same decoded signed hashes, or here is a SHA-256 collision. */
  lemma OnlyHashesCovered(c: Crypto, doc: seq<Field>, edited: seq<Field>, pem: string, optIn: bool)
    returns (x: Bytes, y: Bytes)
    requires pem != "" && VerifySignedExport(c, doc, Some(pem), optIn).Valid? && Get(doc, "rows").Some?
    requires SameSigned(doc, edited)
    ensures RowHashes(Get(doc, "rows").value).Some?
    ensures var list := Decoded(RowHashes(Get(doc, "rows").value).value);
            var v, v' := VerifySignedExport(c, doc, Some(pem), optIn), VerifySignedExport(c, edited, Some(pem), optIn);
            && (Get(edited, "rows").None? || DecodesTo(Get(edited, "rows"), list) ==> v' == v)
            && (v'.Valid? && Get(edited, "rows").Some? ==>
                  DecodesTo(Get(edited, "rows"), list) || Collision(c.sha, x, y))
  {
    AcceptedIffUnderKey(c, doc, Some(pem), optIn);
    AcceptedIffUnderKey(c, edited, Some(pem), optIn);
    hide VerifySignedExport, VerifyWithKey, Get, RowHashes, Decoded, DecodesTo, Collision, SameSigned;
    var key := c.publicFromPem(pem).key;
    assert KeyUsed(c, doc, Some(pem), optIn, key) && KeyUsed(c, edited, Some(pem), optIn, key);
    x, y := KeyCoversHashes(c, key, doc, edited);
  }

  // ── What acceptance checks ─────────────────────────────────────────

  // The member is the integer; Python's True counts as 1 and False as 0.
  predicate IsInteger(v: Option<Json>, n: nat) {
    v == Some(Int(n)) || (n == 0 && v == Some(Bool(false))) || (n == 1 && v == Some(Bool(true)))
  }

  ghost predicate RowsAdd(c: Crypto, m: seq<Field>, digest: string, rows: Json) {
    && RowHashes(rows).Some?
    && IsInteger(Get(m, "row_count"), |RowHashes(rows).value|)
    && ChainDigest(c.sha, RowHashes(rows).value) == digest
  }

  /** A document is accepted under a key exactly when it has a manifest of schema 1, a digest in ASCII
      and a signature in base64 over the two, and its rows, if it has any, are as many as the manifest
      says and fold to the digest. */
  lemma ValidIff(c: Crypto, doc: seq<Field>, key: Key)
    ensures VerifyWithKey(c, doc, key).Valid? <==>
            exists m: seq<Field>, digest: string, text: string, sig: Bytes ::
              && Get(doc, "manifest") == Some(Object(m)) && m != [] && IsInteger(Get(m, "schema_version"), 1)
              && Get(doc, "chain_digest") == Some(Str(digest)) && digest != "" && IsAscii(digest)
              && Get(doc, "signature_b64") == Some(Str(text)) && text != "" && c.b64Decode(text) == Some(sig)
              && c.verify(key, sig, SigningPayload(Object(m), digest))
              && (Get(doc, "rows").Some? ==> RowsAdd(c, m, digest, Get(doc, "rows").value))
  {
    hide Get, IsAscii, SigningPayload, ChainDigest, RowHashes, Length;
    if Get(doc, "rows").Some? {
      HashedLength(Get(doc, "rows").value);
    }
    if VerifyWithKey(c, doc, key).Valid? {
      var text := Get(doc, "signature_b64").value.s;
      assert c.b64Decode(text) == Some(c.b64Decode(text).value);
    }
  }

  // ── A genuine export is accepted ───────────────────────────────────

  function RunDocument(c: Crypto, run: Run): seq<Field>
    requires Succeeded(c, run)
  {
    SignedExport(c, run.req, run.rows, run.now).fields
  }

  function RunPem(c: Crypto, run: Run): string
    requires Succeeded(c, run)
  {
    c.publicToPem(c.publicKey(RunKey(c, run)))
  }

  function RunIncluded(run: Run): Option<Json> {
    if run.req.includePayloads then Some(List(RowsJson(run.rows))) else None
  }

  lemma DocumentMembers(manifest: Json, digest: string, signature: string, signedAt: string, pem: string,
                        included: Option<Json>)
    ensures var fields := Document(manifest, digest, signature, signedAt, pem, included);
            && UniqueKeys(fields)
            && Get(fields, "manifest") == Some(manifest) && Get(fields, "chain_digest") == Some(Str(digest))
            && Get(fields, "signature_b64") == Some(Str(signature)) && Get(fields, "public_key_pem") == Some(Str(pem))
            && Get(fields, "signed_at") == Some(Str(signedAt)) && Get(fields, "rows") == included
  {
    hide Get;
    var fields := Document(manifest, digest, signature, signedAt, pem, included);
    GetIsUnique(fields, 0);
    GetIsUnique(fields, 1);
    GetIsUnique(fields, 2);
    GetIsUnique(fields, 3);
    GetIsUnique(fields, 4);
    if included.Some? {
      GetIsUnique(fields, 5);
    } else {
      GetIsMember(fields, "rows");
    }
  }

  /** What an export document holds, member by member: rows exactly when they were asked for. */
  lemma DocumentParts(c: Crypto, run: Run)
    requires Succeeded(c, run)
    ensures Get(RunDocument(c, run), "signed_at") == Some(Str(run.now.iso))
    ensures Get(RunDocument(c, run), "manifest") == Some(RunManifest(c, run))
    ensures Get(RunDocument(c, run), "chain_digest") == Some(Str(RunDigest(c, run)))
    ensures Get(RunDocument(c, run), "signature_b64") ==
            Some(Str(c.b64Encode(c.sign(RunKey(c, run), RunPayload(c, run)))))
    ensures Get(RunDocument(c, run), "public_key_pem") == Some(Str(RunPem(c, run)))
    ensures Get(RunDocument(c, run), "rows") == RunIncluded(run)
  {
    hide Manifest, RowsJson, ChainDigest, SigningPayload, Get, Document;
    DocumentMembers(RunManifest(c, run), RunDigest(c, run), c.b64Encode(c.sign(RunKey(c, run), RunPayload(c, run))),
                    run.now.iso, RunPem(c, run), RunIncluded(run));
  }

  lemma DocumentWellFormed(c: Crypto, run: Run)
    requires Succeeded(c, run)
    requires forall r | r in run.rows :: WellFormed(r.payload)
    ensures WellFormed(Object(RunDocument(c, run)))
  {
    hide Manifest, RowsJson, ChainDigest, SigningPayload, Get;
    RunManifestWellFormed(c, run);
    RowsWellFormed(run.rows);
    DocumentMembers(RunManifest(c, run), RunDigest(c, run), c.b64Encode(c.sign(RunKey(c, run), RunPayload(c, run))),
                    run.now.iso, RunPem(c, run), RunIncluded(run));
  }

  lemma RowsWellFormed(rows: seq<EvidenceRow>)
    requires forall r | r in rows :: WellFormed(r.payload)
    ensures WellFormed(List(RowsJson(rows)))
  {
    forall i | 0 <= i < |rows|
      ensures WellFormed(RowsJson(rows)[i])
    {
      assert rows[i] in rows;
    }
  }

  lemma ManifestParts(sha: Sha, req: Request, rows: seq<EvidenceRow>, pem: string)
    requires rows != []
    ensures Get(Manifest(sha, req, rows, pem).fields, "schema_version") == Some(Int(SCHEMA_VERSION))
    ensures Get(Manifest(sha, req, rows, pem).fields, "row_count") == Some(Int(|rows|))
  {
    hide Get, WellFormed, UniqueKeys, Fingerprint;
    ManifestKeys(sha, req, rows, pem);
    var fields := Manifest(sha, req, rows, pem).fields;
    GetIsUnique(fields, 0);
    GetIsUnique(fields, 5);
  }

  // A leaf member of an object survives in every copy with other field orders.
  lemma LeafKept(fields: seq<Field>, fields': seq<Field>, i: nat)
    requires WellFormed(Object(fields)) && WellFormed(Object(fields')) && Same(Object(fields), Object(fields'))
    requires i < |fields| && !fields[i].value.List? && !fields[i].value.Object?
    ensures Get(fields', fields[i].key) == Some(fields[i].value)
  {
    GetIsUnique(fields, i);
    hide Get, WellFormed, UniqueKeys;
    SameMember(fields, fields', fields[i].key);
  }

  /** What a manifest says of its run, key by key, in whatever order its fields come. */
  predicate Says(m: seq<Field>, sha: Sha, req: Request, rows: seq<EvidenceRow>, pem: string)
    requires rows != []
  {
    var first, last := rows[0], rows[|rows| - 1];
    && Get(m, "schema_version") == Some(Int(1))
    && Get(m, "tenant_id") == Some(Str(req.tenantId))
    && Get(m, "range_start") == Some(Str(req.start.iso)) && Get(m, "range_end") == Some(Str(req.end.iso))
    && Get(m, "invocation_id") == Some(OptInt(req.invocationId))
    && Get(m, "row_count") == Some(Int(|rows|))
    && Get(m, "first_row_id") == Some(Int(first.id)) && Get(m, "last_row_id") == Some(Int(last.id))
    && Get(m, "first_recorded_at") == Some(Str(first.occurredAt.iso))
    && Get(m, "last_recorded_at") == Some(Str(last.occurredAt.iso))
    && Get(m, "signing_key_fingerprint") == Some(Str(Hex(sha(Utf8(pem)))[..16]))
    && Get(m, "kya_export_lib_version") == Some(Str("1"))
  }

  /** A manifest that holds the same data as a run's names the run's tenant, range, invocation, key,
      number of rows, and first and last row. */
  lemma ManifestSays(c: Crypto, run: Run, m: Json)
    requires Succeeded(c, run) && WellFormed(m) && Same(RunManifest(c, run), m)
    ensures m.Object? && Says(m.fields, c.sha, run.req, run.rows, RunPem(c, run))
  {
    RunManifestWellFormed(c, run);
    var fields := ManifestFields(c.sha, run.req, run.rows, RunPem(c, run));
    ManifestLeaves(c.sha, run.req, run.rows, RunPem(c, run));
    forall i | 0 <= i < |fields|
      ensures Get(m.fields, fields[i].key) == Some(fields[i].value)
    {
      hide Get, WellFormed, Same, ManifestFields;
      LeafKept(fields, m.fields, i);
    }
    hide Get, WellFormed, Same, Hex, Utf8, OptInt;
    FieldsSay(m.fields, c.sha, run.req, run.rows, RunPem(c, run));
  }

  lemma FieldsSay(m: seq<Field>, sha: Sha, req: Request, rows: seq<EvidenceRow>, pem: string)
    requires rows != []
    requires var fields := ManifestFields(sha, req, rows, pem);
             forall i | 0 <= i < |fields| :: Get(m, fields[i].key) == Some(fields[i].value)
    ensures Says(m, sha, req, rows, pem)
  {
    hide Get, Hex, Utf8, OptInt;
    var f := ManifestFields(sha, req, rows, pem);
    assert f[0].key == "schema_version" && f[1].key == "tenant_id" && f[2].key == "range_start"
      && f[3].key == "range_end";
    assert f[4].key == "invocation_id" && f[5].key == "row_count" && f[6].key == "first_row_id"
      && f[7].key == "last_row_id";
    assert f[8].key == "first_recorded_at" && f[9].key == "last_recorded_at" && f[10].key == "signing_key_fingerprint";
    assert f[11].key == "kya_export_lib_version";
  }

  /** What an exported row says of the evidence row, key by key. */
  lemma RowSays(r: EvidenceRow)
    ensures var row := RowJson(r).fields;
            && Get(row, "id") == Some(Int(r.id)) && Get(row, "invocation_id") == Some(OptInt(r.invocationId))
            && Get(row, "evidence_kind") == Some(Str(r.evidenceKind)) && Get(row, "role") == Some(OptStr(r.role))
            && Get(row, "payload") == Some(r.payload) && Get(row, "signed_hash") == Some(Str(r.signedHash))
            && Get(row, "recorded_at") == Some(Str(r.occurredAt.iso))
  {
    hide Get;
    var row := RowJson(r).fields;
    GetIsUnique(row, 0);
    GetIsUnique(row, 1);
    GetIsUnique(row, 2);
    GetIsUnique(row, 3);
    GetIsUnique(row, 4);
    GetIsUnique(row, 5);
    GetIsUnique(row, 6);
  }

  lemma SameMember(fields: seq<Field>, fields': seq<Field>, key: string)
    requires WellFormed(Object(fields)) && WellFormed(Object(fields')) && Same(Object(fields), Object(fields'))
    ensures Get(fields, key).None? ==> Get(fields', key).None?
    ensures Get(fields, key).Some? ==> Get(fields', key).Some? && Same(Get(fields, key).value, Get(fields', key).value)
    ensures Get(fields', key).Some? ==> WellFormed(Get(fields', key).value)
  {
    GetSame(fields, fields', key);
  }

  // Rows that hold the same data carry the same signed hashes.
  lemma SameRowHashes(rows: seq<EvidenceRow>, items: seq<Json>)
    requires WellFormed(List(RowsJson(rows))) && WellFormed(List(items))
    requires Same(List(RowsJson(rows)), List(items))
    ensures RowHashes(List(items)) == Some(SignedHashes(rows))
  {
    forall i | 0 <= i < |items|
      ensures items[i].Object? && Get(items[i].fields, "signed_hash") == Some(Str(rows[i].signedHash))
    {
      assert Same(RowsJson(rows)[i], items[i]) && WellFormed(RowsJson(rows)[i]);
      SameRowHash(rows[i], items[i]);
    }
    assert ItemHashes(items).value == SignedHashes(rows);
  }

  lemma SameRowHash(r: EvidenceRow, item: Json)
    requires WellFormed(RowJson(r)) && WellFormed(item) && Same(RowJson(r), item)
    ensures item.Object? && Get(item.fields, "signed_hash") == Some(Str(r.signedHash))
  {
    hide Get, SameField;
    var fields := RowJson(r).fields;
    GetIsUnique(fields, 5);
    SameMember(fields, item.fields, "signed_hash");
  }

  /** Every successful export, whatever its field order and with or without rows, is accepted
      under the matching public key. */
  lemma GenuineAccepted(c: Crypto, run: Run, doc: seq<Field>)
    requires Lawful(c) && Succeeded(c, run)
    requires forall r | r in run.rows :: WellFormed(r.payload)
    requires WellFormed(Object(doc)) && Same(Object(RunDocument(c, run)), Object(doc))
    ensures forall optIn :: VerifySignedExport(c, doc, Some(RunPem(c, run)), optIn).Valid?
    ensures VerifySignedExport(c, doc, None, true).Valid?
    ensures Same(RunManifest(c, run), VerifySignedExport(c, doc, Some(RunPem(c, run)), false).manifest)
  {
    hide RunDocument, RunManifest, SignedExport, VerifySignedExport, VerifyParts, WellFormed, Same, Get, RowsJson,
      RunDigest, RunPayload, Lawful;
    GenuineMembers(c, run, doc);
    RunKeyIsRead(c, run, doc);
    GenuineParts(c, run, Get(doc, "manifest").value, Get(doc, "rows"));
  }

  // A copy of the document with other field orders.
  lemma GenuineMembers(c: Crypto, run: Run, doc: seq<Field>)
    requires Succeeded(c, run) && forall r | r in run.rows :: WellFormed(r.payload)
    requires WellFormed(Object(doc)) && Same(Object(RunDocument(c, run)), Object(doc))
    ensures Get(doc, "chain_digest") == Some(Str(RunDigest(c, run)))
    ensures Get(doc, "signature_b64") == Some(Str(c.b64Encode(c.sign(RunKey(c, run), RunPayload(c, run)))))
    ensures Get(doc, "public_key_pem") == Some(Str(RunPem(c, run)))
    ensures var m := Get(doc, "manifest"); m.Some? && WellFormed(m.value) && Same(RunManifest(c, run), m.value)
    ensures var included := Get(doc, "rows");
            included.Some? ==> WellFormed(included.value) && Same(List(RowsJson(run.rows)), included.value)
  {
    hide RunDocument, RunManifest, SigningPayload, Get, WellFormed, RowsJson, RunDigest, RunPayload, RunPem,
      SignedExport;
    var original := RunDocument(c, run);
    DocumentWellFormed(c, run);
    DocumentParts(c, run);
    SameMember(original, doc, "manifest");
    SameMember(original, doc, "chain_digest");
    SameMember(original, doc, "signature_b64");
    SameMember(original, doc, "public_key_pem");
    SameMember(original, doc, "rows");
  }

  // Supplied or embedded, the PEM gives the public half of the run's key.
  lemma RunKeyIsRead(c: Crypto, run: Run, doc: seq<Field>)
    requires Lawful(c) && Succeeded(c, run)
    requires Get(doc, "public_key_pem") == Some(Str(RunPem(c, run)))
    ensures var v := VerifyWithKey(c, doc, c.publicKey(RunKey(c, run)));
            && (forall optIn :: VerifySignedExport(c, doc, Some(RunPem(c, run)), optIn) == v)
            && VerifySignedExport(c, doc, None, true) == v
  {
    hide VerifyWithKey, Get, SignedExport;
  }

  lemma GenuineParts(c: Crypto, run: Run, m: Json, included: Option<Json>)
    requires Lawful(c) && Succeeded(c, run)
    requires forall r | r in run.rows :: WellFormed(r.payload)
    requires WellFormed(m) && Same(RunManifest(c, run), m)
    requires included.Some? ==> WellFormed(included.value) && Same(List(RowsJson(run.rows)), included.value)
    ensures VerifyParts(c, c.publicKey(RunKey(c, run)), Some(m), Some(Str(RunDigest(c, run))),
                        Some(Str(c.b64Encode(c.sign(RunKey(c, run), RunPayload(c, run))))), included) == Valid(m)
  {
    hide Manifest, RunManifest, ChainDigest, SignedExport, SigningPayload, VerifyParts, VerifyRows, RowsJson, Get,
      WellFormed;
    SameManifestCounts(c, run, m);
    RunManifestWellFormed(c, run);
    SamePayload(RunManifest(c, run), m, RunDigest(c, run));
    PartsPass(c, c.publicKey(RunKey(c, run)), m, RunDigest(c, run), c.sign(RunKey(c, run), RunPayload(c, run)),
              included);
    if included.Some? {
      GenuineRows(c, run, m, included.value);
    }
  }

  // With a good signature only the rows can still fail.
  lemma PartsPass(c: Crypto, key: Key, m: Json, digest: string, sig: Bytes, included: Option<Json>)
    requires Lawful(c) && sig != [] && c.verify(key, sig, SigningPayload(m, digest))
    requires m.Object? && m.fields != [] && Get(m.fields, "schema_version") == Some(Int(SCHEMA_VERSION))
    requires digest != "" && IsAscii(digest)
    ensures VerifyParts(c, key, Some(m), Some(Str(digest)), Some(Str(c.b64Encode(sig))), included) ==
            if included.Some? then VerifyRows(c, m, digest, included.value) else Valid(m)
  {
    hide SigningPayload, VerifyRows, Get, IsAscii;
  }

  lemma SameManifestCounts(c: Crypto, run: Run, m: Json)
    requires Succeeded(c, run)
    requires WellFormed(m) && Same(RunManifest(c, run), m)
    ensures m.Object? && m.fields != []
    ensures Get(m.fields, "schema_version") == Some(Int(SCHEMA_VERSION))
    ensures Get(m.fields, "row_count") == Some(Int(|run.rows|))
  {
    hide Manifest, Get, WellFormed;
    RunManifestWellFormed(c, run);
    var original := RunManifest(c, run);
    ManifestParts(c.sha, run.req, run.rows, RunPem(c, run));
    SameMember(original.fields, m.fields, "schema_version");
    SameMember(original.fields, m.fields, "row_count");
    GetIsMember(m.fields, "row_count");
  }

  lemma GenuineRows(c: Crypto, run: Run, m: Json, rows: Json)
    requires Succeeded(c, run)
    requires forall r | r in run.rows :: WellFormed(r.payload)
    requires m.Object? && Get(m.fields, "row_count") == Some(Int(|run.rows|))
    requires WellFormed(rows) && Same(List(RowsJson(run.rows)), rows)
    ensures VerifyRows(c, m, RunDigest(c, run), rows) == Valid(m)
  {
    hide ChainDigest, SignedExport, RowHashes;
    RowsWellFormed(run.rows);
    SameRowHashes(run.rows, rows.items);
  }

  lemma SamePayload(m: Json, m': Json, digest: string)
    requires WellFormed(m) && WellFormed(m') && Same(m, m')
    ensures SigningPayload(m, digest) == SigningPayload(m', digest)
  {
    DumpsIffSame(m, m');
  }

  /** Written out as JSON and read back, the export is still accepted. */
  lemma ReparsedAccepted(c: Crypto, run: Run)
    requires Lawful(c) && Succeeded(c, run)
    requires forall r | r in run.rows :: WellFormed(r.payload)
    ensures var text := Dumps(Object(RunDocument(c, run)));
            && Parse(text).Some? && Parse(text).value.0.Object?
            && VerifySignedExport(c, Parse(text).value.0.fields, Some(RunPem(c, run)), false).Valid?
  {
    hide RunDocument, SignedExport, VerifySignedExport, Parse;
    var v := Object(RunDocument(c, run));
    DocumentWellFormed(c, run);
    ParseDumps(v, "");
    assert Dumps(v) + "" == Dumps(v);
    GenuineAccepted(c, run, Parse(Dumps(v)).value.0.fields);
  }

  // ── The assumptions can be met ─────────────────────────────────────

  function Zeros(): Digest {
    seq(32, i => 0)
  }

  function KeyOfHex(pem: string): KeyLoad {
    match FromHex(pem)
    case None => BadPem
    case Some(bs) => if |bs| == 32 then Ed25519(bs) else OtherKind
  }

  // Keys and bytes in hex, and a signature that is the key in front of the message.
  function PlainCrypto(): Crypto {
    Crypto(_ => Zeros(), k => k, (k: Key, m: Bytes) => k + m, (k: Key, s: Bytes, m: Bytes) => s == k + m,
           Hex, FromHex, KeyOfHex, KeyOfHex, (k: Key) => Hex(k))
  }

  lemma HexReadsBack(bs: Bytes)
    ensures FromHex(Hex(bs)) == Some(bs) && (bs != [] ==> Hex(bs) != "")
  {
    FromHexOfHex(bs);
  }

  lemma PlainIsLawful()
    ensures Lawful(PlainCrypto())
  {
    var c := PlainCrypto();
    hide FromHex, Hex;
    forall bs: Bytes
      ensures c.b64Decode(c.b64Encode(bs)) == Some(bs) && (bs != [] ==> c.b64Encode(bs) != "")
    {
      HexReadsBack(bs);
    }
    forall k: Key
      ensures c.publicToPem(k) != "" && c.publicFromPem(c.publicToPem(k)) == Ed25519(k)
    {
      HexReadsBack(k);
    }
  }

  const MIDNIGHT := Time(0, "")

  function PlainRun(): Run {
    Run(Request("t", MIDNIGHT, Time(1, ""), Hex(Zeros()), true, None),
        [EvidenceRow(1, None, "prompt", None, Null, "", MIDNIGHT)], MIDNIGHT)
  }

  lemma PlainRunSucceeds()
    ensures Succeeded(PlainCrypto(), PlainRun())
  {
    HexReadsBack(Zeros());
    hide Hex, FromHex, Manifest, ChainDigest, SigningPayload;
  }

  lemma RunKeyUsed(c: Crypto, run: Run, doc: seq<Field>)
    requires Lawful(c) && Succeeded(c, run)
    ensures KeyUsed(c, doc, Some(RunPem(c, run)), false, c.publicKey(RunKey(c, run)))
  {
  }

  lemma OwnExportIsValid(c: Crypto, run: Run)
    requires Lawful(c) && Succeeded(c, run) && forall r | r in run.rows :: WellFormed(r.payload)
    ensures WellFormed(Object(RunDocument(c, run)))
    ensures Get(RunDocument(c, run), "rows") == RunIncluded(run)
    ensures VerifySignedExport(c, RunDocument(c, run), Some(RunPem(c, run)), false).Valid?
  {
    hide RunDocument, SignedExport, Lawful, RunPayload, RunManifest, Same, WellFormed, Get, VerifyWithKey,
      VerifySignedExport;
    DocumentWellFormed(c, run);
    DocumentParts(c, run);
    DumpsIffSame(Object(RunDocument(c, run)), Object(RunDocument(c, run)));
    GenuineAccepted(c, run, RunDocument(c, run));
    RunKeyIsRead(c, run, RunDocument(c, run));
  }

  /** An accepted export with its rows: what the results above require is met together. */
  lemma SomeGenuineExport() returns (c: Crypto, run: Run)
    ensures Lawful(c) && Succeeded(c, run) && forall r | r in run.rows :: WellFormed(r.payload)
    ensures WellFormed(Object(RunDocument(c, run))) && Get(RunDocument(c, run), "rows").Some?
    ensures KeyUsed(c, RunDocument(c, run), Some(RunPem(c, run)), false, c.publicKey(RunKey(c, run)))
    ensures SignedUnder(c, c.publicKey(RunKey(c, run)), [run])
    ensures VerifySignedExport(c, RunDocument(c, run), Some(RunPem(c, run)), false).Valid?
  {
    c, run := PlainCrypto(), PlainRun();
    PlainIsLawful();
    PlainRunSucceeds();
    hide PlainCrypto, Lawful, SignedExport, RunDocument, Get, VerifySignedExport, RunPem, KeyUsed;
    assert run.rows == [EvidenceRow(1, None, "prompt", None, Null, "", MIDNIGHT)] && run.req.includePayloads;
    hide PlainRun;
    RunKeyUsed(c, run, RunDocument(c, run));
    OwnExportIsValid(c, run);
  }
}
