# veldt-kya, modelled in Dafny

veldt-kya keeps the audit trail of AI agents: it signs evidence exports, merges the trust history of
renamed agents, caches its Redis client, notifies regulators of breaches, wraps LLM SDK methods to
capture calls, redacts outbound copies, creates its tables and decides policy verdicts. This project
models those parts and proves what they guarantee, and, where the code does not guarantee what its
documentation says, exactly when it does.

Source paths are relative to the repository. `dafny verify dfyconfig.toml` checks everything.

## How the model is laid out

- **Signed documents.** `Common`, `Bytes`, `CanonicalJson` (the printer), `JsonParser` (a reader),
  `JsonIdentity` (what canonical text identifies), `FoldHash`, `AuditExport`, `InboundSigning`. SHA-256
  is an arbitrary function to 32 bytes, so results about digests return the two colliding inputs.
  Ed25519 (section 5.1 of RFC 8032), base64 and PEM are arbitrary functions; only the two results about
  genuine exports assume that they fit together (`AuditExport.Lawful`), and what a verifier accepts is
  traced to a signed export, a collision or a forged signature. Canonical JSON is concrete (sections 4
  to 7 of RFC 8259) over null, booleans, integers, strings of Unicode scalar values, lists and
  string-keyed objects.
- **Aliases.** `AliasMigration` holds the trust table and the SQL statements of one iteration; `AliasStore`
  is the alias table and the class `Store` with the migration loop; `AliasBalance` says what an iteration does to every total and on which tables a pass
  conserves; `AliasMerge` proves the closed form and order independence; `AliasChains` follows aliases
  of aliases over repeated passes. Trust rows are a list in scan order: a lookup takes the first row
  with the id whatever its kind, UPDATE and DELETE hit all of them, and the key of the table
  (kya/principals.py:918-924) admits one row per kind.
- **Redis client.** `ClientCache` is the class and the sequential meaning of one call; `CacheProtocol`
  runs any number of threads through it one shared access at a time.
- **Breach notifications.** `ComplianceShim` is one tick; `ShimProtocol` interleaves the ticks of any
  number of workers, each on the work its query gives it, cut into check, emit and record, with crashes.
  Times are integers (microseconds).
- **Instrumentation.** `AutoInstrument` is the patch lifecycle as a class over the method slots and the
  saved originals, and what a wrapped call gives its caller; `Responses` is what the wrappers read off a
  response; `Attribution` interleaves captures of any number of tasks down to the single reads and writes
  of the shared context.
- **Tables.** `LegacyTables` detaches and restores index sets in place; `LegacyProtocol` interleaves
  callers one index at a time.
- **Runs.** `Runs` says what a run of a step relation is, that invariants survive one, and how a concrete
  run is put together; the four machines share it.
- **Policy.** `NativeEvaluator`. **Copies.** `Redactor`.

## Where the code and its documentation disagree

The model follows the code, and each disagreement has a result that says exactly when the promise holds.

- `compliance_shim.py` says a tick or a re-run cannot double-fire: rows are single, emissions are not
  (`ShimProtocol.ExactlyOnceIff`). `_record_notification` says it returns True for a new row: also when the
  conflict clause inserted nothing (`ShimProtocol.AcknowledgedIsARowIff`). The prefilter is strict where the
  window test is not (`ComplianceShim.DuePairGetsRowIff`), and 200 open incidents hide every newer one even
  when already notified (`ComplianceShim.StarvedTick`).
- `migrate_principals_for_aliases` says idempotent: false along alias chains, whichever way the aliases are
  listed (`AliasChains.IdempotentIff`) or listed in the same order again (`AliasChains.SameListingIff`). Its
  additive merge loses or multiplies signals when an id has rows of two kinds or an alias points at itself
  (`AliasBalance.PassConservesIff`), and its "lower trust" takes every missing score for 50
  (`AliasMerge.KeepsLowerTrustIff`).
- `get_valkey` says a failed ping is cached as None and the same instance is always returned: a failure is
  retried after the cooldown (`CacheProtocol.FailureIsNotFinal`, `CacheProtocol.RetryBound`).
- `_capture_cost` says it never affects the call: a failing `import litellm` other than ImportError does, and
  a messages argument whose truth test raises keeps a wrapped call from reaching the SDK at all
  (`AutoInstrument.TransparentIff`, `AutoInstrument.ReachedIff`).
- `autoinstrument` says it captures through the given channel: later callers write through the first
  caller's (`AutoInstrument.OwnChannelIff`). It says one row per tool call: awaited LiteLLM calls lose theirs
  (`Responses.RowPerToolCallIff`). `deinstrument` forgets originals it failed to restore
  (`AutoInstrument.AlwaysSoundIff`).
- `audit_export` offers proof that rows are unaltered: of each row only the decoded `signed_hash` is covered
  (`AuditExport.OnlyHashesCovered`).
- `create_legacy_tables` restores in a `finally` that does not cover its detaching loop
  (`LegacyProtocol.RestoredIff`).

## Model

| member | source | states |
|---|---|---|
| Bytes.Utf8ReadsBack | kya/audit_export.py:143 | UTF-8 text can be decoded again (section 3 of RFC 3629), so no two texts share their bytes |
| Bytes.FromHexReads | kya/audit_export.py:138-143 | which texts are read as hex: digits in either case in pairs, white space between them skipped, all else an error |
| FoldHash.ChainFoldHash | kya/audit_export.py:119-145 | the loop computes the left fold SHA(acc + row) from SHA("") |
| FoldHash.FoldCarriesOn | kya/audit_export.py:123-145 | the digest of no rows is that of the empty input; one more row makes it SHA-256 of the digest so far followed by the row's bytes |
| FoldHash.FoldBinds | kya/audit_export.py:135-145 | two different row lists with one digest give a SHA-256 collision, a row step meeting the empty seed included |
| FoldHash.DigestBindsRows | kya/audit_export.py:135-145 | equal digests mean equal decoded rows, order and number, or a collision |
| FoldHash.DigestBindsHexRows | kya/audit_export.py:136-145 | on 64-character lowercase hex hashes the lists themselves are equal, or a collision |
| FoldHash.DigestIgnoresSpelling | kya/audit_export.py:140-143 | elsewhere they need not be: case, white space and the UTF-8 fallback give equal digests |
| JsonParser.ParsePrint | kya/audit_export.py:97-104 | a reader returns the printed value and exactly the text behind it |
| JsonIdentity.CanonIffSame | kya/audit_export.py:101-104 | key sorting at every level gives one form exactly to values that hold the same data |
| JsonIdentity.CanonIsSame | kya/audit_export.py:101-104 | canonicalising keeps the data and is idempotent |
| JsonIdentity.DumpsIffSame | kya/audit_export.py:97-104 | two values print alike exactly when they are the same data, whatever their key order |
| JsonIdentity.ParseDumps | kya/audit_export.py:97-104 | canonical text reads back as the same data even with trailing text |
| JsonIdentity.ObjectsPrefixFree | kya/audit_export.py:97-104 | canonical objects are prefix-free |
| JsonIdentity.PrintAscii | kya/audit_export.py:101-104 | the text is ASCII |
| CanonicalJson.EscapedAsPublished | kya/audit_export.py:101-104 | every character is written as `ensure_ascii` writes it |
| AuditExport.PayloadInjective | kya/audit_export.py:156-161 | one payload, one manifest and one digest, for any ASCII digest text |
| AuditExport.AcceptedIffUnderKey | kya/audit_export.py:397-430 | accepted exactly when accepted under the key of the supplied PEM, or, with none supplied and only after the opt-in, of the embedded one; without either, refused |
| AuditExport.EmbeddedPemIgnored | kya/audit_export.py:397-398 | what the document embeds changes no verdict under a supplied PEM, nor does the opt-in |
| AuditExport.AcceptedManifestWasSigned | kya/audit_export.py:397-505 | an accepted export, with or without rows, has the manifest and digest of one of the exports signed with the key that was used, or its own signature is a forgery on a message none of them signed |
| AuditExport.AcceptedWasSigned | kya/audit_export.py:352-505 | an accepted export with rows has the manifest and the decoded hashes of one export signed with the key that was used, or a SHA-256 collision is returned, or its own signature is a forgery |
| AuditExport.OnlyHashesCovered | kya/audit_export.py:475-496 | under a supplied PEM, an edit of an accepted export that keeps the decoded signed hashes, or drops the rows, is accepted; an accepted edit that keeps rows has the same decoded hashes, or a SHA-256 collision is returned |
| AuditExport.ValidIff | kya/audit_export.py:438-505 | accepted under a key exactly when schema, digest, signature, number of rows and fold are all right |
| AuditExport.ManifestSays | kya/audit_export.py:298-311 | a manifest with the data of a run's, in any field order, names its tenant, range, invocation, key, number of rows, first and last row |
| AuditExport.DocumentParts | kya/audit_export.py:329-346 | what an export document holds, member by member, rows exactly when asked for |
| AuditExport.RowSays | kya/audit_export.py:337-345 | an exported row names its evidence row's members one by one |
| AuditExport.GenuineAccepted | kya/audit_export.py:295-346 | every export made, in any field order, with or without rows, is accepted under its key |
| AuditExport.ReparsedAccepted | kya/audit_export.py:329-346 | and still is after being written as JSON and read back |
| AuditExport.SomeGenuineExport | kya/audit_export.py:295-505 | the assumptions of these results can be met together: a lawful instance with an accepted export and its rows |
| InboundSigning.CanonicalBytesIffSame | kya/_inbound_signing.py:105-113 | two envelopes have the same signed bytes exactly when all other fields agree |
| InboundSigning.SignatureNotCovered | kya/_inbound_signing.py:112-113 | attaching or replacing the signature never changes the signed bytes |
| InboundSigning.LoadEnvKeys | kya/_inbound_signing.py:54-65 | the loop reads exactly the anchors of the variable, later entries winning |
| InboundSigning.TrustedKeys | kya/_inbound_signing.py:68-78 | key by key: an environment anchor wins, a default stands where the environment names none, and there are no others |
| InboundSigning.LastEntryPins | kya/_inbound_signing.py:55-78 | written in the documented format, the last clean entry for a key id pins it whatever the defaults hold; a default stands for ids no entry names |
| InboundSigning.RenderedAnchorsReadBack | kya/_inbound_signing.py:55-65 | clean anchors written in the documented format read back as written |
| InboundSigning.AcceptedIff | kya/_inbound_signing.py:136-179 | accepted exactly when the signature verifies under the 32-byte anchor the key id maps to |
| InboundSigning.SignThenAttachVerifies | kya/_inbound_signing.py:105-179 | sign the canonical bytes, attach, and the envelope verifies under the pinned key |
| InboundSigning.SignatureTransfersIff | kya/_inbound_signing.py:170-177 | an accepted signature put on another envelope is accepted exactly when all other fields agree, or that one signature verifies on both messages |
| AliasStore.Store.ResolveAlias | kya/agent_aliases.py:107-128 | returns c exactly when the alias is not empty and (tenant, alias, c) is registered |
| AliasStore.Store.AddAlias | kya/agent_aliases.py:131-166 | afterwards exactly this alias of this tenant resolves differently |
| AliasStore.UpsertResolves | kya/agent_aliases.py:144-160 | the upsert keeps (tenant, alias) unique and every other resolution |
| AliasMigration.MergeSignalCounts | kya/agent_aliases.py:257-261 | the loop adds the counts kind by kind, null as zero |
| AliasStore.Store.MigrateOne | kya/agent_aliases.py:236-322 | one iteration: merge, write the canonical row, drop the alias rows, commit, report |
| AliasStore.Store.Migrate | kya/agent_aliases.py:207-323 | table, report and committed states of a pass over the registered aliases; nothing off PostgreSQL; when no canonical is an alias, afterwards no row sits under a registered alias and every other id holds the signals, least trust and latest time of itself and its aliases, however they are listed |
| AliasStore.PairsAreRegistered | kya/agent_aliases.py:225-231 | the run works through (alias, canonical) exactly for the registered aliases of its tenant |
| AliasStore.PairsListRegistered | kya/agent_aliases.py:225-234 | and each alias once |
| AliasBalance.FindStep | kya/agent_aliases.py:236-313 | every lookup after an iteration: alias gone, canonical merged, all else as before |
| AliasBalance.StepBalance | kya/agent_aliases.py:237-312 | what an iteration does to every signal total of any table, several kinds under an id and self-aliases included |
| AliasBalance.StepCounts | kya/agent_aliases.py:272-312 | how many rows an iteration leaves under each id, and which it leaves alone |
| AliasBalance.PassConservesIff | kya/agent_aliases.py:234-323 | for any table and alias list, whatever the rows hold, a pass keeps every total exactly when each iteration finds no alias row, or one under another id with at most one canonical row |
| AliasBalance.OneKindIsSafe | kya/agent_aliases.py:234-312 | no self-alias and no mentioned id with rows of two kinds is enough for that |
| AliasBalance.PassConserves | kya/agent_aliases.py:234-323 | such a pass keeps the totals of every tenant |
| AliasBalance.EveryCommitConserves | kya/agent_aliases.py:313 | and so does every table committed on the way, hence every crash point |
| AliasMerge.PassClosedForm | kya/agent_aliases.py:234-313 | when no canonical is an alias: sums, minimum trust (missing or null as 50), latest time, and the kind of the canonical row or of the first alias row sent, for every id |
| AliasMerge.TrustIsLeast | kya/agent_aliases.py:262-266 | the trust left is the least score, missing ones counting as 50, of the canonical row and the rows sent to it |
| AliasMerge.LastIsLatest | kya/agent_aliases.py:267-271 | the time left is the latest of theirs, absent when none has one |
| AliasMerge.KeepsLowerTrustIff | kya/agent_aliases.py:262-266 | a row that was sent something keeps the least score there was exactly when there was one and either no row lacked a score, the canonical one included, or it is at most 50 |
| AliasMerge.OrderIndependent | kya/agent_aliases.py:225-313 | any order of the alias list gives the same trust, counts and times |
| AliasMerge.KindIgnoresOrderIff | kya/agent_aliases.py:298 | the kind is the same for every order exactly when the canonical row was there or all alias rows sent give one kind |
| AliasMerge.OtherTenantsUntouched | kya/agent_aliases.py:237-312 | rows of other tenants stay as they are, in place |
| AliasChains.PassLowersDepth | kya/agent_aliases.py:234-323 | a pass, in any listing order, strictly lowers the greatest alias depth holding a row; at depth 0 it changes nothing |
| AliasChains.PassesClear | kya/agent_aliases.py:234-323 | as many passes as that depth leave no alias-keyed row, further ones change nothing |
| AliasChains.TrappedForever | kya/agent_aliases.py:234-323 | a row inside an alias cycle is never cleared |
| AliasChains.ClearsIff | kya/agent_aliases.py:234-323 | without self-aliases some number of passes clears every table exactly when no aliases lead only to each other |
| AliasChains.IdempotentIff | kya/agent_aliases.py:204 | re-running changes nothing, for every table and any two listings, exactly when each alias points at itself or at a key that is no alias |
| AliasChains.SameListingIff | kya/agent_aliases.py:204-229 | with the aliases listed in the same order, and no cycle of several, a re-run changes nothing on every table exactly when each canonical that is itself another alias is listed after the alias pointing at it |
| ClientCache.Cooldown | kya/_valkey.py:78-89 | the setting, never below one second; 30 without one |
| ClientCache.FlagSetIff | kya/_valkey.py:152-232 | an attempt sets the flag exactly when it obtained a client, from the factory or else by connecting, or when Redis or its URL is missing; that client is cached and returned |
| ClientCache.FailedConnectIsRetried | kya/_valkey.py:206-226 | after a failed connection the flag is unset and the deadline at least a second ahead, calls before it return None, and calls from it on that obtain a client return it |
| ClientCache.ValkeyCache.GetValkey | kya/_valkey.py:118-236 | fast path, cooldown, re-checks, attempt and the three ways to settle, as one call |
| ClientCache.ValkeyCache.RegisterFactory | kya/_valkey.py:92-105 | clears client and flag, keeps a running cooldown |
| ClientCache.ValkeyCache.Reset | kya/_valkey.py:108-115 | clears client, flag and cooldown, keeps the factory |
| ClientCache.RegistrationWaitsForCooldown | kya/_valkey.py:101-146 | a factory registered during a cooldown is consulted only once it is over |
| CacheProtocol.InvNext | kya/_valkey.py:133-236 | each atomic step of any thread keeps lock, flag, client and deadline consistent |
| CacheProtocol.OneClient | kya/_valkey.py:133-148 | on every interleaving at most one client is published and every result is it or None |
| CacheProtocol.FlagIsFinal | kya/_valkey.py:134-144 | once the resolved flag is set, flag and client never change |
| CacheProtocol.FlagStep | kya/_valkey.py:134-135 | a reader that saw the flag returns the final client |
| CacheProtocol.FailureIsNotFinal | kya/_valkey.py:214-226 | a failed connect leaves the flag unset and a deadline ahead |
| CacheProtocol.FailuresNeverResolve | kya/_valkey.py:206-226 | as long as every attempt fails to connect, no schedule sets the flag or returns a client |
| CacheProtocol.RetryBound | kya/_valkey.py:137-146 | attempts are a cooldown apart: at most 1 + floor(T / c) within T of the first |
| CacheProtocol.SoloCallIsGet | kya/_valkey.py:118-236 | alone, the thread steps amount to the sequential call |
| ComplianceShim.ApplicableRegimes | kya/compliance_shim.py:230-241 | the loops find exactly the regimes some tag, in lower case, equals or continues after an underscore |
| ComplianceShim.OtherContinuation | kya/compliance_shim.py:240 | a tag that goes on with any other character does not match |
| ComplianceShim.OneRegimePerTag | kya/compliance.py:136-157 | no tag belongs to two regimes |
| ComplianceShim.CaseIgnored | kya/compliance_shim.py:238 | two tags read alike exactly when they differ in the case of letters only, and then match alike |
| ComplianceShim.Shim.NotifyOne | kya/compliance_shim.py:247-339 | one pair: wait, skip, or emit and record, and the counter each moves |
| ComplianceShim.Shim.NotifyIncident | kya/compliance_shim.py:228-342 | one incident, regimes in some order, whatever fails: the table and log after that work; without failures the tally and the effect on every pair |
| ComplianceShim.VisitTicks | kya/compliance_shim.py:246-324 | the work of a failure-free visit gives each due pair of the incident its row, and one emission if it had none |
| ComplianceShim.VisitsTick | kya/compliance_shim.py:228-342 | so does the work of a failure-free tick, whatever order it takes the regimes of each incident in |
| ComplianceShim.Shim.RunOnce | kya/compliance_shim.py:197-343 | a tick, whatever fails, leaves the table and log of some order of its work, and counts one emitted per new row and one error per emission without; without failures evaluated = emitted + skipped + not yet due, and its effect on every pair |
| ComplianceShim.LeastWindow | kya/compliance_shim.py:208 | the smallest window of the matrix |
| ComplianceShim.ScannedByAge | kya/compliance_shim.py:127-131 | which candidates the 200-row limit reaches |
| ComplianceShim.TickComplete | kya/compliance_shim.py:197-343 | with at most 200 candidates every due pair of an open incident past the smallest window has a row |
| ComplianceShim.DuePairGetsRowIff | kya/compliance_shim.py:128-254 | with at most 200 candidates a due pair without a row gets one exactly when the age is not exactly the smallest window |
| ComplianceShim.StarvedTick | kya/compliance_shim.py:127-131 | behind 200 older open incidents a pair gets neither row nor emission |
| ComplianceShim.NothingWithoutDuty | kya/compliance_shim.py:127-254 | a closed incident, one no tag of which names the regime, and one within the window get neither row nor emission |
| ComplianceShim.PublishedDeadline | kya/compliance.py:136-157 | with at most 200 candidates, an incident tagged with a published regime, in either form and any case, has a row for it, in its format, once the published hours are over |
| ComplianceShim.RowsTell | kya/compliance_shim.py:314-322 | every row a tick adds, whatever fails, names its incident, tenant, regime, format and number of destinations |
| ComplianceShim.SomeTick | kya/compliance_shim.py:197-343 | from any table and log, any incident table has a failure-free tick |
| ComplianceShim.RecordKeeps | kya/compliance_shim.py:160-179 | the conflict clause keeps pairs unique and every row justified by an emission |
| ShimProtocol.InvNext | kya/compliance_shim.py:246-342 | every step of any worker, crash or failure keeps that invariant |
| ShimProtocol.RowsUniqueAndJustified | kya/compliance_shim.py:161-179 | on every interleaving: one row per (incident, regime), each after an emission made past its window |
| ShimProtocol.SoloTickIsRunOnce | kya/compliance_shim.py:228-342 | alone, the steps of a worker leave exactly the table and log of a tick with that order of work, whatever fails |
| ShimProtocol.ExactlyOnceIff | kya/compliance_shim.py:24-26 | no pair is emitted twice on any run of ticks over queried work exactly when there is at most one worker and nothing fails |
| ShimProtocol.AcknowledgedIsARowIff | kya/compliance_shim.py:157-179 | as many inserts return True as there are rows, on every run with or without failures and crashes, exactly when there is at most one worker |
| ShimProtocol.FinishedTickCovers | kya/compliance_shim.py:246-339 | whatever the other workers do, a tick that ends without a failure of its own leaves a row for every due pair of the incidents it scanned |
| ShimProtocol.RaceRepeats | kya/compliance_shim.py:257-324 | two workers on any tick whose first pair is due: two emissions, one row |
| ShimProtocol.RerunRepeats | kya/compliance_shim.py:296-324 | a crash between emit and record, and the next tick emits again |
| ShimProtocol.DueFirst | kya/compliance_shim.py:116-132 | every due pair of a candidate comes first in some tick |
| AutoInstrument.Process.PatchLiteLLM | kya/autoinstrument.py:573-683 | both LiteLLM slots wrapped and saved, or neither when already patched |
| AutoInstrument.Process.Autoinstrument | kya/autoinstrument.py:744-782 | argument errors change nothing; else the context is bound, exactly the unpatched slots of the SDKs reached are wrapped, and the report says which imports succeeded |
| AutoInstrument.InstrumentedSlots | kya/autoinstrument.py:770-782 | slot by slot: the SDKs asked for and installed are patched in order, up to the first import that fails otherwise; saved slots stay as they are |
| AutoInstrument.Process.Deinstrument | kya/autoinstrument.py:785-813 | every saved slot whose restore succeeds is back, the saved map is empty either way |
| AutoInstrument.AlwaysSoundIff | kya/autoinstrument.py:459-509 | on any sequence of calls each slot is the original or one wrapper around it, saved exactly when wrapped, if and only if no restore of a patched slot fails |
| AutoInstrument.RestoringKeepsSoundIff | kya/autoinstrument.py:791-812 | the same for one deinstrument() |
| AutoInstrument.WrapperCount | kya/autoinstrument.py:785-813 | a slot carries one wrapper per failed restore plus one while patched; the original is back exactly when both are none |
| AutoInstrument.FirstChannelWins | kya/autoinstrument.py:459-460 | until a deinstrument() a slot keeps the wrapper, and so the channel, of its first call |
| AutoInstrument.OwnChannelIff | kya/autoinstrument.py:459-509 | a call whose SDK is reached captures through its own channel afterwards exactly when the slot was free or already captured through it |
| AutoInstrument.TransparentIff | kya/autoinstrument.py:462-502 | through any nesting of wrappers the SDK is called and its result or exception comes back exactly when testing the messages for truth never raises, no BaseException hits a capture, and the pricing import fails at most with ImportError |
| AutoInstrument.ReachedIff | kya/autoinstrument.py:463-466 | the SDK is left uncalled exactly when some wrapper trips over the messages |
| Responses.ReadCalls | kya/autoinstrument.py:481-490 | the loop keeps the usable tool calls, in order |
| Responses.ReadBlocks | kya/autoinstrument.py:537-549 | the loop splits the content blocks into texts and tool calls, in order |
| Responses.Read | kya/autoinstrument.py:473-664 | each wrapper captures the text and tool calls of its response, the awaited LiteLLM one no tool calls |
| Responses.LinesReadBack | kya/autoinstrument.py:551 | the joined texts of a message can be told apart again |
| Responses.RowsAreEvidence | kya/autoinstrument.py:253-333 | what a capture offers: one prompt row with the messages if any, one response row with the text if any, the tool calls in order, or one error row with the message cut to 2000, in that order |
| Responses.RowPerToolCallIff | kya/autoinstrument.py:650-672 | every tool call of a response is offered as a row exactly when the call was not an awaited LiteLLM call or its response has none |
| Attribution.InvNext | kya/autoinstrument.py:117-155 | every step of every interleaving keeps rows, invocations, contexts and tasks consistent |
| Attribution.RowsAttributed | kya/autoinstrument.py:117-155 | every row carries the identity of its call's context and an invocation recorded with it; a call's rows are in order |
| Attribution.CompleteCapture | kya/autoinstrument.py:253-333 | a capture without failed inserts has stored exactly the evidence of what it captured, prompt before response or error before tool calls |
| Attribution.OneIdIff | kya/autoinstrument.py:261-263 | every context keeps one invocation id on every run exactly when captures cannot interleave or contexts are not shared |
| Attribution.RaceSplits | kya/autoinstrument.py:261-263 | two threads with one context: two ids |
| LegacyTables.Detach | kya/_legacy_tables.py:171-180 | exactly the partial indexes of the tables are taken and remembered |
| LegacyTables.Restore | kya/_legacy_tables.py:184-186 | putting the pairs back gives every table its set at entry |
| LegacyTables.CreateLegacyTables | kya/_legacy_tables.py:108-188 | what creation sees per dialect, and sets as at entry on every exit unless the detaching loop is cut short after taking something |
| LegacyTables.TranslationKeepsCaller | kya/_legacy_tables.py:113-153 | caller entries kept, one entry added at most, and when the tables land where documented |
| LegacyProtocol.RestoredIff | kya/_legacy_tables.py:159-188 | sets are original whenever no call runs, on every interleaving, locked or not, exactly when the detaching loop cannot break or nothing is partial |
| LegacyProtocol.ViewsIff | kya/_legacy_tables.py:31-44 | every creation sees the right indexes on every run exactly when the lock is held and the loop cannot break, or nothing is partial |
| Redactor.PiiIgnoresCase | kya/_redactor.py:49-60 | a key is PII exactly when some configured name lowers to the same text; the case of either makes no difference |
| Redactor.RedactsAlikeIff | kya/_redactor.py:53-73 | same copy exactly when the payloads differ only in PII values of equal hash, tails or bytes of equal length, bytes against their written-out stub, or below the depth limit |
| Redactor.PlainIsCopied | kya/_redactor.py:53-73 | a payload without PII values, tuples, bytes, long texts or excess depth is copied unchanged |
| Redactor.LongTextCopied | kya/_redactor.py:71-72 | a text over the limit keeps its first characters and says how many more there were |
| Redactor.DictCopied | kya/_redactor.py:37-63 | a dictionary keeps keys and order; PII values that are not None become their salted hash, the others their own copies |
| Redactor.OthersCopied | kya/_redactor.py:54-70 | lists and tuples become lists of copies, bytes their number, what is too deep one mark |
| Redactor.HashesAgreeIff | kya/_redactor.py:37-39 | hashes agree exactly when the first eight digest bytes do |
| Redactor.TruncatedIff | kya/_redactor.py:71-72 | a truncation marker determines both the kept text and the length |
| Redactor.RedactsToStubIff | kya/_redactor.py:54-70 | a dictionary has the copy of a byte string exactly when it is that stub and the settings leave the stub as it is at its depth |
| Redactor.NestingBound | kya/_redactor.py:54-68 | copies nest at most max_depth + 2 deep, and some do |
| NativeEvaluator.FirstRuleWins | kya/_native_evaluator.py:460-498 | the first rule that does not pass decides, a raising one by a fail-closed deny; allow exactly when all pass |
| NativeEvaluator.WeightThreshold | kya/_native_evaluator.py:302-345 | a table entry that converts to n denies exactly from 100 on; a missing entry or one that is no number passes |
| NativeEvaluator.BudgetQuestion | kya/_native_evaluator.py:204-274 | a cost that is positive, infinite or NaN is put to the budget in one question, for the agent itself or the tenant unless overridden, and denies exactly on "refuse"; other costs pass |
| NativeEvaluator.RestrictedRule | kya/_native_evaluator.py:358-374 | restricted data is refused to everybody but humans |
| NativeEvaluator.FailuresStepAside | kya/_native_evaluator.py:189-345 | a missing session, import or primitive makes its rule pass; the budget rule raises exactly on an unreadable answer or an unexpected conversion error |
| NativeEvaluator.HashAlwaysThere | kya/_native_evaluator.py:150-185 | every verdict carries one policy hash, non-empty when the primitives' are: the effective one, else the empty policy's, else the constant |
| NativeEvaluator.AlwaysAllowsIff | kya/_native_evaluator.py:189-368 | evaluate() allows under every behaviour of its primitives exactly when no rule can ever fire |
| NativeEvaluator.ShortCircuitIff | kya/_native_evaluator.py:383-429 | the fast path implies the default allow, and misses exactly three harmless families |
| NativeEvaluator.BudgetIgnoresPrincipalIff | kya/_native_evaluator.py:203-240 | who the principal is cannot influence the budget rule exactly when the cost never reaches the primitive or both scope and key are overridden |

## Left out

- Re-exports, constants, scoring tables, field reshaping, cost analytics, authentication, migrations, session plumbing, command-line code, metrics and logging: short or outside the logic modelled here.
- Floats and lone surrogates in canonical JSON, and values that need the printer's fallback (datetimes, bytes); a stored payload is taken as the JSON value `_coerce_payload` returns.
- The missing-`cryptography` branches of the signing code, the evidence query of `signed_export` (its result is a parameter), and `verified_at` and the fingerprint echoed by the verifier.
- The text of verdict and error messages; each reason is a constructor.
- `require_trusted_keys`, `list_aliases`, `delete_alias`, alias notes, `updated_at`, and database errors during a migration other than stopping between commits.
- ClientCache.ValkeyCache.GetValkey: clock readings and what an attempt meets are parameters; NaN and infinite cooldown settings are not modelled.
- CacheProtocol.OneClient: runs contain no reset and no new registration, as documented for the same-instance promise.
- ComplianceShim.Shim.RunOnce: with failures, `skipped` and the number evaluated are not tied to the work. Tags are lowered as ASCII, which is enough for the four regime names; payload contents, lag gauge and counters are not modelled.
- Equal ages in the incident query keep table order; a database may break such ties differently.
- AliasChains.SameListingIff: nothing is said of alias lists in which several aliases lead round in a circle.
- ShimProtocol.ExactlyOnceIff: the database is one table with atomic statements, and an insert that fails leaves no row.
- AutoInstrument.TransparentIff: provider and price detection are reduced to what each stage may raise.
- Responses.Read: a response has the attributes its API documents; one whose attributes raise is an exception of that stage in AutoInstrument.TransparentIff. A message's missing content and its empty content are one case.
- Attribution.RowsAttributed: the recorder is the one that writes to the database; the HTTP recorder follows the same steps without tenant, and cost rows and channels are not part of the machine. Invocation ids are positive and never reused.
- LegacyTables.CreateLegacyTables: re-entry of the same thread through the RLock, and SQL emission inside `create_all`, are not modelled.
- Redactor.RedactsAlikeIff: dictionaries are compared with their insertion order; `str.lower`, `str()` and SHA-256 are arbitrary functions.
- NativeEvaluator.FirstRuleWins: a BaseException outside Exception leaves evaluate() and is not modelled; attributes that raise when tested for truth are not either.
