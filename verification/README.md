# GuffSuff verification model

A Dafny model of four parts of the GuffSuff backend and mobile client, with proofs about every run of each.
`dafny verify dfyconfig.toml` checks all of it.

**Refresh-token families** (`Identity*.dfy`). The tables `users`, `devices`, `sessions`, `refresh_token_families`
and `refresh_tokens`, as `RegisterAccount`, `CreateSession`, rotation with its grace and reuse branches, device
revocation, single-session revocation and logout-all change them. `IdentityTables` gives each transaction or lone
statement as a function on the tables; `IdentityService.Store` is the imperative form, proved against those
functions; `IdentityRuns` runs them in any interleaving; the remaining modules prove what every run keeps.

**Envelope transport** (`Transport*.dfy`, `WorkerBudget.dfy`). Submission is cut into its check, lookup,
device-resolution and commit steps; workers are cut into selections and single-row writes. Any number of submissions
and workers interleave with acknowledgements, expiry, device changes and the clock. `TransportService.Store` is the
imperative form of the five operations.

**Native handle registry** (`LittleEndian`, `HandleCodec`, `WireFormat`, `NativeRegistry`, `DartBoundary`, `RegistryRuns`,
`RegistryImports`, `ReferenceProvider`). The registry and its byte format, Dart's own parser of that format and its
64 KiB export buffer, and the simple set-based provider that the registry is meant to behave like.

**Rate limits** (`EventLog`, `Otp*.dfy`, `RegistrationLock`, and `StaleCounter`, shared with the retry worker;
`SlottedLog`, `OtpInFlight`, `LockInFlight` and `InFlightExamples` for operations in flight together). The progressive
cooldown between one-time codes, the attempts on each code, and the failure window of the registration-lock PIN.

## How the model reads the code

- A table is a map from primary key to row. A violated primary key, unique constraint or reference is an ordinary
  outcome that rolls the transaction back, not a precondition.
- Generated identifiers, random tokens and clock readings are parameters, and so are the answers of queries whose
  order or choice of rows the database decides. Hash functions are function-valued fields; equality of digests is never
  taken for equality of payloads.
- The identity theorems hold for any clock readings. The transport clock and the one-time-code clock never go back.
- Each operation reads the clock once. A row lock (`FOR UPDATE OF rt, rf` inside a transaction,
  `services/api/src/identity/session.service.ts:132`) makes one rotation one step.

## Where code, schema and documentation disagree

- `replacement_token_id` references `refresh_tokens` and is not deferrable
  (`packages/database/migrations/001_create_identity_schema.sql:98`), while rotation writes it before the row it names
  exists (`services/api/src/identity/session.service.ts:222-242`). `Tables.fk` chooses between the two readings:
  with `PerStatement` no rotation ever succeeds (`IdentityRevocation.StatementChecksForbidRotation`); with
  `AtCommit` the transaction does what it is written to do. The invariants are proved for both.
- The throw after the reuse COMMIT (`services/api/src/identity/session.service.ts:210-211`) reaches a ROLLBACK with nothing
  left to undo, so the compromise stays.
- An access token issued by a refresh names a session id that no row is ever inserted for
  (`services/api/src/identity/session.service.ts:164-169` and `246-251`), so the guard refuses it
  (`IdentityRevocation.RefreshedAccessIsRefused`).
- A grace replay returns the old raw token, not the successor promised at `docs/SESSION_SECURITY.md:39`.
- Called directly, the services behind device revocation and logout-all are not final while a registration has committed
  its device but not yet created its session (`services/api/src/identity/account.service.ts:150-153`). Device revocation
  is final exactly when none is pending on the device (`IdentityRevocation.RevocationIsFinalIff`). Logout-all shuts the
  guard for good exactly when none of the user's is pending on an unrevoked device (`LogoutEndsAccessIff`), and ends
  rotation for good exactly when none of the user's is pending on any device after its last statement
  (`LogoutEndsRotationIff`), because session creation does not look at the device. As wired, both are reached only behind
  the guard, for the user it accepted (`services/api/src/identity/auth.controller.ts:96-101`,
  `services/api/src/identity/devices.controller.ts:16-39`), and such a user never has a pending registration, so there
  both are final without any condition (`IdentityGuarded`).
- Acknowledgement overwrites any status, and the worker's UPDATE has no status guard, so the state diagram at
  `docs/DELIVERY_STATE_MACHINE.md:24-36` can be left. Statuses only move forward exactly in the runs where no worker's
  write reaches a row that has stopped being pending, and delivered means acknowledged exactly in those where none
  reaches a delivered row (`TransportStatus.StatusesOnlyRiseIff`, `DeliveredIffAcknowledged`); passes that nothing
  interrupts are such runs, and `TransportExamples.StaleWriteReached` is one that is not.
- The recipient of an envelope need not be a member of the conversation, and a retry is recognised by device, key and digest
  only: a retry with another recipient is answered with the stored envelope (`TransportExamples.RetryIgnoresRecipient`).
- An envelope for a user without an active device is accepted, gets no record, and is never listed to anyone, whatever
  devices the user adds later (`services/api/src/transport/message-envelope.service.ts:66-117`;
  `TransportExamples.EnvelopeForNobody`).
- A failed import has already cleared the registry (`packages/guffsuff-mobile-crypto-boundary/src/lib.rs:386`). An import
  does not advance the counter, so later creations can overwrite imported handles (exactly when:
  `RegistryImports.CreationsAfterImport`), does not check `MAX_HANDLES` (`RegistryImports.ImportExceedsLimitIff`), and can
  make a disposed handle active again (exactly when: `RegistryImports.StaysInactiveIff`).
- The two providers disagree on disposing a bare number, which the interface allows: the reference ignores it
  (`apps/mobile/lib/crypto/provider_neutral_boundary.dart:180-192`), the native wrapper disposes it
  (`apps/mobile/lib/crypto/native_crypto_boundary_ffi.dart:219-231`). `ReferenceProvider.CallsAgreeIff` says exactly when
  this shows.
- The 60-second cooldown is never enforced (with no recent challenge there is nothing to wait for), and the advertised
  resend time of a first challenge is always too early (`OtpService.ResendPromiseKeptIff`).
- The row lock of a verification is released before its update, so verifications of one challenge in flight together can
  each be accepted (`OtpStore.AcceptedAtMostOncePerSlot`); one at a time a code is accepted once (`OtpStore.AcceptedOnce`).

## Model

| member | source | states |
|---|---|---|
| IdentityRuns.EveryFamilyIsAChain | services/api/src/identity/session.service.ts:54-266 | In every reachable state a family's tokens are one unbranched chain from its only root to its only unrotated leaf, with parent and replacement links mirrored, revoked all together or not at all |
| IdentityChains.ReplacementsEndAtTheLeaf | services/api/src/identity/session.service.ts:222-242 | Following replacement links from any token of a family terminates at the family's unique unrotated token |
| IdentityChains.LinksAreInverse | services/api/src/identity/session.service.ts:222-242 | i is replaced by j exactly when j descends from i, and both are then of one family |
| IdentityChains.RotateKeepsInv | services/api/src/identity/session.service.ts:214-244 | A rotation of a live leaf extends the chain by one token and keeps hashes unique and expiries inherited |
| IdentityChains.RevocationKeepsInv | services/api/src/identity/session.service.ts:181-188 | Revoking any set of whole families keeps every chain |
| IdentityChains.RefreshOutcomeExact | services/api/src/identity/session.service.ts:142-244 | Which of the five outcomes a presented token gets, each by an if-and-only-if on its own row; an in-grace replay always finds its replacement alive and changes no row |
| IdentityHistory.ReplayAfterRotation | services/api/src/identity/session.service.ts:152-187 | After a rotation and any later run, the old token replays up to exactly ten seconds after it and is reuse from then on; its row still names the token handed out, which expires with it |
| IdentityHistory.SuccessorRotates | services/api/src/identity/session.service.ts:214-258 | After any later run, the token handed out rotates in its turn exactly while its family is sound, it has not been rotated, and thirty days have not passed since the family was created |
| IdentityIsolation.SuccessorRotatesUndisturbed | services/api/src/identity/session.service.ts:214-258 | As long as no step concerns the user, it rotates exactly until those thirty days are over, whatever others do |
| IdentityRuns.NoRotationAfterThirtyDays | services/api/src/identity/session.service.ts:62-92 | Every reachable token expires thirty days after its family's creation, and nothing rotates later than that |
| IdentityRuns.ReuseKillsTheFamily | services/api/src/identity/session.service.ts:180-212 | Presenting a rotated usable token after the grace period compromises the family, revokes all its tokens and that user and device's sessions, and no later step rotates or adds a token of it |
| IdentityRuns.LogoutAllIsFinal | services/api/src/identity/session.service.ts:272-283 | With anything between the three statements, every family of the user present before the third has all tokens revoked, later ones included, and never rotates; those present before the second are compromised |
| IdentityRuns.RevokedSessionStaysRevoked | services/api/src/identity/session.service.ts:268-270 | No run makes a revoked session acceptable to the guard again |
| IdentityRevocation.RevokedDeviceStaysOut | services/api/src/identity/device.service.ts:49-109 | After a device whose registration has finished is revoked, no later guard check accepts a token for it and none of its families ever rotates |
| IdentityRevocation.RevokedDeviceTokens | services/api/src/identity/device.service.ts:71-79 | The tokens of a revoked device's families stay revoked, in the same lineage, over every later run |
| IdentityRevocation.PendingRegistrationOutlivesRevocation | services/api/src/identity/account.service.ts:150-153 | For a direct call while the registration is pending: some run gives the revoked device a refresh token that is not refused as revoked, and rotates when references are checked at commit |
| IdentityRevocation.RevocationIsFinalIff | services/api/src/identity/device.service.ts:49-109 | A direct revocation is final over every later run exactly when no registration is pending on the device |
| IdentityGuarded.AcceptedUserIsRegistered | services/api/src/identity/jwt-auth.guard.ts:30-53 | In every reachable state, and ever after, a user the guard accepts has no pending registration |
| IdentityGuarded.GuardedRevocationIsFinal | services/api/src/identity/devices.controller.ts:36-40 | When a user the guard has accepted revokes a device of theirs, no token for it works in any later state, with no condition left |
| IdentityGuarded.GuardedLogoutIsFinal | services/api/src/identity/auth.controller.ts:96-101 | When a user the guard has accepted logs out everywhere, the guard is shut to them in every later state, with no condition left |
| IdentityGuarded.GuardedLogoutEndsRotation | services/api/src/identity/session.service.ts:272-283 | And in every later state every family they have is compromised, revoked and out of rotation, whatever ran between the statements |
| IdentityRevocation.LogoutEndsAccess | services/api/src/identity/session.service.ts:272-273 | With no registration of the user pending on an unrevoked device, the first statement of logout-all shuts the guard to the user in every later run |
| IdentityRevocation.PendingRegistrationOutlivesLogout | services/api/src/identity/session.service.ts:272-283 | For a direct call with a registration pending on an unrevoked device: a session created between the statements is accepted by the guard after all three |
| IdentityRevocation.LogoutEndsAccessIff | services/api/src/identity/session.service.ts:272-283 | A direct logout-all shuts the guard for good exactly when no registration of the user is pending on an unrevoked device |
| IdentityRevocation.LogoutEndsRotationIff | services/api/src/identity/session.service.ts:278-282 | After its last statement no family the user ever has rotates again, exactly when no registration of the user is pending then, on any device |
| IdentityRevocation.PendingRegistrationOutlivesTokens | services/api/src/identity/session.service.ts:54-92 | When one is, some run gives the user a family whose token is not refused, and rotates when references are checked at commit, on a revoked device too |
| IdentityRevocation.RefreshedAccessIsRefused | services/api/src/identity/session.service.ts:246-251 | An access token for a session id never inserted is refused by the guard in every later run |
| IdentityRevocation.StatementChecksForbidRotation | packages/database/migrations/001_create_identity_schema.sql:98 | With the reference checked per statement every family keeps exactly its first token and every refresh is a refusal that changes nothing |
| IdentityIsolation.OthersDoNotInterfere | services/api/src/identity/device.service.ts:54-79 | A run none of whose steps concerns a user leaves that user's sessions, families and tokens as they were, because every session and family belongs to its device's owner |
| IdentityService.Store.RegisterAccount | services/api/src/identity/account.service.ts:67-114 | Inserts the active user and its unrevoked device, keeping the invariant |
| IdentityService.Store.CreateSession | services/api/src/identity/session.service.ts:54-116 | Succeeds exactly when user and device exist and no key or hash is taken; the access token names the new session, the user, the device and version 1, and the guard accepts it when user and device are in order |
| IdentityRows.CreateSessionRows | services/api/src/identity/session.service.ts:54-92 | Every column of the three rows, all expiring 30 * 24 * 60 * 60 * 1000 ms later, or no change |
| IdentityService.Store.RotateRefreshToken | services/api/src/identity/session.service.ts:118-266 | The new tables and the answer are those of the refresh specification; grace returns the old raw token; the access token names the generated session id, the family's user and device and version 1, and the guard takes it exactly when a live session row of that user and device has that id |
| IdentityRows.RefusedOrReplayed | services/api/src/identity/session.service.ts:142-178 | A compromised, revoked or expired token is refused and a replay within 10,000 ms is answered, both without changing a row |
| IdentityRows.RotationRows | services/api/src/identity/session.service.ts:214-244 | Every column a rotation writes, or no change when a key or the reference is violated |
| IdentityRows.ReuseRows | services/api/src/identity/session.service.ts:180-212 | Late reuse writes the family, its tokens and the sessions of that user on that device, and no other row |
| IdentityService.Store.RotateRow | services/api/src/identity/session.service.ts:140-259 | The branches on the selected row, with the rollback of a violated constraint and the claims of the access token |
| IdentityService.Store.RevokeDevice | services/api/src/identity/device.service.ts:49-109 | Succeeds exactly when the device exists, is the user's and is not revoked, and then no access token for it is accepted; otherwise nothing changes |
| IdentityRows.RevokeDeviceRows | services/api/src/identity/device.service.ts:54-79 | Every row the cascade writes in the four tables, and no other |
| IdentityRows.SecondRevocationRefused | services/api/src/identity/device.service.ts:54-65 | Once a device is revoked, revoking it again in any later state changes nothing |
| IdentityService.Store.RevokeSession | services/api/src/identity/session.service.ts:268-270 | Stamps one session and touches nothing else |
| IdentityRows.SessionRevocationIsFinal | services/api/src/identity/session.service.ts:268-270 | After it no claims for that session pass the guard in any later state |
| IdentityService.Store.RevokeAllSessionsForUser | services/api/src/identity/session.service.ts:272-283 | Uninterrupted, the three statements leave the guard shut to the user |
| IdentityRows.LogoutRows | services/api/src/identity/session.service.ts:272-283 | The rows each of the three statements hits, and no other |
| IdentityService.Store.CanActivate | services/api/src/identity/jwt-auth.guard.ts:18-64 | Accepts exactly the claims whose session exists for that user and device, is unrevoked and has that version, on an unrevoked device of a user who is active or pending a profile |
| TransportSafety.OneEnvelopePerKey | packages/database/migrations/002_create_message_transport_schema.sql:97 | Under every interleaving a sender device and key have at most one envelope, and every envelope exactly one key record, holding its payload's digest |
| TransportSafety.RetriesFindTheEnvelope | services/api/src/transport/message-envelope.service.ts:43-64 | Once an envelope is stored, every later lookup of its key returns it for the same digest and refuses another, and every commit that lost the race leaves no row |
| TransportExamples.RetryIgnoresRecipient | services/api/src/transport/message-envelope.service.ts:43-64 | A retry with the same payload is answered with the stored envelope whatever recipient and conversation it names |
| TransportSafety.NothingIsLost | services/api/src/transport/message-envelope.service.ts:110-147 | Each device in an envelope's fan-out has exactly one record, in every later state, and it is listed as pending, or delivered with an acknowledgement, or past expiry |
| TransportFanout.RecordsAreResolvedDevices | services/api/src/transport/message-envelope.service.ts:66-117 | Through any interleaving, a committed envelope has a record for exactly the devices active when its recipient was resolved; with none it has no record and is never listed |
| TransportExamples.EnvelopeForNobody | services/api/src/transport/message-envelope.service.ts:66-117 | A run from the empty tables accepts such an envelope |
| TransportSafety.NothingIsMisdelivered | services/api/src/transport/message-envelope.service.ts:66-117 | Every record is addressed to a device of the envelope's recipient that was in its fan-out, and only four statuses are ever written |
| TransportWorkers.AttemptsBounded | services/worker/src/transport-processor.ts:7-28 | With k workers interleaved anyhow a record's attempts never exceed 4 + k |
| TransportExamples.AttemptBoundAttained | services/worker/src/transport-processor.ts:7-28 | For every non-empty set of k workers a run from the empty tables takes a record to exactly 4 + k attempts |
| TransportWorkers.RaceTakesAll | services/worker/src/transport-processor.ts:7-28 | From a lone selectable record at four attempts, k workers that all select before any writes take it to 4 + k |
| TransportWorkers.WorkRefinesCounter | services/worker/src/transport-processor.ts:7-28 | Selecting, writing and crashing are the steps of a stale counter |
| StaleCounter.NextKeepsBound | services/worker/src/transport-processor.ts:13-28 | count + outstanding checks <= limit - 1 + slots is kept by every step of a check-then-increment counter |
| WorkerBudget.PassesThatFindWork | services/worker/src/transport-processor.ts:3-40 | One worker, N selectable rows and no new commits: at most N / 10 + 5 passes find work, and one more for each pass an error cuts short, whichever rows each LIMIT picks |
| TransportStatus.PassIsSelectThenWrites | services/worker/src/transport-processor.ts:7-28 | An uninterrupted pass is its selection followed by its single-row writes |
| TransportStatus.StatusesOnlyRiseIff | services/worker/src/transport-processor.ts:3-53 | Over every run: every step moves every status forward only, and none away from delivered, exactly when no write of the run reaches a row that is no longer pending |
| TransportStatus.StatusOnlyRises | services/worker/src/transport-processor.ts:3-53 | In such a run no record ends behind where it began, and a delivered one ends delivered |
| TransportStatus.AtomicRunsAreClean | services/worker/src/transport-processor.ts:3-53 | Runs whose passes nothing interrupts meet this condition and the next |
| TransportStatus.SyncedIff | services/api/src/transport/message-envelope.service.ts:169-180 | Over every run: delivered and acknowledged mean the same in every state exactly when no write of the run reaches a delivered row |
| TransportStatus.DeliveredIffAcknowledged | services/api/src/transport/message-envelope.service.ts:169-180 | The same from the empty tables, for every set of workers and every run, and so in the last state |
| TransportStatus.StepForwardIff | services/worker/src/transport-processor.ts:18-28 | One step of any kind keeps every status from falling exactly when it is not a write to a row that is no longer pending |
| TransportStatus.StaleWriteReopensDelivered | services/worker/src/transport-processor.ts:18-28 | An acknowledgement between selection and write is undone: the acknowledged envelope is listed as pending again |
| TransportExamples.StaleWriteReached | services/worker/src/transport-processor.ts:18-28 | A run from the empty tables ends there, for every non-empty set of workers |
| TransportService.Store.SubmitEnvelope | services/api/src/transport/message-envelope.service.ts:16-131 | Each of the three refusals exactly on its rows, in order, with 65536 bytes allowed; a retry returns the stored envelope with the same digest; a new one leaves a fresh record for exactly the recipient's unrevoked devices; everything else changes nothing |
| TransportAuthority.EnvelopesAreAuthorized | services/api/src/transport/message-envelope.service.ts:17-39 | In every reachable state every stored envelope was sent from its sender's own device, by a member of its conversation, with at most 65536 bytes |
| TransportAuthority.RevokedSenderStoresNothing | services/api/src/transport/message-envelope.service.ts:17-24 | A device revoked before its check adds no envelope in any later state |
| TransportAuthority.AuthorizeIff | services/api/src/transport/message-envelope.service.ts:17-39 | Which refusal a submission gets, each by an if-and-only-if on the rows |
| TransportService.Store.InsertEnvelope | services/api/src/transport/message-envelope.service.ts:75-130 | Succeeds exactly when the recipient exists and no primary key or unique pair is violated; then every column of the envelope, key and records, otherwise no change |
| TransportService.InsertableIff | services/api/src/transport/message-envelope.service.ts:110-117 | The loop of record inserts succeeds exactly when its ids are new and distinct and no device has a record yet |
| TransportService.Store.GetPendingEnvelopes | services/api/src/transport/message-envelope.service.ts:133-147 | Returns exactly the pending unexpired envelopes of the user and device, each once, the first accepted first |
| TransportService.OldestFirst | services/api/src/transport/message-envelope.service.ts:143 | Lists a set of envelopes in order of acceptance, each once |
| TransportService.Store.AcknowledgeDelivery | services/api/src/transport/message-envelope.service.ts:149-190 | Succeeds exactly when the device has a record of the envelope, whatever its status, and the user is the recipient; marks that record delivered, adds the acknowledgement, and changes nothing else |
| TransportService.Store.ProcessOfflineMessageRetries | services/worker/src/transport-processor.ts:3-40 | Every selected row is queued, stamped and counted once, and no other row changes |
| TransportService.BatchIsDue | services/worker/src/transport-processor.ts:7-15 | A selection holds at most fifty rows, all undelivered, unexpired and attempted fewer than five times, and all such rows when it holds fewer than fifty |
| TransportService.Store.ProcessExpiredEnvelopeCleanup | services/worker/src/transport-processor.ts:42-65 | Exactly the undelivered rows past their expiry become expired; nothing listed disappears |
| TransportService.ExpiryHidesNothing | services/worker/src/transport-processor.ts:45-53 | Expiry and the pending query disagree on no row |
| HandleCodec.ImportSucceedsIff | packages/guffsuff-mobile-crypto-boundary/src/lib.rs:364-423 | For every byte string, import succeeds exactly on the well-formed ones |
| WireFormat.ImportCodeOfBytes | packages/guffsuff-mobile-crypto-boundary/src/lib.rs:370-401 | In literal bytes: 0 exactly when there are eight, they start with 1, 0, 0, 0, the records counted fit and their type bytes are 1 to 3; -7 exactly for other version bytes; else -8; a refused header changes nothing |
| WireFormat.ImportedRecord | packages/guffsuff-mobile-crypto-boundary/src/lib.rs:388-414 | A record that was read and is the last with its id leaves Identity, Session or Group for byte 1, 2 or 3, active unless its last byte is 0 |
| WireFormat.ExportedBytes | packages/guffsuff-mobile-crypto-boundary/src/lib.rs:330-339 | An export starts with 1, 0, 0, 0 and the count, and each record holds its id, its type byte and 1 or 0 |
| HandleCodec.ImportOfExport | packages/guffsuff-mobile-crypto-boundary/src/lib.rs:319-423 | For every iteration order of the map, importing an export restores the registry it came from |
| HandleCodec.ImportExportImport | packages/guffsuff-mobile-crypto-boundary/src/lib.rs:319-423 | Import, export in any order and import again equals one import |
| HandleCodec.HeaderOf | packages/guffsuff-mobile-crypto-boundary/src/lib.rs:332-339 | An export of n handles is 8 + 10n bytes long and its header reads back as version 1 and n |
| LittleEndian.ToFromLE | packages/guffsuff-mobile-crypto-boundary/src/lib.rs:376-393 | Every byte string is the encoding of the number it reads as |
| LittleEndian.ToLEDigit | packages/guffsuff-mobile-crypto-boundary/src/lib.rs:332-336 | The byte at place k is the k-th base-256 digit, lowest first |
| NativeRegistry.Registry.RegisterHandle | packages/guffsuff-mobile-crypto-boundary/src/lib.rs:161-174 | Adds an active handle under the counter, which wraps at 64 bits, or answers -10 at 10,000 handles |
| NativeRegistry.Registry.DisposeHandle | packages/guffsuff-mobile-crypto-boundary/src/lib.rs:131-154 | Deactivates an active handle; -2 for an unknown one, -3 for a stale one |
| NativeRegistry.Registry.TransformPayload | packages/guffsuff-mobile-crypto-boundary/src/lib.rs:256-315 | The error code in the source's order of checks; on success the input is at the front of the output buffer and the rest is untouched, otherwise all of it is |
| NativeRegistry.Registry.Serialize | packages/guffsuff-mobile-crypto-boundary/src/lib.rs:330-339 | Writes 1, 0, 0, 0, the count and each handle's ten bytes, in some enumeration of the keys; importing it restores the registry, whatever was there |
| NativeRegistry.Registry.ExportState | packages/guffsuff-mobile-crypto-boundary/src/lib.rs:319-360 | Fills the buffer with those bytes when it suffices, -5 when not, and always reports the length 8 + 10n |
| NativeRegistry.Registry.ImportState | packages/guffsuff-mobile-crypto-boundary/src/lib.rs:364-423 | The code in terms of the bytes, 0, -7 or -8, and the registry left behind, failed imports included |
| NativeRegistry.Registry.ImportSlice | packages/guffsuff-mobile-crypto-boundary/src/lib.rs:376-414 | The loop stops exactly where the codec says and leaves the records before that, on every byte string |
| DartBoundary.ParseExportedState | apps/mobile/lib/crypto/native_crypto_boundary_ffi.dart:252-271 | Reads as many whole records as the count asks for and the bytes hold, ids as signed 64-bit numbers |
| DartBoundary.ParsersAgree | apps/mobile/lib/crypto/native_crypto_boundary_ffi.dart:252-271 | On every byte string: under a refused header the import leaves the registry alone; under an accepted one it leaves the fold of the prefix of Dart's list up to where it stopped, short of Dart exactly at an unknown type byte |
| DartBoundary.SameRegistryIff | apps/mobile/lib/crypto/native_crypto_boundary_ffi.dart:252-271 | Dart's whole list stands for the imported registry exactly when the header is accepted and every listed type byte is known |
| DartBoundary.WellFormedParsesAlike | apps/mobile/lib/crypto/native_crypto_boundary_ffi.dart:252-271 | On well-formed bytes Dart's list, the last id winning, is the imported registry |
| DartBoundary.ExportOpaqueState | apps/mobile/lib/crypto/native_crypto_boundary_ffi.dart:234-250 | The 64 KiB buffer suffices exactly up to 6552 handles |
| DartBoundary.TransformPayloadInternal | apps/mobile/lib/crypto/native_crypto_boundary_ffi.dart:187-216 | Returns the bytes it was given or the native error; the buffer is never too small |
| DartBoundary.DisposeHandle | apps/mobile/lib/crypto/native_crypto_boundary_ffi.dart:219-232 | Disposes the handle an object or a bare number names, a negative one by its 64-bit pattern, and handle 0 for anything else |
| RegistryRuns.CreationsAreFresh | packages/guffsuff-mobile-crypto-boundary/src/lib.rs:161-174 | In runs that import only their own exports, ids stay below the counter, every creation is new and grows the registry by one, and the limit holds |
| RegistryImports.CreationsGrowIff | packages/guffsuff-mobile-crypto-boundary/src/lib.rs:161-174 | While there is room, the next n creations all add a handle exactly when none of the n ids from the counter on is a key, wrap-around included |
| RegistryImports.CreationsAfterImport | packages/guffsuff-mobile-crypto-boundary/src/lib.rs:376-414 | After an import that is exactly when no record it read carries one of those ids |
| RegistryImports.ImportExceedsLimitIff | packages/guffsuff-mobile-crypto-boundary/src/lib.rs:385-414 | An import exceeds MAX_HANDLES exactly when the records it reads carry more distinct ids than that, and from the limit on creations are refused |
| RegistryImports.ImportOfAnySize | packages/guffsuff-mobile-crypto-boundary/src/lib.rs:364-423 | Registries of any size below 2^32 can be imported |
| RegistryRuns.ForeignImportCollides | packages/guffsuff-mobile-crypto-boundary/src/lib.rs:385-414 | In any state there are bytes whose import succeeds and whose handle the next creation overwrites |
| RegistryRuns.DisposedStaysStale | packages/guffsuff-mobile-crypto-boundary/src/lib.rs:131-154 | Without imports a disposed handle is stale to every later call |
| RegistryRuns.ReplayRevivesHandle | packages/guffsuff-mobile-crypto-boundary/src/lib.rs:364-414 | Exporting, disposing and importing makes the handle active again |
| RegistryImports.StaysInactiveIff | packages/guffsuff-mobile-crypto-boundary/src/lib.rs:131-154 | Over every run with any imports, an issued inactive handle stays inactive, and is refused by every call, exactly when no import in it carries the handle as active |
| ReferenceProvider.TestBoundaryCryptoProvider.CreateHandle | apps/mobile/lib/crypto/provider_neutral_boundary.dart:142-160 | Issues the next id and activates it |
| ReferenceProvider.TestBoundaryCryptoProvider.TransformPayload | apps/mobile/lib/crypto/provider_neutral_boundary.dart:163-177 | Returns the payload exactly for an active handle |
| ReferenceProvider.TestBoundaryCryptoProvider.DisposeHandle | apps/mobile/lib/crypto/provider_neutral_boundary.dart:180-192 | Deactivates an active handle object, refuses an inactive one, and ignores anything else |
| ReferenceProvider.CallsAgreeIff | apps/mobile/lib/crypto/provider_neutral_boundary.dart:121-193 | From related states, for any call, exactly when both providers answer alike and exactly when they stay related; disposal of anything but a handle object never does both |
| ReferenceProvider.NativeSimulatesReference | packages/guffsuff-mobile-crypto-boundary/src/lib.rs:131-315 | Over every trace of at most 10,000 creations, payloads up to 10 MiB on session handles and disposals of handle objects, both accept the same calls and return the same bytes, native ids 899 higher |
| OtpService.AtMost289PerDay | services/api/src/identity/otp.service.ts:41-77 | Over every run of requests in order, any closed 24-hour window holds at most 289 challenges of one phone |
| OtpInFlight.AtMost289PerDayInFlight | services/api/src/identity/otp.service.ts:41-77 | With k requests in flight under any interleaving, at most 289k |
| InFlightExamples.OtpBoundAttained | services/api/src/identity/otp.service.ts:41-77 | And for every set of slots a run reaches 289k in one day |
| OtpInFlight.AdmitsIsAllowed | services/api/src/identity/otp.service.ts:51-60 | With the rows in order of creation the check in flight is the check one at a time |
| OtpService.Bound289Attained | services/api/src/identity/otp.service.ts:41-77 | And 289 requests, each as early as allowed, are all accepted in one day |
| OtpService.Span | services/api/src/identity/otp.service.ts:51-60 | Between challenges of one day the first gap is at least two minutes and every later one at least five |
| OtpService.ResendPromiseKeptIff | services/api/src/identity/otp.service.ts:52-70 | The advertised resend time is kept exactly when two recent challenges came before, or one that is a day old by then |
| OtpStore.Store.RequestOtpChallenge | services/api/src/identity/otp.service.ts:35-101 | Inserts one challenge with three attempts and five minutes when the cooldown for the phone's challenges of the last day allows, reports the seconds left rounded up when not |
| OtpStore.RowsCounted | services/api/src/identity/otp.service.ts:41-53 | The count that decides the cooldown is the number of the phone's rows later than the bound |
| OtpService.AllowedIff | services/api/src/identity/otp.service.ts:51-60 | A request is served at once with no recent challenge, after two minutes with one, after five with more |
| OtpService.FreshPhoneIsServed | services/api/src/identity/otp.service.ts:41-47 | A phone with no recent challenge is served whatever other phones have asked for |
| OtpStore.Store.VerifyOtpChallenge | services/api/src/identity/otp.service.ts:103-144 | Which refusal each row gets and whether the code matches; an answer adds one attempt and sets verified exactly for the right code, and no other column or row changes |
| OtpStore.AcceptedOnce | services/api/src/identity/otp.service.ts:103-144 | Over every run of guesses a challenge is accepted at most once, never after it has been, and all answers stay within the attempts left |
| OtpStore.RightGuessAccepted | services/api/src/identity/otp.service.ts:112-143 | A guess is accepted exactly when its hash is right, in time, with attempts left, on a challenge not verified yet |
| OtpStore.VerifiedStays | services/api/src/identity/otp.service.ts:116-118 | With verifications in flight too, a verified challenge stays verified and admits no later one |
| OtpStore.AcceptedAtMostOncePerSlot | services/api/src/identity/otp.service.ts:103-143 | With k verifications in flight a code is accepted at most k times, after the first only by those already past their query |
| OtpStore.StepRefinesCounter | services/api/src/identity/otp.service.ts:103-143 | Verifications in flight are the steps of a stale counter |
| OtpStore.OtpAttemptsBounded | services/api/src/identity/otp.service.ts:103-143 | With k verifications in flight a challenge takes at most max_attempts - 1 + k attempts |
| InFlightExamples.OtpAttemptBoundAttained | services/api/src/identity/otp.service.ts:103-143 | And for every non-empty set of slots a run reaches exactly that |
| RegistrationLock.FailuresPerWindow | services/api/src/identity/registration-lock.service.ts:47-89 | Checks of a user one at a time: any interval (a, a + L] holds at most 5 * ceil(L / 30 min) recorded failures, though each is recorded after it was checked |
| LockInFlight.FailuresPerWindowInFlight | services/api/src/identity/registration-lock.service.ts:47-89 | With k checks in flight under any interleaving, any interval (a, a + L] holds at most (4 + k) * ceil(L / 30 min) recorded failures, and none when k is 0 |
| InFlightExamples.LockBoundAttained | services/api/src/identity/registration-lock.service.ts:47-89 | And for every non-empty set of slots a run reaches 4 + k in thirty minutes |
| RegistrationLock.RecordKeepsThrottle | services/api/src/identity/registration-lock.service.ts:53-86 | A failure admitted by the check leaves any six failures in a row at least thirty minutes apart, however late it is recorded |
| RegistrationLock.ClosedWindowHoldsTen | services/api/src/identity/registration-lock.service.ts:53-86 | Counted with both ends, thirty minutes hold at most ten failures |
| RegistrationLock.TenFailuresInAClosedWindow | services/api/src/identity/registration-lock.service.ts:53-86 | And a run of ten checks, five at each end, attains that |
| RegistrationLock.Store.SetPin | services/api/src/identity/registration-lock.service.ts:29-52 | Stores the hash of a PIN of 6 to 12 digits, and of nothing else |
| RegistrationLock.Store.VerifyPin | services/api/src/identity/registration-lock.service.ts:47-89 | Refuses exactly at five failed attempts of the user in the last 30 * 60 * 1000 ms, or without a PIN, and records nothing; otherwise answers and records the attempt |
| RegistrationLock.FailuresCounted | services/api/src/identity/registration-lock.service.ts:53-64 | The count that decides the lockout is the number of the user's failed attempts later than the bound |
| RegistrationLock.Store.DisablePin | services/api/src/identity/registration-lock.service.ts:91-105 | Removes the credential exactly for the right PIN outside a lockout, and records a wrong one |

## Left out

- IdentityRuns.LogoutAllIsFinal: each statement is one step, so a family or token inserted by a concurrent transaction while a single UPDATE is still scanning is not modelled, because the statement's snapshot is the database's own.
- IdentityRuns.LogoutAllIsFinal: says nothing of a family created after the third statement; IdentityRevocation.LogoutEndsRotationIff says exactly when that can matter.
- IdentityService.Store.RegisterAccount: does not model the phone, code, username, profile and privacy rows or their checks, because no later step of the model reads them.
- IdentityService.Store.RevokeAllSessionsForUser: is the uninterrupted case; IdentityRuns.LogoutAllIsFinal covers the interleaved one.
- IdentityService.Store.CanActivate: takes the verified claims as given; signature, issuer, audience and access-token expiry belong to the JWT library.
- TransportService.Store.SubmitEnvelope: is the uninterrupted case; TransportRuns cuts it into steps. The two queries of the authorisation check are one step there.
- TransportService.Store.ProcessOfflineMessageRetries: is the uninterrupted case; TransportWorkers covers interleaved selections and writes.
- OtpStore.Store.RequestOtpChallenge: takes insertion order for creation order and one clock reading for NOW() and Date.now(), so it does not model clock skew between servers; OtpInFlight covers requests in flight together.
- RegistrationLock.FailuresPerWindow: is for the checks of a user one at a time, because nothing locks the window between the count and the insert; LockInFlight covers checks in flight together.
- ReferenceProvider.CallsAgreeIff: takes a handle number below zero for one that no handle has, so it does not model that its 64-bit pattern could be issued after 2^63 creations.
- NativeRegistry.Registry.TransformPayload: null pointers, panic containment, the last-error code, overlapping buffers and a 32-bit usize are not modelled; buffers are arrays with their lengths.
- References from envelopes to conversations and sender devices: rows of those tables are never deleted here, so the references cannot fail.
- Read receipts, envelope status, delivery-attempt rows, and security and audit event rows: written and never read back by these operations.
- One-time-code delivery and its delivery row, the delivery provider and the digits of the code: I/O and randomness.
- Cryptography: HMAC, SHA-256 and Argon2 are arbitrary functions, and comparison of secrets is equality.
- Controllers, conversations, device rotation, profiles, usernames, contact discovery, the realtime gateway, the admin console and the user interface: not part of this model.
