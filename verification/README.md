# A verified model of the platform's stateful cores

This project models the parts of the CryptoBOM platform that keep state or transform data in ways that are easy to
get wrong, and proves what they promise. Every module follows one source file or one component. Code that updates
state step by step is a class or a method with loops, proved equal to a function on values; what the source promises
is then proved about that function, over all inputs, all runs or all schedules.

Check everything with `dafny verify dfyconfig.toml`.

## What is modelled

- **Authentication** (`AuthModel`, `AuthStore`, `AuthService`, `AuthRuns`, `AuthAccess`, `AuthEffects`,
  `AuthConcurrent`, `AuthRotation`). `AuthStore` has the in-memory store on the heap: a session record is one object
  filed under its id and under its token hash, and `RevokeSessionsForUser` mutates it in place through the id index.
  `AuthService` has the service methods over that store. `AuthModel` gives both a meaning on values, and `AuthRuns`
  proves safety over runs of whole service calls: rotation chains (the refresh rotation of section 10.4 of RFC 6749),
  reuse detection, single-use tokens. `AuthAccess` says what a call needs to change an account or a session, or to
  create one; `AuthEffects` says that the change then happens, in full, and what each failing check answers.
  `AuthConcurrent` splits Refresh, Logout, RevokeSession and ResetPassword into their store calls and interleaves any
  number of them; `AuthRotation` says when a rotation survives that.
- **Scanning** (`ScanFanout`, `ScanCounts`, `ScanManager`, `ScanOutcomes`). Workers append results under a mutex in an
  order the scheduler picks, and a summary counts what they found; scan jobs of many tenants pass their lock regions
  interleaved.
- **Firmware** (`Firmware`, `FirmwareLeaves`, `ArchiveBudget`, `IntelHex`, `IntelHexLines`, `TokenScan`).
  Depth-bounded recursive archive analysis with merging and deduplication at every level, extraction budgets, the
  Intel HEX parser with a printer it undoes, the search for printable strings and for markers at token boundaries.
- **Migrations** (`Migrate`, `MigrateDrift`, `MigrateConcurrent`, `NormalizeSql`, `SqlComments`). The runner with its
  checksum ledger and faults at every point of a transaction, several instances of it at once, and the SQL normaliser
  the checksums rest on.
- **Rate limiting** (`RateLimiter`), **finding deduplication** (`FindingDedup`, `FindingIdentity`) and the **artifact
  graph** (`ArtifactGraph`, `ArtifactViews`).
- `Text` and `Names` hold the string operations and the name order the others use.

## Assumptions

- uuids and opaque tokens never collide with stored ones or with each other (`AuthModel.Fresh`,
  `AuthConcurrent.Drawable`); a scan job's uuid is new.
- SHA-256 is an injective function of its input, digests carry no surrounding blanks, and the statements of a
  migration contain no NUL, so its checksum determines the list of normalised statements. bcrypt, the password policy,
  the e-mail domain rule and TOTP are arbitrary predicates of the configuration. Whether random generation, signing or
  hashing fails is an input of the call.
- A service call reads the clock once; the clock of the authentication runs need not be monotone, the rate limiter's
  must be. Times and counters are unbounded integers (Go's time difference saturates instead).
- Case folding is ASCII. Text is a sequence of characters; a byte of an image is a character below 256.
- Format detection, zip, tar and gzip decoding, string and certificate detection in one image are arbitrary functions
  of their input (`Firmware.Oracles`). Confidences are real numbers. Marker lists are sets: the source removes
  duplicates and sorts.
- A finding's time of 0 stands for Go's zero time, so the clock reading of a deduplication is not 0.
- Relation kinds are the constants of `internal/cryptoart/artifact.go:66-73`, which contain no NUL.
- Severities are the constants of `internal/discovery/types.go`, or empty.
- `Migrate` treats the database's reaction to a statement as an arbitrary function of schema and statement; the
  ledger's primary key is enforced.

## What the proofs turned up

- `normalizeSQL` (`internal/database/migrate.go:92-98`) does not reset its pending-space flag when a dollar quote
  opens, so blanks after a closed quote are lost exactly when a blank was pending before it, more blanks follow, or
  nothing visible follows (`NormalizeSql.BlanksAfterQuoteVanishIff`, at literal statements
  `NormalizeSql.ClosingSpaceMayBeLost`).
- A line comment is replaced by a space even after one (`internal/database/migrate.go:60-67`), so adding a comment to
  an applied migration may be reported as drift: exactly when a space is pending before it and something visible
  stands on both sides (`SqlComments.StrippingKeepsNormalFormIff`, in a run `MigrateDrift.CommentMayDrift`).
- Findings whose scanner and rule id contain bars may share a fingerprint and be merged
  (`FindingIdentity.BarsMayMerge`); without bars only equal normalised parts do (`FindingIdentity.KeysAgreeIff`).
- A run that reports drift has executed nothing exactly when every migration before the changed one had been applied
  (`Migrate.DriftRunExecutedNothingIff`, `Migrate.DriftAfterExecution`).
- Whether the component kept for a deduplication key is quantum safe, or ready, depends on the schedule exactly when
  two workers deliver the key with first components that differ (`ScanFanout.KeptIsFixedIff`,
  `ScanFanout.SchedulesMayDisagree`). Where no two do, the whole summary is schedule independent
  (`ScanFanout.AgreeingHeadsFixSummaries`); for the count alone that is more than needed
  (`ScanFanout.CountsMayAgreeAnyway`).
- Two tenants share a result key exactly when one id swallows the other's asset prefix at a slash
  (`ScanManager.KeysCollideIff`, in a run `ScanManager.SlashesMayMixTenants`).
- An edge is dropped as a duplicate of a different one exactly when the two overlap at a NUL
  (`ArtifactGraph.RelateAddsNothingIff`, in a history `ArtifactGraph.NulMayHideAnEdge`).
- `ExtractStrings` exceeds its cap only when the cap is below one, the minimum length is one and the first byte
  printable (`TokenScan.CapExceededIff`); joining strings is faithful for a marker exactly when it contains no newline
  (`TokenScan.JoiningIsFaithfulIff`).
- A gzip stream is cut at the byte cap (`internal/firmware/analyze.go:198`): it is handed on whole exactly when it
  fits and does not fail before it (`Firmware.GzipIsWholeIff`, `Firmware.GzipMayBeCut`). Zip and tar members are whole
  or dropped (`ArchiveBudget.ExtractionFitsBudget`).
- A Logout or RevokeSession that read a session before a concurrent Refresh rotated it writes its copy back without
  the link; a rotation survives every schedule exactly when no such copy is pending
  (`AuthRotation.RotationSurvivesIff`, `AuthRotation.LogoutMayUndoRotation`).

## Model

| member | source | states |
|---|---|---|
| `AuthRuns.EffectOf` | internal/authn/service.go:140-522 | every service call does one of five things to the session maps: nothing, open, close, rotate, revoke all of one user |
| `AuthRuns.TokenLoadsIff` | internal/authn/service.go:614-630 | a token loads exactly when it is stored for this purpose, unused, unexpired and its owner exists; a used one of this purpose gets its own error, all other failures one |
| `AuthRuns.StepKeepsUsers` | internal/authn/service.go:140-513 | no service call breaks the agreement of the id index and the address index |
| `AuthRuns.StepKeepsTokens` | internal/authn/service.go:596-642 | a call adds at most one fresh token or marks at most one as used; no token disappears or becomes unused |
| `AuthRuns.RedemptionIsSound` | internal/authn/service.go:231-243 | a token that made VerifyEmail, ResetPassword or VerifyMFA succeed was unused, unexpired and of that purpose, is used afterwards, and only its owner's record may have changed |
| `AuthRuns.StepKeepsInv` | internal/authn/store.go:72-239 | one call keeps all indexes in agreement; sessions and tokens only age: a revocation, rotation or use is never undone |
| `AuthRuns.RunKeepsInv` | internal/authn/store.go:143-208 | the indexes agree in every state of every run |
| `AuthRuns.RunAges` | internal/authn/service.go:247-363 | between any two states of a run no session or token disappears and no revocation, rotation or use is undone |
| `AuthRuns.StepKeepsLinks` | internal/authn/service.go:284-292 | after a call every link still leads to a later stored session of the same user that no other links to, and at most one link is new, from an unlinked session to the one just stored |
| `AuthRuns.RunKeepsLinks` | internal/authn/service.go:284-292 | in every reachable state a rotated session's successor is a later stored session of the same user and no two sessions share one |
| `AuthRuns.RotationChainsAreFiniteAndAcyclic` | internal/authn/service.go:247-304 | along any chain of links sessions are distinct, ever later, of one user, all but the last revoked; no chain is longer than the number of sessions |
| `AuthRuns.RotationChainsAreDisjoint` | internal/authn/service.go:247-304 | two chains from roots that share a session are the same chain up to it |
| `AuthRuns.SuccessfulRefreshRetires` | internal/authn/service.go:287-292 | after success the presented session was live and unexpired and is now revoked and linked to the new one |
| `AuthRuns.RevokedStaysOut` | internal/authn/service.go:252-261 | a token whose session is revoked at some state never refreshes at any later state |
| `AuthRuns.RefreshSucceedsAtMostOnce` | internal/authn/service.go:247-304 | over any run of atomic calls one refresh token yields at most one successful Refresh |
| `AuthRuns.ReuseRevokesTheFamily` | internal/authn/service.go:253-259 | presenting a rotated token is refused, leaves every session of its user revoked, and every other session, user and token as it was |
| `AuthRuns.TokenRedeemedAtMostOnce` | internal/authn/service.go:333-363 | over any run one out-of-band token succeeds at most once, whichever calls present it |
| `AuthRuns.ResetEndsEarlierSessions` | internal/authn/service.go:333-363 | after a successful reset no refresh token stored earlier for that user ever succeeds again |
| `AuthAccess.AccountChangesAreAuthorised` | internal/authn/service.go:182-433 | no call changes an account except with the proof the change asks for (current password, live token, valid code), and only the field the call is for; none disappears |
| `AuthAccess.PairsAreEarned` | internal/authn/service.go:193-304 | a token pair for a user is handed out only to a call entitled to it, and its refresh token opens a new live session of that user |
| `AuthAccess.SessionChangesAreAuthorised` | internal/authn/service.go:247-465 | a stored session is changed only by a call entitled to, and then it is revoked; logging out and revoking by id revoke exactly the session named |
| `AuthAccess.CreationsAreAuthorised` | internal/authn/service.go:140-227 | an account or out-of-band token a call adds is one it may add: address free and allowed, purpose, owner, lifetime, MFA off |
| `AuthAccess.NormalizeTwice` | internal/authn/authn.go:126-128 | normalising an address twice is normalising it once |
| `AuthEffects.EveryCallTakesEffect` | internal/authn/service.go:140-522 | every call makes its whole promised change or none: which check gives which error, which account field, token or session then has which value in every index, and that every other entry is as before; a reset sets the new hash, uses the token and revokes the owner's sessions, a refresh whose owner is lost or disabled revokes them too |
| `AuthEffects.PairIffEntitled` | internal/authn/service.go:193-304 | login, second factor, refresh, demo login and token issue hand out a pair exactly to an entitled call whose random generation and signing do not fail |
| `AuthEffects.EntitledGetsPair` | internal/authn/service.go:193-304 | an entitled call gets the pair of that user, or the internal error when random generation or signing fails |
| `AuthEffects.ChallengeIff` | internal/authn/service.go:193-220 | a login is answered with a challenge exactly when the password is right for an enabled, admitted account with MFA; the challenge is then stored for it and nothing else is minted |
| `AuthEffects.DigestsAgreeIff` | internal/authn/token.go:110-113 | two raw tokens are the same token exactly when they agree after trimming |
| `AuthConcurrent.RevocationIsFinalOnEverySchedule` | internal/authn/store.go:143-208 | with any number of the four calls interleaved at store-call granularity a revoked session never becomes unrevoked and both indexes keep the same records |
| `AuthConcurrent.AdvanceStands` | internal/authn/service.go:284-315 | one store call of one goroutine, with possibly stale copies, keeps index agreement and every revocation |
| `AuthConcurrent.AdvanceFits` | internal/authn/service.go:265-292 | what a goroutine holds after a store call is a copy of a stored session, or the successor it has just drawn |
| `AuthConcurrent.NextFits` | internal/authn/service.go:248-315 | after any scheduling decision each goroutine holds a copy of a stored session or a successor that is neither stored nor drawn by another |
| `AuthConcurrent.AloneIsAtomic` | internal/authn/service.go:247-363 | a call whose store calls nobody interleaves with does exactly what the atomic call does |
| `AuthRotation.RotationSurvivesIff` | internal/authn/service.go:287-315 | from any state a rotated session stays rotated on every schedule exactly when no goroutine is about to close it from a copy taken before the rotation |
| `AuthRotation.LogoutMayUndoRotation` | internal/authn/service.go:307-315 | from any store with a session that can be refreshed there is a schedule of one Logout and one Refresh after which the link is gone |
| `AuthRotation.LostLinkHidesReuse` | internal/authn/service.go:253-261 | once the link is lost, presenting the rotated token is refused as invalid where it was the reuse signal before |
| `ScanFanout.ScanAll` | internal/discovery/scanner.go:39-79 | whatever worker is picked next, the result is that of some order in which every worker entered once |
| `ScanFanout.DedupeKeepsFirsts` | internal/discovery/scanner.go:193-208 | deduplication keeps exactly the first component of every key |
| `ScanFanout.DedupeCountsKept` | internal/discovery/scanner.go:193-208 | for any property, as many deduplicated components have it as there are keys whose first component does |
| `ScanFanout.KeyDecidesRiskLevel` | internal/discovery/scanner.go:200 | components with equal keys have equal risk levels, although the key is a concatenation |
| `ScanFanout.DedupeCounts` | internal/discovery/scanner.go:193-208 | for a property the key determines among the components, that is the number of distinct keys with it |
| `ScanFanout.OrdersCollectAlike` | internal/discovery/scanner.go:56-68 | two orders of the same workers collect the same findings and components as multisets and count every target |
| `ScanFanout.SchedulesAgree` | internal/discovery/scanner.go:39-79 | any two schedules report all targets scanned, permuted findings, and equal summaries except for the two fields the key leaves open |
| `ScanFanout.KeptIsAHead` | internal/discovery/scanner.go:56-75 | on a schedule the component kept for a key is the first one of the first worker to deliver the key |
| `ScanFanout.KeptIsFixedIff` | internal/discovery/scanner.go:193-208 | whether the component kept for a key has a property is the same on every two schedules exactly when any two workers delivering the key deliver first components that agree on it |
| `ScanFanout.AgreeingHeadsFixSummaries` | internal/discovery/scanner.go:39-79 | when the workers agree on safety and readiness for every key, every schedule reports the same summary |
| `ScanFanout.SchedulesMayDisagree` | internal/discovery/scanner.go:200 | otherwise both the quantum-safe and the ready count can differ between two schedules |
| `ScanFanout.CountsMayAgreeAnyway` | internal/discovery/scanner.go:237-248 | that agreement is not necessary for the count: differences on two keys can cancel out on every schedule |
| `ScanFanout.FindingsGiveKeys` | internal/discovery/scanner.go:161-190 | collapsing findings by algorithm and severity loses no component key |
| `ScanFanout.NetworkComponentsAreDistinctPairs` | internal/discovery/scanner.go:75-76 | after a scan of network targets the component count is the number of distinct algorithm and severity pairs found anywhere |
| `ScanCounts.ScheduleSummary` | internal/discovery/scanner.go:39-79 | on every schedule each severity, unsafe and referenced counter is the number of such findings over all successful scans, all targets are counted, the components are the distinct keys delivered and those at risk the keys delivered with a critical or high level |
| `ScanCounts.SummaryCountsFindings` | internal/discovery/scanner.go:210-235 | each counter is the number of places in the finding list with its severity or property |
| `ScanCounts.SummaryCountsComponents` | internal/discovery/scanner.go:237-248 | each component counter is the number of places in the component list with its property |
| `ScanCounts.CountIsCardinality` | internal/discovery/scanner.go:217-248 | counting in a loop gives the size of the set of places that satisfy the property |
| `ScanCounts.DedupeKeepsOrder` | internal/discovery/scanner.go:193-208 | the places kept are exactly those first with their key, in the order of the list |
| `ScanCounts.KeysAgreeIff` | internal/discovery/scanner.go:200 | without "@" in algorithm and library, components share a key exactly when algorithm, library, version and risk level agree |
| `ScanCounts.ComponentsDescribeFindings` | internal/discovery/scanner.go:161-190 | the derived components are exactly those that describe, field by field, the first finding of a named algorithm and severity |
| `ScanManager.JobsMatureOnEverySchedule` | internal/discovery/scan_manager.go:138-185 | on every schedule status only moves pending, running, then completed or failed for good; a result is present exactly when completed; progress does not fall before the last region |
| `ScanManager.KeysCollideIff` | internal/discovery/scan_manager.go:87-89 | two result keys are equal exactly when tenant and asset are, or when one tenant swallows the other's asset prefix |
| `ScanManager.SlashFreeKeysDecide` | internal/discovery/scan_manager.go:87-89 | without slashes in the tenants, or in the assets, the key determines both |
| `ScanManager.ResultsAreLastWithKey` | internal/discovery/scan_manager.go:184 | on every schedule the results map holds under each key the report of the last completion with that key |
| `ScanManager.TenantsReadTheirOwnLast` | internal/discovery/scan_manager.go:97-102 | on every schedule a tenant reads the report of its own last completed job for the asset, when tenant ids or asset ids are slash-free |
| `ScanManager.JobsAreVisibleToTheirTenant` | internal/discovery/scan_manager.go:199-208 | on every schedule a queued job is from then on visible exactly to callers whose tenant id normalises to its own |
| `ScanManager.SlashesMayMixTenants` | internal/discovery/scan_manager.go:87-89 | a run of one job in which a tenant reads a result although it never ran that asset; only the other tenant's id has a slash |
| `ScanOutcomes.JobsShowTheirHistory` | internal/discovery/scan_manager.go:111-185 | on every schedule a job shows what its own goroutine has done: pending, running at 10, running at 30, then for good the error of its failed scan, or the report of its successful one under the asset persistence named or else the one derived from the target |
| `ScanOutcomes.CompletionIsReadable` | internal/discovery/scan_manager.go:97-184 | right after a job completes, its tenant reads its report for the asset it is filed under |
| `ScanOutcomes.NormalizeIsExact` | internal/tenant/context.go:31-37 | a tenant id loses exactly the blanks around it; one of blanks only is the public tenant |
| `Firmware.AnalyzeDepth` | internal/firmware/analyze.go:131-219 | an error exactly beyond the depth limit; otherwise a report that means the images reached within it, with the exact warnings and one line per member, having made exactly the counted number of reports |
| `Firmware.AnalyzeChildren` | internal/firmware/analyze.go:170-190 | merging child after child means the leaves of all of them, with their warnings in order and a line for each |
| `Firmware.DedupeFindings` | internal/firmware/analyze.go:530-578 | one entry per name, by ascending name, merged over all entries of that name |
| `Firmware.TabulateKeepsFirst` | internal/firmware/analyze.go:558-571 | what merging does not join, such as the status, is that of the first finding of the name |
| `Firmware.SortedByName` | internal/firmware/analyze.go:543-548 | the table's values, each once, by ascending name |
| `Firmware.ListingCovers` | internal/firmware/analyze.go:558-578 | deduplication keeps every name with all markers, the reference flag and the best confidence |
| `Firmware.GistIsExact` | internal/firmware/analyze.go:558-578 | what is kept per name is the union of markers, whether any is referenced, and the greatest confidence |
| `Firmware.DedupeCertificates` | internal/firmware/analyze.go:634-645 | one certificate per fingerprint, the last of the list, by ascending subject |
| `Firmware.FewerCertificatesAbsorbed` | internal/firmware/analyze.go:344-355 | after finalizing, the remaining certificates imply nothing the report does not already contain |
| `Firmware.HighestRisk` | internal/firmware/analyze.go:490-500 | the highest rank of any algorithm, or the lowest level |
| `Firmware.SaysConcat` | internal/firmware/analyze.go:505-528 | merging a child that means its leaves into a parent that means its own gives a parent that means both |
| `Firmware.FinalizedSays` | internal/firmware/analyze.go:343-359 | finalizing neither loses nor adds meaning, although certificate names are added again at every level |
| `Firmware.ReportIsUnionOverLeaves` | internal/firmware/analyze.go:131-219 | for any archive tree the algorithms and libraries are one entry per name over all leaf images within the depth limit, with the maximum confidence and exactly the occurrences' markers |
| `Firmware.RiskIsLeafMaximum` | internal/firmware/analyze.go:490-500 | when status is a function of the name the report's risk is the maximum over the leaf images |
| `Firmware.ChildrenFit` | internal/firmware/analyze.go:163-211 | a container hands on at most max(1, N) members totalling at most B bytes |
| `Firmware.GzipIsWholeIff` | internal/firmware/analyze.go:191-211 | a gzip stream is handed on whole exactly when it fits the byte cap and does not fail before it |
| `Firmware.GzipMayBeCut` | internal/firmware/analyze.go:198-199 | a stream over the cap is handed on cut |
| `Firmware.ReportsAreBounded` | internal/firmware/analyze.go:131-211 | an analysis makes at most 1 + M + ... + M^D reports where M = max(1, N) |
| `FirmwareLeaves.ArchiveReaches` | internal/firmware/analyze.go:163-190 | through a zip or tar archive exactly the images of the members kept are reached; every member passed is kept whole or has its own warning, and members are left out only after a cap |
| `FirmwareLeaves.FittingArchiveIsItsMembers` | internal/firmware/analyze.go:163-190 | when all members have safe names, can be read and fit the caps, the images are those of every member in order, under its safe name, one level down, and the warnings are those of the members and the stream's error |
| `FirmwareLeaves.ImageReachesItself` | internal/firmware/analyze.go:212-214 | an image reaches itself alone, with the warnings of scanning it |
| `FirmwareLeaves.UnopenedReachesNothing` | internal/firmware/analyze.go:164-203 | a zip or gzip that does not open, and a stream that fails before the cap, reach nothing and leave exactly their own warning |
| `FirmwareLeaves.GzipReachesItsContent` | internal/firmware/analyze.go:191-211 | a readable gzip stream reaches what its content, cut at the cap, reaches under the name without its extension, or warns that it is too deep |
| `FirmwareLeaves.CertificatesAreTheLastOnes` | internal/firmware/analyze.go:634-645 | the certificates of a report are exactly the last of every fingerprint in the leaf images, through all levels of merging |
| `FirmwareLeaves.AlgorithmOccursIff` | internal/firmware/analyze.go:344-349 | an algorithm occurs in the leaves exactly when one shows it or holds a certificate that implies it |
| `FirmwareLeaves.RiskFollowsClasses` | internal/cryptoscan/detect.go:448-459 | the risk grows with the class of the status, and any other status is below all classes |
| `FirmwareLeaves.ReportsCoverLeaves` | internal/firmware/analyze.go:131-219 | an analysis makes at least one report per image reached |
| `ArchiveBudget.ExtractMembers` | internal/firmware/format.go:278-317 | the loop returns the entries, warnings and error of the specification, for zip and for tar |
| `ArchiveBudget.ExtractionFitsBudget` | internal/firmware/format.go:273-362 | at most N entries, at most B bytes in all, each a whole member under its safe name |
| `ArchiveBudget.EveryMemberIsAccountedFor` | internal/firmware/format.go:273-362 | each member passed is an entry, whole and in order, or has a warning that says what was wrong with it; extraction stops early exactly at the entry cap or at a readable member that does not fit the bytes left |
| `ArchiveBudget.EverythingIsExtractedIff` | internal/firmware/format.go:273-362 | all members come back whole, in order and without warning exactly when each has a safe name, can be read and fits both caps together with those before it |
| `IntelHex.Decode` | internal/firmware/format.go:225-240 | the bytes the digit pairs spell, or nothing for an odd length or a non-digit |
| `IntelHex.ParseLine` | internal/firmware/format.go:131-167 | one line adds exactly its payload, its record and its fault to the totals, or stops the file |
| `IntelHex.ParseIntelHex` | internal/firmware/format.go:126-169 | the loop gives the image, record count and bad count of the line-by-line specification |
| `IntelHex.PrintedRecordIsRead` | internal/firmware/format.go:139-166 | a printed record is read back with its payload, in either case, with or without carriage return |
| `IntelHex.BodySumsToZero` | internal/firmware/format.go:144-151 | the printed checksum makes the record sum to 0 modulo 256 |
| `IntelHex.ParseUndoesPrint` | internal/firmware/format.go:126-169 | any records with any addresses and extension records, then an end record and anything after it, parse to the concatenated payloads, the exact count and no bad record |
| `IntelHex.DecodeUpdated` | internal/firmware/format.go:225-240 | changing one digit changes exactly one byte, to a different one |
| `IntelHex.WrongDigitDropsOneRecord` | internal/firmware/format.go:139-163 | one changed digit loses exactly that record, reports one bad record and leaves all other bytes in place |
| `IntelHexLines.ClassifyExactly` | internal/firmware/format.go:131-166 | a line is bad exactly when it is not blank and is not a colon and the digits of a record with fitting length and checksum; a record is data, end or ignored by its type byte |
| `IntelHexLines.DecodeIff` | internal/firmware/format.go:225-252 | decoding gives a byte string exactly when the text is two hexadecimal digits, in either case, for each of its bytes |
| `IntelHexLines.LinesCount` | internal/firmware/format.go:126-169 | up to the first end record the image is the payloads in order, the record count the number of data lines and the bad count the number of bad ones |
| `IntelHexLines.SplitExactly` | internal/firmware/format.go:130 | the lines are what stands between the newlines |
| `TokenScan.ExtractStrings` | internal/cryptoscan/detect.go:20-44 | the first `max` printable runs of sufficient length, and the exact result when `max` is below one |
| `TokenScan.CapExceededIff` | internal/cryptoscan/detect.go:38-42 | more strings than the cap come back exactly when the cap is below one, single bytes count, and the first byte is printable |
| `TokenScan.RunsAreMaximal` | internal/cryptoscan/detect.go:20-44 | those runs are exactly the maximal printable runs of that length, in order |
| `TokenScan.IndexFrom` | internal/cryptoscan/detect.go:114 | the least occurrence from a position on, or none |
| `TokenScan.TokenContains` | internal/cryptoscan/detect.go:111-127 | true exactly when some occurrence starts the text or follows a non-alphanumeric byte |
| `TokenScan.AllToken` | internal/cryptoscan/detect.go:95-109 | the nonempty markers that occur as tokens, in the order given |
| `TokenScan.TokensStayInTheirString` | internal/cryptoscan/detect.go:53-56 | a newline-free marker is a token of the joined surface exactly when it is one of a single string |
| `TokenScan.JoiningIsFaithfulIff` | internal/cryptoscan/detect.go:53-56 | joining is faithful for a marker exactly when it contains no newline |
| `TokenScan.FoundMeans` | internal/cryptoscan/detect.go:95-109 | a newline-free marker is reported exactly when it was asked for, is nonempty and is a token of one string |
| `TokenScan.ExtractedAreRuns` | internal/cryptoscan/detect.go:20-44 | with a cap of at least one every string is a longest printable run of sufficient length, and below the cap every such run is extracted |
| `TokenScan.FoundInOrder` | internal/cryptoscan/detect.go:95-109 | reported markers stand in the order they were asked for |
| `Migrate.AttemptExtendsPrefix` | internal/database/migrate.go:153-172 | an attempt at the next migration leaves ledger and schema in step, failing anywhere |
| `Migrate.RunKeepsPrefix` | internal/database/migrate.go:140-179 | one run keeps the ledger a prefix and the schema its fold, never shrinks it, and on success completes it |
| `Migrate.LedgerIsAlwaysAPrefix` | internal/database/migrate.go:110-180 | over any sequence of failing runs of an append-only list the ledger is a prefix of the list, the schema its fold, and no drift is reported |
| `Migrate.SuccessIsAFaultFreeRun` | internal/database/migrate.go:110-180 | a finally successful run leaves exactly what one fault-free run on an empty database leaves |
| `Migrate.FurtherRunIsIdle` | internal/database/migrate.go:140-150 | a further run executes and changes nothing |
| `Migrate.DriftRunExecutedNothingIff` | internal/database/migrate.go:142-150 | drift names the first changed migration; the run executed nothing exactly when all migrations before it were applied |
| `Migrate.EditInPlaceDriftIsClean` | internal/database/migrate.go:142-150 | editing applied migrations in place is reported before anything is executed |
| `Migrate.DriftAfterExecution` | internal/database/migrate.go:140-172 | a new migration before a changed one is executed before the drift is reported |
| `Migrate.ReflowKeepsChecksum` | internal/database/migrate.go:38-45 | re-indenting a statement outside comments and quotes keeps the checksum |
| `Migrate.SameChecksumsAreIdle` | internal/database/migrate.go:142-150 | a fully migrated database accepts a reformatted list and executes nothing |
| `MigrateDrift.DriftIsReportedIff` | internal/database/migrate.go:140-150 | a run reports drift exactly when a changed migration is listed and the run of the list up to it succeeds; it names the first one and leaves what that shorter run leaves |
| `MigrateDrift.ChangedMigrationIsReported` | internal/database/migrate.go:142-150 | with everything before it applied and unchanged, a changed migration is reported and nothing is executed |
| `MigrateDrift.AttemptIsAtomic` | internal/database/migrate.go:153-172 | schema and ledger row change together, exactly when nothing stands in the way; success is reported exactly when the commit also says so |
| `MigrateDrift.FoldIsItsStatements` | internal/database/migrate.go:157-162 | the schema of an applied prefix is what its statements make, all of them in order and nothing else |
| `MigrateDrift.ExecOneByOne` | internal/database/migrate.go:157-162 | statements run one after another, and the first refusal ends the transaction |
| `MigrateDrift.ChecksumsAgreeIff` | internal/database/migrate.go:38-45 | two migrations have one checksum exactly when they have as many statements and these pairwise one normal form |
| `MigrateDrift.CommentMayDrift` | internal/database/migrate.go:60-67 | adding a comment to an applied statement can be reported as drift |
| `MigrateConcurrent.SoloIsRun` | internal/database/migrate.go:140-179 | an instance whose rounds nobody interleaves with does exactly the sequential run |
| `MigrateConcurrent.RoundFits` | internal/database/migrate.go:140-172 | one round of one instance, however stale what it read, keeps ledger and schema in step |
| `MigrateConcurrent.LedgerIsAPrefixOnEverySchedule` | internal/database/migrate.go:110-180 | with any number of instances interleaved by transaction the ledger stays a prefix of the list and the schema its fold; none reports drift, and one that succeeds has its release applied |
| `MigrateConcurrent.SuccessOnEverySchedule` | internal/database/migrate.go:110-180 | on any schedule an instance that succeeds with the whole list leaves what one fault-free run on an empty database leaves |
| `NormalizeSql.Normalize` | internal/database/migrate.go:50-107 | the loop with its three flags computes the scanner's output, trimmed |
| `NormalizeSql.ScanSplits` | internal/database/migrate.go:57-105 | scanning may be cut anywhere except between two characters that pair up |
| `NormalizeSql.ReflowingKeepsNormalForm` | internal/database/migrate.go:78-83 | outside comments and quotes any nonempty blank run may be replaced by any other |
| `NormalizeSql.CommentTextIsIgnored` | internal/database/migrate.go:60-67 | the text of a line comment may be replaced by any newline-free text |
| `NormalizeSql.ClosedQuoteIsVerbatim` | internal/database/migrate.go:68-76 | a closed dollar-quoted body is copied verbatim; only its surroundings are normalised |
| `NormalizeSql.BlanksAfterQuoteVanishIff` | internal/database/migrate.go:92-98 | blanks right after a closed quote leave no trace exactly when a blank was pending before it, or more blanks or nothing visible follow |
| `NormalizeSql.ClosingSpaceMayBeLost` | internal/database/migrate.go:92-98 | two literal statements that differ by a space after the closing quote have one normal form, and two others do not |
| `SqlComments.StrippingKeepsNormalFormIff` | internal/database/migrate.go:60-67 | stripping a line comment keeps the normal form exactly when no space is pending before it, or nothing visible stands before or after it |
| `SqlComments.CommentMayChangeNormalForm` | internal/database/migrate.go:60-67 | two literal statements that differ by a comment only have different normal forms |
| `SqlComments.LastCommentVanishes` | internal/database/migrate.go:60-67 | a comment at the end of the text leaves no trace |
| `SqlComments.CommentWritesASpace` | internal/database/migrate.go:60-91 | two dashes open a comment, which writes one space whatever its text and whatever came before |
| `SqlComments.OrdinaryTextIsNormal` | internal/database/migrate.go:78-104 | text without blanks, doubled dashes and doubled dollars is its own normal form |
| `RateLimiter.StateRepresentsHistory` | internal/middleware/ratelimit.go:47-68 | the two fields represent the full request history, or the ip's burst is over |
| `RateLimiter.AnswersFollowHistory` | internal/middleware/ratelimit.go:47-68 | with a monotone clock each answer is: first of its burst, or position at most the limit |
| `RateLimiter.RefusedIff` | internal/middleware/ratelimit.go:47-68 | a request is refused exactly when max(1, limit) requests of its ip precede it with no gap longer than the window from the first of them on |
| `RateLimiter.BurstIsLongest` | internal/middleware/ratelimit.go:58-64 | the position in a burst is the length of the longest run of requests without a gap longer than the window |
| `RateLimiter.CleanupIsUnobservable` | internal/middleware/ratelimit.go:33-68 | runs with the same requests give the same answers wherever cleanup ran |
| `RateLimiter.WindowAdmitsAtMostCap` | internal/middleware/ratelimit.go:47-68 | any interval of at most one window admits at most max(1, limit) requests of one ip |
| `FindingDedup.RuleIdFor` | internal/intelligence/fingerprint.go:44-77 | an assigned rule id is kept and none is ever empty |
| `FindingDedup.DedupFindings` | internal/intelligence/fingerprint.go:119-156 | the loop over the order list and the table computes the specification |
| `FindingDedup.FinalizeIsStable` | internal/intelligence/fingerprint.go:81-115 | a finalised finding has a rule id, its own fingerprint, and both sightings |
| `FindingDedup.SettledStays` | internal/intelligence/fingerprint.go:81-115 | finalising a finalised finding changes neither fingerprint nor merged values |
| `FindingDedup.GroupSignatureIsExtremal` | internal/intelligence/fingerprint.go:131-153 | per fingerprint: the maximum rank, minimum first sighting, maximum last sighting, and whether any is exploited |
| `FindingDedup.DedupSummarises` | internal/intelligence/fingerprint.go:119-156 | distinct fingerprints in first-occurrence order, each carrying the values of its whole group |
| `FindingDedup.DedupInBatches` | internal/intelligence/fingerprint.go:119-156 | deduplicating two batches together or each first gives the same fingerprints, order and values |
| `FindingDedup.DedupValuesIgnoreOrder` | internal/intelligence/fingerprint.go:119-156 | the values per fingerprint do not depend on input order |
| `FindingIdentity.StayApartIff` | internal/intelligence/fingerprint.go:119-156 | two findings of a list end up in one entry exactly when none of the nine normalised parts differs, as long as no part before the evidence holds a bar |
| `FindingIdentity.KeysAgreeIff` | internal/intelligence/fingerprint.go:17-42 | keys are equal exactly when scanner and rule id agree trimmed and lowered, algorithm and CVE trimmed and raised, location and component trimmed, key length and line as numbers, and compacted evidence |
| `FindingIdentity.BarsMayMerge` | internal/intelligence/fingerprint.go:19-29 | with bars in scanner and rule id two different findings are merged |
| `FindingIdentity.MergedOnce` | internal/intelligence/fingerprint.go:125-153 | every finding is merged into exactly one entry |
| `FindingIdentity.EntriesAreFirstAndWorst` | internal/intelligence/fingerprint.go:125-153 | an entry is the record of the first finding of its group with the severity and risk of the first of the most severe ones |
| `FindingIdentity.FinalizeFillsIn` | internal/intelligence/fingerprint.go:81-115 | finalising fills in what is missing and leaves every field that is set |
| `FindingIdentity.WordsAreSingleSpaced` | internal/intelligence/fingerprint.go:36-42 | evidence is reduced to its words with single spaces between, whatever blanks surround them |
| `FindingIdentity.CompactEvidenceIs` | internal/intelligence/fingerprint.go:36-42 | compacted evidence is the first 160 characters of its lower-case words, single-spaced |
| `FindingIdentity.DecimalIsInjective` | internal/intelligence/fingerprint.go:23-25 | two numbers print alike exactly when they are equal |
| `ArtifactGraph.AddThenLookup` | internal/cryptoart/artifact.go:109-134 | adding changes exactly one lookup |
| `ArtifactGraph.HistoriesStayValid` | internal/cryptoart/artifact.go:109-169 | every sequence of Add, Relate and Merge keeps index, edge set and slices in agreement |
| `ArtifactGraph.ViewIsInduced` | internal/cryptoart/artifact.go:185-224 | a view is exactly the induced subgraph in original order, and valid |
| `ArtifactGraph.ViewsAreIdempotentAndCommute` | internal/cryptoart/artifact.go:185-224 | viewing a view again changes nothing, and two views commute |
| `ArtifactGraph.EdgeKeysDecide` | internal/cryptoart/artifact.go:150 | NUL-free edge keys determine the edge |
| `ArtifactGraph.EdgeKeysCollideIff` | internal/cryptoart/artifact.go:150 | two edges of kinds without NUL share a key exactly when they are the same or one overlaps the other at a NUL |
| `ArtifactGraph.RelateAddsNothingIff` | internal/cryptoart/artifact.go:137-156 | relating two different stored objects adds nothing exactly when that edge exists or one of its kind overlaps it at a NUL |
| `ArtifactGraph.MergeIsUnion` | internal/cryptoart/artifact.go:159-169 | merging is union on ids, the right-hand object winning, and on edges |
| `ArtifactGraph.NulMayHideAnEdge` | internal/cryptoart/artifact.go:150-153 | a history in which a new edge between stored objects is dropped |
| `ArtifactViews.MinRiskIsAThreshold` | internal/cryptoart/artifact.go:182-213 | a minimum risk keeps exactly what stands at or above it in INFO, LOW, MEDIUM, HIGH, CRITICAL, whatever the letter case |
| `ArtifactViews.OtherRisksAreLowest` | internal/cryptoart/artifact.go:196-211 | a minimum that is no level keeps everything, and a risk that is no level counts as INFO |
| `ArtifactViews.FiltersAreIndependent` | internal/cryptoart/artifact.go:200-217 | an object is kept exactly when each filter alone keeps it, and what each of the others lets through |
| `ArtifactViews.ViewHoldsExactly` | internal/cryptoart/artifact.go:185-224 | a view holds exactly the objects its filters keep and the edges between two of them |
| `ArtifactViews.KeptInOrder` | internal/cryptoart/artifact.go:200-219 | what is kept stands in the order of the original |
| `ArtifactViews.AddKeepsPlaces` | internal/cryptoart/artifact.go:109-122 | adding changes only the place of that id, or appends one |
| `ArtifactViews.RelateAppends` | internal/cryptoart/artifact.go:137-156 | relating appends exactly that edge or changes nothing |
| `AuthStore.MemStore.constructor` | internal/authn/store.go:61-70 | an empty store: no user, session or token under any key |
| `AuthStore.MemStore.CreateUser` | internal/authn/store.go:72-87 | a taken normalised address is an error and changes nothing; otherwise exactly the two user indexes gain the record |
| `AuthStore.MemStore.UpdateUser` | internal/authn/store.go:89-108 | an unknown id is an error and changes nothing; otherwise the record is replaced and the old address key removed when the address changed |
| `AuthStore.MemStore.GetUserById` | internal/authn/store.go:110-118 | the stored record of the id, or not found |
| `AuthStore.MemStore.GetUserByEmail` | internal/authn/store.go:120-128 | the stored record of the normalised address, or not found |
| `AuthStore.MemStore.PutSession` | internal/authn/store.go:143-159 | creating and updating store a new record under both keys and change no other entry, for any record; both indexes stay on the same objects when id and digest are both new or both those of one session |
| `AuthStore.MemStore.GetSessionById` | internal/authn/store.go:161-170 | a copy of the record of the id, or invalid |
| `AuthStore.MemStore.GetSessionByHash` | internal/authn/store.go:172-181 | a copy of the record of the digest, which the id index holds too, or invalid |
| `AuthStore.MemStore.RevokeSessionsForUser` | internal/authn/store.go:197-208 | mutating records in place through the id index revokes exactly the unrevoked sessions of the user in both indexes and touches nothing else |
| `AuthStore.SessionRec.RevokeIfOwned` | internal/authn/store.go:202-205 | a record is stamped exactly when it is the user's and unrevoked |
| `AuthStore.MemStore.CreateToken` | internal/authn/store.go:210-216 | the token is stored under its digest; nothing else changes |
| `AuthStore.MemStore.GetToken` | internal/authn/store.go:218-227 | a copy of the token of the digest, or invalid |
| `AuthStore.MemStore.MarkTokenUsed` | internal/authn/store.go:229-239 | an unknown digest is an error; otherwise only that token becomes used |
| `AuthService.Service.Register` | internal/authn/service.go:140-179 | the heap code computes the reply and the whole new store that the specification gives, on every error path too |
| `AuthService.Service.VerifyEmail` | internal/authn/service.go:182-189 | the token is consumed before the account is marked verified |
| `AuthService.Service.Login` | internal/authn/service.go:193-227 | checks in the order of the source, then a challenge token or a session; who gets which is `AuthEffects.PairIffEntitled` and `AuthEffects.ChallengeIff` |
| `AuthService.Service.VerifyMFA` | internal/authn/service.go:231-243 | a wrong code does not consume the challenge |
| `AuthService.Service.Refresh` | internal/authn/service.go:247-304 | reuse revokes the family, expiry refuses, a lost or disabled owner revokes, otherwise the session rotates |
| `AuthService.Service.Rotate` | internal/authn/service.go:284-292 | the successor is stored first, then the presented session is written back revoked and linked to it |
| `AuthService.Service.Logout` | internal/authn/service.go:307-315 | idempotent, an unknown token succeeds |
| `AuthService.Service.ForgotPassword` | internal/authn/service.go:319-329 | an unknown address mints nothing |
| `AuthService.Service.ResetPassword` | internal/authn/service.go:333-363 | token consumed, password replaced, all sessions of the owner revoked, by `AuthEffects.EveryCallTakesEffect` |
| `AuthService.Service.ChangePassword` | internal/authn/service.go:366-383 | only the password of the caller changes |
| `AuthService.Service.SetupMFA` | internal/authn/service.go:387-406 | the secret is stored, MFA stays as it was |
| `AuthService.Service.ConfirmMFA` | internal/authn/service.go:409-419 | enabled only with a valid code |
| `AuthService.Service.DisableMFA` | internal/authn/service.go:422-433 | disabled only with the password, secret cleared |
| `AuthService.Service.DemoLogin` | internal/authn/service.go:437-446 | refused outside demo mode |
| `AuthService.Service.RevokeSession` | internal/authn/service.go:454-465 | only a session of that user |
| `AuthService.Service.EnsureExternalUser` | internal/authn/service.go:471-513 | existing accounts are returned or refused, new ones created verified |
| `AuthService.Service.IssueSession` | internal/authn/service.go:566-594 | the session is stored even when signing then fails |
| `AuthService.Service.IssueToken` | internal/authn/service.go:596-610 | one fresh unused token, sessions untouched |
| `AuthService.Service.LoadToken` | internal/authn/service.go:614-630 | the method agrees with the specification for every store state |
| `ScanFanout.Shared.Enter` | internal/discovery/scanner.go:61-67 | a critical section counts the target, and appends its results only without error |
| `ScanFanout.ComponentsFromFindings` | internal/discovery/scanner.go:161-190 | the loop keeps the first finding of every named algorithm and severity |
| `ScanFanout.DedupeComponents` | internal/discovery/scanner.go:193-208 | the loop keeps the first component of every key, in order |
| `ScanFanout.ComputeSummary` | internal/discovery/scanner.go:210-251 | the loops give the summary of the specification, whose counters `ScanCounts.SummaryCountsFindings` and `ScanCounts.SummaryCountsComponents` spell out |
| `ScanManager.Manager.constructor` | internal/discovery/scan_manager.go:46-54 | no jobs and no results |
| `ScanManager.Manager.Start` | internal/discovery/scan_manager.go:111-136 | a blocked target is refused and nothing changes; otherwise one new pending job under the normalised tenant |
| `ScanManager.Manager.Begin` | internal/discovery/scan_manager.go:139-142 | only this job: running, 10 |
| `ScanManager.Manager.MarkTargetsBuilt` | internal/discovery/scan_manager.go:149-151 | only this job: progress 30 |
| `ScanManager.Manager.End` | internal/discovery/scan_manager.go:155-184 | only this job fails or completes; a completed one is filed under its tenant and final asset id |
| `ScanManager.Manager.Finalise` | internal/discovery/scan_manager.go:158-180 | failed with the error and progress 0, or completed with result, 100 and the persisted asset id if any |
| `ScanManager.Manager.GetResult` | internal/discovery/scan_manager.go:97-102 | the report filed under the tenant's key |
| `ScanManager.Manager.GetScan` | internal/discovery/scan_manager.go:187-208 | a snapshot, only for the job's own tenant |
| `ScanManager.Manager.ListScans` | internal/discovery/scan_manager.go:214-227 | exactly the jobs that can be got by that tenant, each once |
| `Firmware.OpenContainer` | internal/firmware/analyze.go:163-211 | the three container branches hand on the members and warnings the specification gives, which `FirmwareLeaves.ArchiveReaches` and `FirmwareLeaves.FittingArchiveIsItsMembers` spell out |
| `Firmware.Report.Merge` | internal/firmware/analyze.go:505-528 | the child's lists are appended and one child line is added |
| `Firmware.Report.MeansLine` | internal/firmware/analyze.go:516-527 | the line kept about a child has its identity, its warnings, and exactly the names occurring in its leaves, ascending |
| `Firmware.Report.Finalize` | internal/firmware/analyze.go:343-359 | adding the certificates' algorithms and deduplicating gives the leaves' meaning, sorted, with the highest risk; children and warnings stay |
| `Firmware.DeriveAll` | internal/firmware/analyze.go:344-349 | one algorithm finding per name each certificate implies, in order |
| `IntelHex.AddUp` | internal/firmware/format.go:144-147 | the wrapping byte sum is the sum modulo 256 |
| `Migrate.Database.ReadLedger` | internal/database/migrate.go:121-138 | the map from applied id to recorded checksum |
| `Migrate.Database.Apply` | internal/database/migrate.go:153-172 | one transaction: all statements, the ledger row and the commit, or no change; an ambiguous commit applies and reports an error |
| `Migrate.Database.ApplyMigrations` | internal/database/migrate.go:110-180 | the runner's database, outcome and executed ids are those of the specification under any faults |
| `RateLimiter.Limiter.constructor` | internal/middleware/ratelimit.go:23-31 | no visitors, the given limit and window |
| `RateLimiter.Limiter.Allow` | internal/middleware/ratelimit.go:47-68 | the answer and the visitor table of the two-field specification; only this ip's entry changes |
| `RateLimiter.Limiter.Cleanup` | internal/middleware/ratelimit.go:33-45 | exactly the visitors idle for more than the window are dropped |
| `ArtifactGraph.Graph.constructor` | internal/cryptoart/artifact.go:93-98 | an empty graph |
| `ArtifactGraph.Graph.AddObject` | internal/cryptoart/artifact.go:109-122 | a blank id changes nothing, a known one replaces in place, a new one is appended and indexed |
| `ArtifactGraph.Graph.Get` | internal/cryptoart/artifact.go:125-134 | the object the index leads to, or none |
| `ArtifactGraph.Graph.RelateObjects` | internal/cryptoart/artifact.go:137-156 | an edge is added exactly when its ends differ, exist, and its key is new |
| `ArtifactGraph.Graph.MergeFrom` | internal/cryptoart/artifact.go:159-169 | all objects and then all relations of the other graph, which may be the same graph |
| `ArtifactGraph.Graph.RelateEach` | internal/cryptoart/artifact.go:166-168 | relations are added one by one in order |
| `ArtifactGraph.Graph.ViewOf` | internal/cryptoart/artifact.go:185-224 | a new graph built from the kept objects and then all relations; the original is unchanged |

## Left out

- HTTP handlers, middleware plumbing, the SQL stores, JWT claims and signing, password policy, TOTP and domain rules:
  library or I/O behaviour, abstracted where a result of theirs matters.
- Seeding of bootstrap and demo users, listing of users and sessions, and the raw `UpdateUser` of a caller-made
  record; names, roles, editions, user agents and audit times of records.
- nil receivers and nil arguments (`nil` user, database, logger, graph), and failures of a store other than the
  in-memory one.
- At most one successful refresh or redemption when store calls interleave: check and write are separate store calls
  (`internal/authn/service.go:248-290`), so these are claimed for atomic service calls only.
- AuthService.Service.IssueSession: the access token is reduced to whether signing succeeded.
- Which targets a scan has (`buildTargets`), what a single scanner finds, and deadlines.
- ScanFanout.ScanAll: workers are modelled by the order of their critical sections; Go's memory model below the mutex
  is not.
- Firmware.DedupeFindings: API, protocol and rule findings, which the source deduplicates in the same way, and the
  order of markers, which are sets here.
- Firmware.AnalyzeDepth: the CBOM, PQC plan and graph of a report, its ids and times.
- S-records, format detection and ELF parsing.
- ArchiveBudget.ExtractMembers: `safeArchiveName` is an arbitrary function here.
- FindingDedup.RuleIdFor: the contract does not repeat the catalogue that picks an id for a finding without one.
- FindingDedup.DedupFindings: labels, ids and the hash over the fingerprint key, which here is the key itself.
- Whether normalising SQL twice changes anything.
- The logging, timing and ledger metadata of a migration run beyond id, name and checksum, and statements of several
  instances interleaved within a transaction.
- The HTTP middleware around the limiter, and the timer that triggers its cleanup.
- `SortedObjects` of the graph, and attributes of graph objects that no filter reads.
- The other marker searches (`Has`, `All`) and the catalogs: finite tables.
