# velero-plugin-for-openstack, modelled in Dafny

This project models three parts of the OpenStack plugin for Velero.

- **The string helpers** (`src/utils/helpers.go`):
  - `ReplaceAccount` rewrites the account segment of a Swift endpoint path.
  - `CompareMicroversions` parses two `"major.minor"` Manila microversions and compares them with `lte` or `gte`.
- **The Manila shared-filesystem store** (`src/manila/fs_store.go`):
  - `Init` builds the client and negotiates the microversion.
  - The access-rule lookup picks the legacy or the versioned listing.
  - The status waiters.
  - The readiness check.
  - The PersistentVolume handle accessors.
  - Snapshot creation.
  - The six steps of `CreateVolumeFromSnapshot`.
- **The test driver** (`main.go`):
  - Flag validation.
  - The snapshot-then-clone session, with its deferred deletions.
  - The `clone`-method gate.
  - The Manila and Cinder clone checks.

Files:

- `Wrappers.dfy`: `Option` and `Result`.
- `Decimal.dfy`: decimal digit strings, as `\d+` matches them, `strconv.Atoi` reads them and `%d` prints them.
- `Helpers.dfy`: the helpers. `ReplaceAccount` is a method with the source's nested loops, proved against the function `ReplacedPath`.
- `Manila.dfy`:
  - `ServiceClient` and `FSStore` are classes whose fields `Init` updates.
  - A wait is a method looping over the poll replies, proved against the function `Wait`.
  - `CreateVolumeFromSnapshot` is a method proved against the function `CloneFromSnapshot`.
- `Orchestrator.dfy`: the driver as methods that build a trace of the calls they make. Each method is proved equal to a specification function (`RunSpec`, `SessionSpec`, `ManilaCloneFlow`, ...), and lemmas state the properties of those functions.

The backend is never called. Every reply is a parameter:

- In the Manila store, each OpenStack request has its reply passed in. For a wait, that is the sequence of poll replies that arrive before the deadline. `CreateSnapshot` and `CreateVolumeFromSnapshot` also return the requests they issued. The other operations take their replies without recording the requests behind them: authentication, client creation and the version query in `Init`, the share fetch in `IsVolumeReady`, and the access-rule listing in `GetShareAccessRule` and `SetVolumeID`.
- In the driver, the store and the OpenStack calls made beside it are one function from a call to its reply (`Orchestrator.Store`).

The run's only deletions are two `DeleteSnapshot` calls: one with the clone's ID once the clone exists, then one with the source snapshot's ID (`Orchestrator.CleanupAfterClone`, `Orchestrator.CleanupAfterFailedClone`). The Manila store sends every `DeleteSnapshot` to the share-snapshot API (src/manila/fs_store.go:277), so the clone's removal is requested there with a share ID, and no call goes to the share API. The clone share can therefore be left behind, and so are the test snapshots and the replica made while exercising the clone (`Orchestrator.CloneFlowDeletesNothing`).

`SetVolumeID` reads `spec.csi.driver` without checking that `spec.csi` exists, and writes into `spec.csi.volumeAttributes` without checking that the map exists. In Go both panic. The model returns `Panics` in those two cases rather than an error.

## Model

| member | source | states |
|---|---|---|
| Helpers.GetEnv | src/utils/helpers.go:15-20 | a variable that is set wins even when set to ""; otherwise the fallback |
| Helpers.JoinSplit | src/utils/helpers.go:24-33 | joining the pieces of a split with the same separator gives the string back |
| Helpers.SplitJoin | src/utils/helpers.go:24-33 | splitting the join of separator-free pieces gives the pieces back |
| Helpers.RewriteFirstAt | src/utils/helpers.go:26-31 | the inner loop rewrites the lowest-index part that starts with the prefix to prefix+account, and only it |
| Helpers.RewriteFirstNoMatch | src/utils/helpers.go:26-31 | with no part starting with the prefix, the inner loop changes nothing |
| Helpers.RewriteFirstOnlyMatching | src/utils/helpers.go:26-31 | a part the inner loop changes started with the prefix and became prefix+account |
| Helpers.RewriteAllKeepsUnmatched | src/utils/helpers.go:25-32 | a segment that starts with no prefix keeps its content and its position |
| Helpers.RewriteAllNoMatch | src/utils/helpers.go:25-32 | when no segment starts with any prefix, the parts are unchanged |
| Helpers.NoSlashAfterRewrite | src/utils/helpers.go:25-32 | rewriting with a '/'-free account and prefixes never puts a '/' into a part |
| Helpers.ReplacedPathUnchangedWithoutMatch | src/utils/helpers.go:23-34 | if no segment of the path starts with any prefix, the path comes back unchanged |
| Helpers.ReplacedPathSegments | src/utils/helpers.go:23-34 | when neither the account nor any prefix contains '/', the result splits into exactly the rewritten parts, so the number of segments is preserved |
| Helpers.ReplaceAccountExistingPrefix | src/utils/helpers_test.go:15-21 | the test endpoint ending in "AUTH_randomstring1234" with prefixes "AUTH_", "SERVICE_" gets "AUTH_john-doe" as its last segment and nothing else changes |
| Helpers.ReplaceAccountMissingPrefix | src/utils/helpers_test.go:22-28 | with only the prefix "IMAGE_", which no segment starts with, the test endpoint comes back unchanged |
| Helpers.ReplaceAccountWithoutScheme | src/utils/helpers_test.go:29-35 | the endpoint without a scheme ending in "SERVICE_randomstring1234" gets "SERVICE_john-doe" as its last segment |
| Helpers.ReplaceAccount | src/utils/helpers.go:23-34 | the in-place nested loops compute the prefix-by-prefix rewrite of the split path, joined again; with no matching segment the input is returned |
| Helpers.LaterPrefixSeesEarlierRewrite | src/utils/helpers.go:25-32 | a later prefix matches the segment an earlier prefix has just rewritten ("a1/a2" with "a" then "ab" gives "abb/a2") |
| Helpers.Atoi | src/utils/helpers.go:72-73 | the number a digit run denotes, or the largest 64-bit int when it does not fit (the range error is dropped) |
| Helpers.LastMatchAtOrBelow | src/utils/helpers.go:11 | the largest first-group length not above k at which the pattern matches, none when there is none |
| Helpers.GroupSplit | src/utils/helpers.go:11 | the greedy first group ends at the largest split that still matches; there is none exactly when the pattern does not match |
| Helpers.ParseMicroversion | src/utils/helpers.go:68-80 | the result is ok exactly when the string is digits, one non-newline character, digits; otherwise the invalid-microversion error; both numbers lie in 0..MaxInt |
| Helpers.CompareMicroversions | src/utils/helpers.go:36-66 | a bad operator fails before any parsing; then want, then have is checked; lte is lexicographic at-most on (major, minor), gte lexicographic at-least |
| Helpers.LteIsSwappedGte | src/utils/helpers.go:51-65 | lte(want, have) fails exactly when gte(have, want) does, and equals it on valid inputs |
| Helpers.CompareReflexive | src/utils/helpers_test.go:62-73 | every valid microversion compared with itself is true under both operators |
| Helpers.CompareTotal | src/utils/helpers.go:51-65 | of two valid microversions, want is at most have or at least have |
| Helpers.ParseDigitRuns | src/utils/helpers.go:68-80 | any two non-empty digit runs around one separator that is neither a digit nor a newline parse to the two numbers they denote, leading zeros included |
| Helpers.LeadingZeroIgnored | src/utils/helpers.go:68-80 | "2.07" parses to the same microversion as "2.7", namely (2, 7) |
| Helpers.ParseFormatted | src/utils/helpers.go:68-80 | two printed numbers joined by any non-digit, non-newline separator parse back to the two numbers |
| Helpers.GroupSplitAtSeparator | src/utils/helpers.go:11 | with one non-digit separator between two digit runs, the first group ends at that separator |
| Helpers.AllDigitsMicroversion | src/utils/helpers.go:11 | a digit run with no separator still matches: "245" parses as 2 and 5 |
| Helpers.ParseExamples | src/utils/helpers_test.go:52-74 | the microversions of the package's tests parse to the expected pairs |
| Helpers.CompareExamples | src/utils/helpers_test.go:52-82 | every case of the package's comparison test gives the expected answer |
| Decimal.ValueOfFormat | src/utils/helpers.go:72-73 | reading a printed number gives the number back |
| Decimal.FormatInjective | main.go:129 | distinct numbers print differently |
| Manila.PollOnce | src/manila/fs_store.go:391-404 | a poll is done exactly when the fetched status equals the requested one; a fetch error stops the wait with that error |
| Manila.WaitFromOutcome | src/manila/fs_store.go:391-419 | a wait polls in order and stops at the first poll that fails or matches; it times out only after all polls succeeded with another status |
| Manila.WaitMatchesOnlyRequestedStatus | src/manila/fs_store.go:406-419 | a wait only ever returns a polled resource with the requested status |
| Manila.WaitForStatus | src/manila/fs_store.go:391-419 | the polling loop returns the outcome and the number of polls the wait specification gives |
| Manila.ToAccessRight | src/manila/fs_store.go:365-376 | a versioned rule is copied field for field: ID, share ID, access key, level, to, type and state |
| Manila.FirstRule | src/manila/fs_store.go:360-377 | the first rule of either listing shape, normalised; none for an empty listing |
| Manila.GetShareAccessRule | src/manila/fs_store.go:346-381 | the legacy listing is used exactly at microversion "2.7"; the first rule is returned; a list failure and an empty list are errors |
| Manila.Lookup | src/manila/fs_store.go:65-69 | a missing configuration key reads as "" |
| Manila.ResolveRegion | src/manila/fs_store.go:66-73 | OS_REGION_NAME when set, even to ""; else a non-empty configured region; else "RegionOne" |
| Manila.AccessRulesMicroversionParses | src/manila/fs_store.go:26 | "2.45" parses as (2, 45) |
| Manila.NegotiatedMicroversion | src/manila/fs_store.go:86-100 | "2.45" exactly when the version query succeeded with a valid microversion at least 2.45, "2.7" otherwise; the legacy listing is used exactly at "2.7" |
| Manila.CloneStopsAtFirstFailure | src/manila/fs_store.go:129-192 | the clone makes one request per step up to its first failing step, fails exactly when a step fails, names that step in its error, and returns the new share ID on success |
| Manila.CloneRequestArguments | src/manila/fs_store.go:123-182 | wait for the snapshot; fetch its share; list that share's rules; create a share of the snapshot's protocol and size, in the requested AZ, named `<snapshot>.backup.<suffix>`, from the snapshot, with the origin's metadata; wait for it; grant it the origin's rule |
| Manila.ServiceClient.constructor | src/manila/fs_store.go:74-76 | a new client for the given region |
| Manila.FSStore.constructor | src/manila/fs_store.go:39-44 | the driver name is MANILA_DRIVER_NAME when set, else the default CSI Manila driver; no client yet |
| Manila.FSStore.Init | src/manila/fs_store.go:51-106 | the configuration is recorded; an authentication failure is returned; the client is rebuilt only when absent or a cloud is named, for the resolved region and with the negotiated microversion; a failed version query is not an error |
| Manila.FSStore.CreateSnapshot | src/manila/fs_store.go:240-267 | one create request named `<volume>.snap.<suffix>` with the fixed description; it does not wait; the snapshot ID or an error naming the snapshot and volume |
| Manila.FSStore.CreateVolumeFromSnapshot | src/manila/fs_store.go:111-193 | the method returns the result and the requests of the clone specification |
| Manila.FSStore.IsVolumeReady | src/manila/fs_store.go:214-236 | ready with no error exactly when the share is "available"; otherwise not ready, with the fetch error or the share's status |
| Manila.FSStore.GetVolumeID | src/manila/fs_store.go:287-309 | "" without a CSI section, the volume handle when the driver matches, "" for any other driver |
| Manila.FSStore.SetVolumeID | src/manila/fs_store.go:312-344 | a driver mismatch is an error; a rule lookup error is returned; on success the handle, shareID and shareAccessID are set and nothing else changes; no CSI section or no attribute map panics |
| Manila.FSStore.SetThenGetVolumeID | src/manila/fs_store.go:298-336 | after a successful SetVolumeID, GetVolumeID reads back the share ID |
| Orchestrator.ParseStorageType | main.go:57-64 | "manila" and "cinder" choose their store; anything else chooses none |
| Orchestrator.StopAtFirstFailureShape | main.go:143-150 | the calls made are a prefix of the list; all but the last succeeded; success exactly when all were made and succeeded; otherwise the last call made failed |
| Orchestrator.StopAtFirstFailureAllSucceed | main.go:143-150 | when every call succeeds, all are made |
| Orchestrator.StopAtFirstFailureFailsAt | main.go:143-150 | when call m is the first to fail, calls 0..m are made and the run fails |
| Orchestrator.StopAtFirstFailureAppend | main.go:152-197 | running two lists one after the other runs the second only when all of the first succeeded |
| Orchestrator.StopAtFirstFailureFirst | main.go:143-150 | the first call is made, and the rest only when it succeeded |
| Orchestrator.CreateTestSnapshotsCalls | main.go:128-141 | test snapshots i, i+1, ... are created in order, each named `test snapshot from <id> <i>` |
| Orchestrator.CreateTestSnapshotsOutcome | main.go:128-141 | the IDs are the replies of the successful creates; all snapshots are created on success; otherwise the last create made failed |
| Orchestrator.WaitCalls | main.go:143-145 | one wait per ID, in the same order |
| Orchestrator.CreateTestSnapshots | main.go:128-141 | the creation loop makes the calls and collects the IDs of the creation specification |
| Orchestrator.WaitForSnapshots | main.go:143-150 | the waiting loop waits in creation order and stops at the first failed wait |
| Orchestrator.TestSnapshotRound | main.go:128-150 | create the test snapshots, then wait for them only when all were created |
| Orchestrator.ProcessManilaClone | main.go:124-198 | the snapshot round, then the replica steps only when the round succeeded |
| Orchestrator.ExerciseReplica | main.go:152-197 | create the replica, wait for it, and with sync resync and promote it; every failure ends the flow |
| Orchestrator.SyncAndPromote | main.go:173-197 | resync, wait, promote, wait, stopping at the first failure |
| Orchestrator.ProcessCinderClone | main.go:200-231 | the snapshot round, then the five-second pause only when the round succeeded |
| Orchestrator.Run | main.go:46-122 | a missing volume ID or an unknown storage type is fatal before any call; otherwise the session runs and main returns |
| Orchestrator.FlagDefaults | main.go:36-55 | with every flag at its default the run is fatal for want of a volume ID before any call; given only a volume ID, it runs the Manila store with the "clone" method and one test snapshot |
| Orchestrator.Session | main.go:66-121 | `Init` with the configuration `RunConfig` (main.go:66-79), then snapshot, clone, and the exercise for the clone method, with deletions deferred once each resource exists and made last in, first out |
| Orchestrator.SnapshotRoundCalls | main.go:128-150 | the round's k-th call is the create of test snapshot k+1 of the source, named as at main.go:129, until the creates stop; each later call waits on the ID the matching create returned, in creation order; the waits never outnumber the IDs returned |
| Orchestrator.ReplicaFlowCalls | main.go:152-197 | the replica part first asks for a replica of the clone in the given zone; if that fails nothing else is called; otherwise every later call is a wait, resync or promotion on the ID that request returned |
| Orchestrator.ManilaFlowOnlyExercises | main.go:124-198 | the Manila clone flow makes no init, snapshot, clone or delete call |
| Orchestrator.CinderFlowOnlyExercises | main.go:200-231 | the Cinder clone flow makes no init, snapshot, clone or delete call |
| Orchestrator.TestSnapshotNamesDistinct | main.go:129 | test snapshots with different indices get different names |
| Orchestrator.SnapshotOnlyAfterInit | main.go:80-90 | the volume is snapshotted exactly when the flags are valid and Init succeeded |
| Orchestrator.CloneOnlyOfCreatedSnapshot | main.go:86-103 | the clone is requested once, as the third call, of the snapshot just created |
| Orchestrator.CloneFlowDeletesNothing | main.go:124-231 | exercising the clone deletes nothing |
| Orchestrator.NothingToCleanUp | main.go:80-90 | a run that did not create the snapshot deletes nothing |
| Orchestrator.CleanupAfterFailedClone | main.go:92-103 | when cloning fails, the snapshot alone is deleted, as the last call |
| Orchestrator.CleanupAfterClone | main.go:92-121 | once the clone exists, the run ends by requesting the clone's removal through `DeleteSnapshot` with the clone's ID, which the Manila store sends to the snapshot API, then `DeleteSnapshot` with the snapshot's ID; it makes no other deletion, whatever the deletions reply |
| Orchestrator.OnlyCloneMethodExercisesClone | main.go:112-121 | with another method the run is at most init, snapshot, clone and the two deletions |
| Orchestrator.FatalExactlyOnBadFlags | main.go:53-64 | the run is fatal exactly when the volume ID is empty or the storage type unknown, and then makes no call; otherwise it starts with Init |
| Orchestrator.SnapshotRoundSucceeded | main.go:128-150 | a successful round made 2*N calls and all succeeded |
| Orchestrator.SnapshotRoundOrder | main.go:128-150 | a successful round created snapshots 1..N in order, then waited on each, by the ID its create returned, in creation order |
| Orchestrator.SnapshotRoundFailed | main.go:128-150 | a failed round ends with its only failing call |
| Orchestrator.ReplicaOnlyAfterSnapshotsAvailable | main.go:143-162 | the replica is requested only after every snapshot was created and seen available, right after the last wait |
| Orchestrator.SyncStepsPromote | main.go:175-192 | the replica is promoted exactly when its resync and the wait after it succeed |
| Orchestrator.NoSyncNoPromotion | main.go:169-171 | without sync the replica is never resynced or promoted |
| Orchestrator.PromotedExactlyWhen | main.go:152-197 | the replica is promoted exactly when sync is set and the round, the replica wait, the resync and its wait all succeeded |

## Left out

- Logging is left out. So is the text of error messages. Errors are constructors carrying the values the Go messages print. The fatal messages of `main` are kept.
- Authentication, `openstack.NewSharedFileSystemV2`, the version query and every gophercloud request are network calls. Their replies are parameters.
- Manila.FSStore.Init: after a failed client creation the model leaves the store without a client. In Go the library returns a non-nil empty client beside the error, and the store keeps it (src/manila/fs_store.go:74-79). So in Go a later `Init` without a named cloud keeps that empty client and skips the rebuild, while the model, holding no client, rebuilds it.
- Manila.FSStore.Init: the provider client that authentication fills in is not modelled.
- The deadline loop of `gophercloud.WaitFor` is library code. A wait is given the finite sequence of poll replies that arrive before its deadline. The clock and the sleeps between polls are not modelled.
- The `rand.Uint64` name suffix is a parameter.
- Manila.WaitForStatus: a wait that matches returns the matched resource. The source returns the captured `current` together with the result of `gophercloud.WaitFor` in one statement. The model assumes `current` is read after that call, which is what the gc compiler does; the Go specification leaves the order open.
- The process environment is a parameter: `MANILA_DRIVER_NAME` and `OS_REGION_NAME`.
- The conversion between unstructured objects and PersistentVolumes is not modelled. A PV is a record holding the CSI fields the store reads and writes, so the conversion errors are not modelled either.
- `GetVolumeInfo` is left out: a single fetch outside the decisions modelled here.
- The Manila store's own `DeleteSnapshot` is left out: a single request. In the driver it is the `DeleteSnapshot` call in the trace.
- `src/manila/export.go`, `src/cinder/export.go` and the Cinder block store are not part of this model. The driver sees the Cinder store, and the waits these files add, only through its replies.
- Flag parsing is a record of the flag values. The `-d` debug flag only changes logging.
- `store.Client()` is not a call in the trace. The OpenStack calls that `processManilaClone` and `processCinderClone` make with it are replies of the same function as the store's.
- Orchestrator.Store: identical calls get identical replies. A run in which the same call (for example, two waits on the same ID) gets different replies is not modelled.
- Orchestrator.CreateTestSnapshots: the counter is unbounded. With the flag at the largest `uint`, Go's loop condition never fails and the counter wraps around. That case is not modelled.
- `time.Sleep(5 * time.Second)` is the `Sleep(5)` call in the trace.
- Process exit codes are not modelled. `main` returns normally on every non-fatal failure, which is the `Returned` exit.
- The program is sequential; no concurrency is modelled.
