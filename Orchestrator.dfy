/**
 * The test driver (main.go): validate the flags, pick a store, initialise it,
 * snapshot the source volume, clone the snapshot, then, for the "clone"
 * method, exercise the clone with test snapshots (and, for Manila, a replica).
 * On the way out it calls `DeleteSnapshot` with the clone's ID, then with the
 * snapshot's ID. The Manila store sends both to the share-snapshot API, so the
 * clone's removal is requested there with a share ID.
 *
 * The store and the OpenStack calls made beside it are one function from a
 * call to its reply, passed in; every run returns the calls it made, in order.
 */
module Orchestrator {
  import opened Wrappers
  import Decimal

  datatype Backend = Manila | Cinder

  /** The command-line flags the driver reads. */
  datatype Options = Options(
    volId: string, storageType: string, snapshotMethod: string, nSnap: nat,
    sync: bool, region: string, az: string)

  /** The flag defaults: no volume, "manila", "clone", one test snapshot, no sync. */
  const DefaultOptions: Options := Options("", "manila", "clone", 1, false, "", "")

  const VolumeIdRequired: string := "source share volume id must be set"

  /** Everything the driver asks of the outside world, in the order it asks. */
  datatype Call =
    | Init(config: map<string, string>)
    | CreateSnapshot(volumeId: string)
    | CreateVolumeFromSnapshot(snapshotId: string, volumeAz: string)
    | DeleteSnapshot(deleteId: string)
    | CreateShareSnapshot(shareId: string, name: string)
    | CreateVolumeSnapshot(sourceVolumeId: string, snapshotName: string)
    | WaitForSnapshotStatus(waitId: string)
    | CreateReplica(replicaShareId: string, az: string)
    | WaitForReplicaStatus(replicaId: string)
    | ResyncReplica(resyncId: string)
    | WaitForReplicaSyncState(syncId: string)
    | PromoteReplica(promoteId: string)
    | WaitForReplicaActiveState(activeId: string)
    | Sleep(seconds: nat)

  /** The reply to each call: the ID a create returns, or an error. */
  type Store = Call -> Result<string, string>

  /** `log.Fatalf` ends the process; every other exit is a plain return from `main`. */
  datatype Exit = Fatal(message: string) | Returned

  datatype Execution = Execution(exit: Exit, trace: seq<Call>)

  /** Calls made one after another, and whether all of them succeeded. */
  datatype Progress = Progress(trace: seq<Call>, ok: bool)

  /** The test snapshots created so far, their IDs, and whether all were created. */
  datatype Created = Created(trace: seq<Call>, ids: seq<string>, ok: bool)

  function ParseStorageType(storageType: string): (b: Option<Backend>)
    ensures b == Some(Manila) <==> storageType == "manila"
    ensures b == Some(Cinder) <==> storageType == "cinder"
  {
    if storageType == "manila" then Some(Manila)
    else if storageType == "cinder" then Some(Cinder)
    else None
  }

  /** The configuration `main` hands to `Init`. */
  function RunConfig(snapshotMethod: string, region: string): map<string, string> {
    map[
      "cascadeDelete" := "true",
      "cloneTimeout" := "20m",
      "enforceAZ" := "true",
      "ensureDeleted" := "true",
      "ensureDeletedDelay" := "10s",
      "method" := snapshotMethod,
      "region" := region,
      "replicaTimeout" := "20m",
      "shareTimeout" := "20m",
      "snapshotTimeout" := "20m",
      "backupTimeout" := "20m",
      "imageTimeout" := "20m"
    ]
  }

  function TestSnapshotName(source: string, i: nat): string {
    "test snapshot from " + source + " " + Decimal.Format(i)
  }

  /** The i-th test snapshot: a share snapshot for Manila, a volume snapshot for Cinder. */
  function TestSnapshotCall(backend: Backend, source: string, i: nat): Call {
    match backend
    case Manila => CreateShareSnapshot(source, TestSnapshotName(source, i))
    case Cinder => CreateVolumeSnapshot(source, TestSnapshotName(source, i))
  }

  // ---------------------------------------------------------------------------
  // Specification functions
  // ---------------------------------------------------------------------------

  /** Make `calls` in order, stopping after the first one that fails. */
  function StopAtFirstFailure(calls: seq<Call>, store: Store): Progress {
    if calls == [] then Progress([], true)
    else if store(calls[0]).Err? then Progress([calls[0]], false)
    else
      var rest := StopAtFirstFailure(calls[1..], store);
      Progress([calls[0]] + rest.trace, rest.ok)
  }

  /**
   * The calls made are a prefix of `calls`; all but the last succeeded; the
   * run is a success exactly when every call was made and succeeded, and
   * otherwise the last call made is the one that failed.
   */
  lemma {:induction false} StopAtFirstFailureShape(calls: seq<Call>, store: Store)
    ensures var r := StopAtFirstFailure(calls, store);
      && |r.trace| <= |calls| && r.trace == calls[..|r.trace|]
      && (forall k :: 0 <= k < |r.trace| - 1 ==> store(r.trace[k]).Ok?)
      && (r.ok <==> |r.trace| == |calls| && forall k :: 0 <= k < |calls| ==> store(calls[k]).Ok?)
      && (!r.ok ==> |r.trace| > 0 && store(r.trace[|r.trace| - 1]).Err?)
    decreases |calls|
  {
    if calls != [] && store(calls[0]).Ok? {
      var tail := calls[1..];
      StopAtFirstFailureShape(tail, store);
      var rest := StopAtFirstFailure(tail, store);
      var r := StopAtFirstFailure(calls, store);
      assert r.trace == [calls[0]] + rest.trace;
      assert calls[..|r.trace|] == [calls[0]] + tail[..|rest.trace|];
      forall k | 0 <= k < |r.trace| - 1
        ensures store(r.trace[k]).Ok?
      {
        if k > 0 {
          assert r.trace[k] == rest.trace[k - 1];
        }
      }
      if |rest.trace| == |tail| && forall k :: 0 <= k < |tail| ==> store(tail[k]).Ok? {
        forall k | 0 <= k < |calls|
          ensures store(calls[k]).Ok?
        {
          if k > 0 {
            assert calls[k] == tail[k - 1];
          }
        }
      }
      if forall k :: 0 <= k < |calls| ==> store(calls[k]).Ok? {
        forall k | 0 <= k < |tail|
          ensures store(tail[k]).Ok?
        {
          assert tail[k] == calls[k + 1];
        }
      }
      if !r.ok {
        assert r.trace[|r.trace| - 1] == rest.trace[|rest.trace| - 1];
      }
    }
  }

  /** When every call succeeds, all of them are made. */
  lemma StopAtFirstFailureAllSucceed(calls: seq<Call>, store: Store)
    requires forall k :: 0 <= k < |calls| ==> store(calls[k]).Ok?
    ensures StopAtFirstFailure(calls, store) == Progress(calls, true)
  {
    StopAtFirstFailureShape(calls, store);
    assert calls[..|calls|] == calls;
  }

  /** When call `m` is the first to fail, calls 0..`m` are made and the run fails. */
  lemma StopAtFirstFailureFailsAt(calls: seq<Call>, store: Store, m: nat)
    requires m < |calls|
    requires forall k :: 0 <= k < m ==> store(calls[k]).Ok?
    requires store(calls[m]).Err?
    ensures StopAtFirstFailure(calls, store) == Progress(calls[..m + 1], false)
  {
    StopAtFirstFailureShape(calls, store);
    var r := StopAtFirstFailure(calls, store);
    assert !r.ok;
    assert |r.trace| == m + 1;
  }

  /** Running `a + b` runs `a`, then `b` only when all of `a` succeeded. */
  lemma {:induction false} StopAtFirstFailureAppend(a: seq<Call>, b: seq<Call>, store: Store)
    ensures var first := StopAtFirstFailure(a, store);
      var second := StopAtFirstFailure(b, store);
      StopAtFirstFailure(a + b, store)
        == if first.ok then Progress(a + second.trace, second.ok) else first
    decreases |a|
  {
    if a == [] {
      assert a + b == b;
    } else {
      assert (a + b)[0] == a[0];
      assert (a + b)[1..] == a[1..] + b;
      StopAtFirstFailureAppend(a[1..], b, store);
      if store(a[0]).Ok? && StopAtFirstFailure(a[1..], store).ok {
        assert a == [a[0]] + a[1..];
      }
    }
  }

  /** One step of `StopAtFirstFailure`: the first call, then the rest unless it failed. */
  lemma StopAtFirstFailureFirst(calls: seq<Call>, store: Store)
    requires |calls| > 0
    ensures var rest := StopAtFirstFailure(calls[1..], store);
      StopAtFirstFailure(calls, store)
        == if store(calls[0]).Err? then Progress([calls[0]], false)
           else Progress([calls[0]] + rest.trace, rest.ok)
  {
  }

  /**
   * Create test snapshots `i`..`count` of `source`, stopping at the first
   * failed create; the IDs are those of the snapshots created.
   */
  function CreateTestSnapshotsFrom(backend: Backend, source: string, i: nat, count: nat, store: Store): Created
    requires 1 <= i <= count + 1
    decreases count + 1 - i
  {
    if i == count + 1 then Created([], [], true)
    else
      var create := TestSnapshotCall(backend, source, i);
      match store(create)
      case Err(_) => Created([create], [], false)
      case Ok(id) =>
        var rest := CreateTestSnapshotsFrom(backend, source, i + 1, count, store);
        Created([create] + rest.trace, [id] + rest.ids, rest.ok)
  }

  /** The creates are made for snapshots `i`, `i`+1, ... in order. */
  lemma {:induction false} CreateTestSnapshotsCalls(backend: Backend, source: string, i: nat, count: nat, store: Store)
    requires 1 <= i <= count + 1
    ensures var r := CreateTestSnapshotsFrom(backend, source, i, count, store);
      && |r.trace| <= count + 1 - i
      && forall k :: 0 <= k < |r.trace| ==> r.trace[k] == TestSnapshotCall(backend, source, i + k)
    decreases count + 1 - i
  {
    if i <= count && store(TestSnapshotCall(backend, source, i)).Ok? {
      CreateTestSnapshotsCalls(backend, source, i + 1, count, store);
      var rest := CreateTestSnapshotsFrom(backend, source, i + 1, count, store);
      CreatesFrom(rest.trace, backend, source, i);
    }
  }

  /** Prepending the create of snapshot `i` to the creates of `i`+1, ... */
  lemma CreatesFrom(rest: seq<Call>, backend: Backend, source: string, i: nat)
    requires forall k :: 0 <= k < |rest| ==> rest[k] == TestSnapshotCall(backend, source, i + 1 + k)
    ensures var t := [TestSnapshotCall(backend, source, i)] + rest;
      forall k :: 0 <= k < |t| ==> t[k] == TestSnapshotCall(backend, source, i + k)
  {
    var t := [TestSnapshotCall(backend, source, i)] + rest;
    forall k | 0 <= k < |t|
      ensures t[k] == TestSnapshotCall(backend, source, i + k)
    {
      if k > 0 {
        assert t[k] == rest[k - 1];
      }
    }
  }

  /**
   * The IDs are the replies of the successful creates; all of `i`..`count`
   * are created when the run succeeds, and otherwise the last create made is
   * the one that failed.
   */
  lemma {:induction false} CreateTestSnapshotsOutcome(backend: Backend, source: string, i: nat, count: nat, store: Store)
    requires 1 <= i <= count + 1
    ensures var r := CreateTestSnapshotsFrom(backend, source, i, count, store);
      && |r.ids| <= |r.trace|
      && (forall k :: 0 <= k < |r.ids| ==> store(r.trace[k]) == Ok(r.ids[k]))
      && (r.ok ==> |r.ids| == |r.trace| == count + 1 - i)
      && (!r.ok ==> |r.trace| == |r.ids| + 1 && store(r.trace[|r.ids|]).Err?)
    decreases count + 1 - i
  {
    if i <= count && store(TestSnapshotCall(backend, source, i)).Ok? {
      CreateTestSnapshotsOutcome(backend, source, i + 1, count, store);
      var r := CreateTestSnapshotsFrom(backend, source, i, count, store);
      var rest := CreateTestSnapshotsFrom(backend, source, i + 1, count, store);
      assert r.trace == [TestSnapshotCall(backend, source, i)] + rest.trace;
      assert r.ids == [store(TestSnapshotCall(backend, source, i)).value] + rest.ids;
      forall k | 0 <= k < |r.ids|
        ensures store(r.trace[k]) == Ok(r.ids[k])
      {
        if k > 0 {
          assert r.trace[k] == rest.trace[k - 1] && r.ids[k] == rest.ids[k - 1];
        }
      }
    }
  }

  function WaitCalls(ids: seq<string>): (calls: seq<Call>)
    ensures |calls| == |ids|
    ensures forall k :: 0 <= k < |ids| ==> calls[k] == WaitForSnapshotStatus(ids[k])
  {
    seq(|ids|, k requires 0 <= k < |ids| => WaitForSnapshotStatus(ids[k]))
  }

  /** The part both clone checks share: create `count` test snapshots, then wait for each in turn. */
  function SnapshotRound(backend: Backend, source: string, count: nat, store: Store): Progress {
    var created := CreateTestSnapshotsFrom(backend, source, 1, count, store);
    if !created.ok then Progress(created.trace, false)
    else
      var waited := StopAtFirstFailure(WaitCalls(created.ids), store);
      Progress(created.trace + waited.trace, waited.ok)
  }

  /** Resync a replica and promote it, waiting after each. */
  function SyncSteps(replicaId: string): seq<Call> {
    [ResyncReplica(replicaId), WaitForReplicaSyncState(replicaId),
     PromoteReplica(replicaId), WaitForReplicaActiveState(replicaId)]
  }

  /** What is done with a new replica: wait for it, and with sync resync it and promote it. */
  function ReplicaSteps(replicaId: string, sync: bool): seq<Call> {
    [WaitForReplicaStatus(replicaId)] + (if sync then SyncSteps(replicaId) else [])
  }

  /** Replicate the clone into `az`, then take the new replica through its steps. */
  function ReplicaFlow(cloneId: string, az: string, sync: bool, store: Store): seq<Call> {
    var create := CreateReplica(cloneId, az);
    match store(create)
    case Err(_) => [create]
    case Ok(replicaId) => [create] + StopAtFirstFailure(ReplicaSteps(replicaId, sync), store).trace
  }

  /** `processManilaClone`: the snapshot round, then the replica when the round succeeded. */
  function ManilaCloneFlow(cloneId: string, count: nat, az: string, sync: bool, store: Store): seq<Call> {
    var round := SnapshotRound(Manila, cloneId, count, store);
    if round.ok then round.trace + ReplicaFlow(cloneId, az, sync, store) else round.trace
  }

  /** `processCinderClone`: the snapshot round, then a five-second pause when it succeeded. */
  function CinderCloneFlow(cloneId: string, count: nat, store: Store): seq<Call> {
    var round := SnapshotRound(Cinder, cloneId, count, store);
    if round.ok then round.trace + [Sleep(5)] else round.trace
  }

  function CloneFlow(backend: Backend, opts: Options, cloneId: string, store: Store): seq<Call> {
    match backend
    case Manila => ManilaCloneFlow(cloneId, opts.nSnap, opts.az, opts.sync, store)
    case Cinder => CinderCloneFlow(cloneId, opts.nSnap, store)
  }

  /**
   * `main` once the flags are valid: initialise, snapshot, clone, exercise the
   * clone for the "clone" method. Once the snapshot exists a `DeleteSnapshot` of
   * its ID is deferred, and once the clone exists so is a `DeleteSnapshot` of
   * the clone's ID; deferred deletions run last in, first out.
   */
  function SessionSpec(backend: Backend, opts: Options, store: Store): seq<Call> {
    var init := Init(RunConfig(opts.snapshotMethod, opts.region));
    var createSnapshot := CreateSnapshot(opts.volId);
    if store(init).Err? then [init]
    else match store(createSnapshot)
      case Err(_) => [init, createSnapshot]
      case Ok(snapId) =>
        var createVolume := CreateVolumeFromSnapshot(snapId, opts.az);
        match store(createVolume)
        case Err(_) => [init, createSnapshot, createVolume, DeleteSnapshot(snapId)]
        case Ok(cloneId) =>
          var flow := if opts.snapshotMethod == "clone" then CloneFlow(backend, opts, cloneId, store) else [];
          [init, createSnapshot, createVolume] + flow + [DeleteSnapshot(cloneId), DeleteSnapshot(snapId)]
  }

  /** `main`: the flags are checked before anything is called. */
  function RunSpec(opts: Options, store: Store): Execution {
    if opts.volId == "" then Execution(Fatal(VolumeIdRequired), [])
    else match ParseStorageType(opts.storageType)
    case None => Execution(Fatal("unknown storage type: " + opts.storageType), [])
    case Some(backend) => Execution(Returned, SessionSpec(backend, opts, store))
  }

  // ---------------------------------------------------------------------------
  // The driver
  // ---------------------------------------------------------------------------

  /** The creation loop shared by `processManilaClone` and `processCinderClone`. */
  method CreateTestSnapshots(backend: Backend, source: string, count: nat, store: Store)
    returns (trace: seq<Call>, ids: seq<string>, ok: bool)
    ensures Created(trace, ids, ok) == CreateTestSnapshotsFrom(backend, source, 1, count, store)
  {
    trace, ids := [], [];
    var i := 1;
    while i <= count
      invariant 1 <= i <= count + 1
      invariant var rest := CreateTestSnapshotsFrom(backend, source, i, count, store);
        CreateTestSnapshotsFrom(backend, source, 1, count, store) == Created(trace + rest.trace, ids + rest.ids, rest.ok)
    {
      var create := TestSnapshotCall(backend, source, i);
      var snap := store(create);
      ghost var rest := CreateTestSnapshotsFrom(backend, source, i + 1, count, store);
      if snap.Err? {
        return trace + [create], ids, false;
      }
      assert trace + ([create] + rest.trace) == trace + [create] + rest.trace;
      assert ids + ([snap.value] + rest.ids) == ids + [snap.value] + rest.ids;
      trace, ids := trace + [create], ids + [snap.value];
      i := i + 1;
    }
    ok := true;
    assert trace + [] == trace && ids + [] == ids;
  }

  /** The waiting loop shared by `processManilaClone` and `processCinderClone`. */
  method WaitForSnapshots(ids: seq<string>, store: Store) returns (trace: seq<Call>, ok: bool)
    ensures Progress(trace, ok) == StopAtFirstFailure(WaitCalls(ids), store)
  {
    ghost var calls := WaitCalls(ids);
    trace := [];
    for j := 0 to |ids|
      invariant StopAtFirstFailure(calls, store) == var rest := StopAtFirstFailure(calls[j..], store);
        Progress(trace + rest.trace, rest.ok)
    {
      var wait := WaitForSnapshotStatus(ids[j]);
      ghost var rest := StopAtFirstFailure(calls[j + 1..], store);
      StopAtFirstFailureFirst(calls[j..], store);
      assert calls[j..][0] == wait && calls[j..][1..] == calls[j + 1..];
      if store(wait).Err? {
        return trace + [wait], false;
      }
      assert trace + ([wait] + rest.trace) == (trace + [wait]) + rest.trace;
      trace := trace + [wait];
    }
    assert calls[|ids|..] == [];
    assert trace + [] == trace;
    ok := true;
  }

  /** The snapshot round: create the test snapshots, then wait for each. */
  method TestSnapshotRound(backend: Backend, source: string, count: nat, store: Store) returns (trace: seq<Call>, ok: bool)
    ensures Progress(trace, ok) == SnapshotRound(backend, source, count, store)
  {
    var ids;
    trace, ids, ok := CreateTestSnapshots(backend, source, count, store);
    if !ok {
      return;
    }
    var waits;
    waits, ok := WaitForSnapshots(ids, store);
    trace := trace + waits;
  }

  /** `processManilaClone(cloneId)`. */
  method ProcessManilaClone(cloneId: string, count: nat, az: string, sync: bool, store: Store) returns (trace: seq<Call>)
    ensures trace == ManilaCloneFlow(cloneId, count, az, sync, store)
  {
    var ok;
    trace, ok := TestSnapshotRound(Manila, cloneId, count, store);
    if !ok {
      return;
    }
    var replicaTrace := ExerciseReplica(cloneId, az, sync, store);
    trace := trace + replicaTrace;
  }

  /** The replica part of `processManilaClone`; every step returns on failure. */
  method ExerciseReplica(cloneId: string, az: string, sync: bool, store: Store) returns (trace: seq<Call>)
    ensures trace == ReplicaFlow(cloneId, az, sync, store)
  {
    var create := CreateReplica(cloneId, az);
    trace := [create];
    var replica := store(create);
    if replica.Err? {
      return;
    }
    var id := replica.value;
    var wait := WaitForReplicaStatus(id);
    ghost var rest := if sync then SyncSteps(id) else [];
    StopAtFirstFailureAppend([wait], rest, store);
    trace := trace + [wait];
    if store(wait).Err? || !sync {
      return;
    }
    var synced := SyncAndPromote(id, store);
    trace := trace + synced;
  }

  /** The sync branch of `processManilaClone`: resync, wait, promote, wait. */
  method SyncAndPromote(id: string, store: Store) returns (trace: seq<Call>)
    ensures trace == StopAtFirstFailure(SyncSteps(id), store).trace
  {
    var resync := ResyncReplica(id);
    var syncWait := WaitForReplicaSyncState(id);
    var promote := PromoteReplica(id);
    var activeWait := WaitForReplicaActiveState(id);
    StopAtFirstFailureAppend([resync, syncWait], [promote, activeWait], store);
    assert SyncSteps(id) == [resync, syncWait] + [promote, activeWait];
    StopAtFirstFailureAppend([resync], [syncWait], store);
    assert [resync, syncWait] == [resync] + [syncWait];
    StopAtFirstFailureAppend([promote], [activeWait], store);
    assert [promote, activeWait] == [promote] + [activeWait];

    trace := [resync];
    if store(resync).Err? {
      return;
    }
    trace := trace + [syncWait];
    if store(syncWait).Err? {
      return;
    }
    trace := trace + [promote];
    if store(promote).Err? {
      return;
    }
    trace := trace + [activeWait];
  }

  /** `processCinderClone(cloneId)`. */
  method ProcessCinderClone(cloneId: string, count: nat, store: Store) returns (trace: seq<Call>)
    ensures trace == CinderCloneFlow(cloneId, count, store)
  {
    var ok;
    trace, ok := TestSnapshotRound(Cinder, cloneId, count, store);
    if !ok {
      return;
    }
    trace := trace + [Sleep(5)];
  }

  /** `main`: validate the flags, choose the store, run the session. */
  method Run(opts: Options, store: Store) returns (exit: Exit, trace: seq<Call>)
    ensures Execution(exit, trace) == RunSpec(opts, store)
  {
    if opts.volId == "" {
      return Fatal(VolumeIdRequired), [];
    }
    var backend := ParseStorageType(opts.storageType);
    if backend.None? {
      return Fatal("unknown storage type: " + opts.storageType), [];
    }
    trace := Session(backend.value, opts, store);
    exit := Returned;
  }

  /**
   * The body of `main` after the store is chosen. Deferred deletions are
   * pushed on the front of `deferred` and made front to back on return.
   */
  method Session(backend: Backend, opts: Options, store: Store) returns (trace: seq<Call>)
    ensures trace == SessionSpec(backend, opts, store)
  {
    var init := Init(RunConfig(opts.snapshotMethod, opts.region));
    trace := [init];
    if store(init).Err? {
      return;
    }

    var createSnapshot := CreateSnapshot(opts.volId);
    trace := trace + [createSnapshot];
    var snap := store(createSnapshot);
    if snap.Err? {
      return;
    }
    var deferred := [DeleteSnapshot(snap.value)];

    var createVolume := CreateVolumeFromSnapshot(snap.value, opts.az);
    trace := trace + [createVolume];
    var clone := store(createVolume);
    if clone.Err? {
      return trace + deferred;
    }
    deferred := [DeleteSnapshot(clone.value)] + deferred;

    var flow := [];
    if opts.snapshotMethod == "clone" {
      match backend {
        case Manila =>
          flow := ProcessManilaClone(clone.value, opts.nSnap, opts.az, opts.sync, store);
        case Cinder =>
          flow := ProcessCinderClone(clone.value, opts.nSnap, store);
      }
      assert flow == CloneFlow(backend, opts, clone.value, store);
    }
    assert trace == [init, createSnapshot, createVolume];
    trace := trace + flow + deferred;
  }

  // ---------------------------------------------------------------------------
  // Properties
  // ---------------------------------------------------------------------------

  /** The deletions a trace contains, in order. */
  function Deletions(trace: seq<Call>): (d: seq<Call>)
    ensures |d| <= |trace|
  {
    if trace == [] then []
    else (if trace[0].DeleteSnapshot? then [trace[0]] else []) + Deletions(trace[1..])
  }

  lemma {:induction false} DeletionsAppend(a: seq<Call>, b: seq<Call>)
    ensures Deletions(a + b) == Deletions(a) + Deletions(b)
    decreases |a|
  {
    if a == [] {
      assert a + b == b;
    } else {
      assert (a + b)[0] == a[0];
      assert (a + b)[1..] == a[1..] + b;
      DeletionsAppend(a[1..], b);
    }
  }

  lemma {:induction false} NoDeletions(trace: seq<Call>)
    requires forall k :: 0 <= k < |trace| ==> !trace[k].DeleteSnapshot?
    ensures Deletions(trace) == []
    decreases |trace|
  {
    if trace != [] {
      NoDeletions(trace[1..]);
    }
  }

  /**
   * The snapshot round only creates the test snapshots of its source, in
   * order, and then waits on the IDs those creates returned, in the same order.
   */
  lemma SnapshotRoundCalls(backend: Backend, source: string, count: nat, store: Store)
    ensures var round := SnapshotRound(backend, source, count, store);
      var created := CreateTestSnapshotsFrom(backend, source, 1, count, store);
      && |created.ids| <= |created.trace| <= |round.trace| <= |created.trace| + |created.ids|
      && (forall j :: 0 <= j < |created.ids| ==> store(round.trace[j]) == Ok(created.ids[j]))
      && (forall k :: 0 <= k < |created.trace| ==> round.trace[k] == TestSnapshotCall(backend, source, k + 1))
      && (forall k :: |created.trace| <= k < |round.trace| ==>
            round.trace[k] == WaitForSnapshotStatus(created.ids[k - |created.trace|]))
  {
    RoundCreates(backend, source, count, store);
    RoundReplies(backend, source, count, store);
    RoundWaitsAfterCreates(backend, source, count, store);
  }

  /** The round begins with the creates, which are of test snapshots 1, 2, ... */
  lemma RoundCreates(backend: Backend, source: string, count: nat, store: Store)
    ensures var round := SnapshotRound(backend, source, count, store);
      var created := CreateTestSnapshotsFrom(backend, source, 1, count, store);
      && |created.trace| <= |round.trace|
      && forall k :: 0 <= k < |created.trace| ==> round.trace[k] == TestSnapshotCall(backend, source, k + 1)
  {
    var created := CreateTestSnapshotsFrom(backend, source, 1, count, store);
    CreateTestSnapshotsCalls(backend, source, 1, count, store);
    CreatesBefore(created.trace, RoundWaits(backend, source, count, store), backend, source);
  }

  /** Test-snapshot creates followed by other calls: where each create sits. */
  lemma CreatesBefore(a: seq<Call>, rest: seq<Call>, backend: Backend, source: string)
    requires forall k :: 0 <= k < |a| ==> a[k] == TestSnapshotCall(backend, source, 1 + k)
    ensures |a| <= |a + rest|
    ensures forall k :: 0 <= k < |a| ==> (a + rest)[k] == TestSnapshotCall(backend, source, k + 1)
  {
    forall k | 0 <= k < |a|
      ensures (a + rest)[k] == TestSnapshotCall(backend, source, k + 1)
    {
      assert (a + rest)[k] == a[k];
    }
  }

  /** The first calls of the round returned the created IDs. */
  lemma RoundReplies(backend: Backend, source: string, count: nat, store: Store)
    ensures var round := SnapshotRound(backend, source, count, store);
      var created := CreateTestSnapshotsFrom(backend, source, 1, count, store);
      && |created.ids| <= |created.trace| <= |round.trace|
      && forall j :: 0 <= j < |created.ids| ==> store(round.trace[j]) == Ok(created.ids[j])
  {
    var created := CreateTestSnapshotsFrom(backend, source, 1, count, store);
    CreateTestSnapshotsOutcome(backend, source, 1, count, store);
    RepliesBefore(created.trace, RoundWaits(backend, source, count, store), created.ids, store);
  }

  /** Calls that returned `ids` followed by other calls keep those replies. */
  lemma RepliesBefore(a: seq<Call>, rest: seq<Call>, ids: seq<string>, store: Store)
    requires |ids| <= |a|
    requires forall j :: 0 <= j < |ids| ==> store(a[j]) == Ok(ids[j])
    ensures |ids| <= |a| <= |a + rest|
    ensures forall j :: 0 <= j < |ids| ==> store((a + rest)[j]) == Ok(ids[j])
  {
    forall j | 0 <= j < |ids|
      ensures store((a + rest)[j]) == Ok(ids[j])
    {
      assert (a + rest)[j] == a[j];
    }
  }

  /** After the creates, the round waits on the created IDs in order. */
  lemma RoundWaitsAfterCreates(backend: Backend, source: string, count: nat, store: Store)
    ensures var round := SnapshotRound(backend, source, count, store);
      var created := CreateTestSnapshotsFrom(backend, source, 1, count, store);
      && |created.trace| <= |round.trace| <= |created.trace| + |created.ids|
      && forall k :: |created.trace| <= k < |round.trace| ==>
           round.trace[k] == WaitForSnapshotStatus(created.ids[k - |created.trace|])
  {
    var created := CreateTestSnapshotsFrom(backend, source, 1, count, store);
    WaitsAfter(created.trace, RoundWaits(backend, source, count, store), created.ids);
  }

  /** Calls followed by waits on a prefix of `ids`: where each wait sits. */
  lemma WaitsAfter(a: seq<Call>, rest: seq<Call>, ids: seq<string>)
    requires |rest| <= |ids|
    requires forall k :: 0 <= k < |rest| ==> rest[k] == WaitForSnapshotStatus(ids[k])
    ensures |a| <= |a + rest| <= |a| + |ids|
    ensures forall k :: |a| <= k < |a + rest| ==> (a + rest)[k] == WaitForSnapshotStatus(ids[k - |a|])
  {
  }

  /** The waits of the snapshot round: a prefix of the waits on the created IDs. */
  function RoundWaits(backend: Backend, source: string, count: nat, store: Store): (rest: seq<Call>)
    ensures var created := CreateTestSnapshotsFrom(backend, source, 1, count, store);
      && SnapshotRound(backend, source, count, store).trace == created.trace + rest
      && |rest| <= |created.ids|
      && forall k :: 0 <= k < |rest| ==> rest[k] == WaitForSnapshotStatus(created.ids[k])
  {
    var created := CreateTestSnapshotsFrom(backend, source, 1, count, store);
    if created.ok then
      var waits := WaitCalls(created.ids);
      StopAtFirstFailureShape(waits, store);
      StopAtFirstFailure(waits, store).trace
    else []
  }

  /** The snapshot round makes only test-snapshot creates and snapshot waits. */
  lemma SnapshotRoundKinds(backend: Backend, source: string, count: nat, store: Store)
    ensures var round := SnapshotRound(backend, source, count, store);
      forall k :: 0 <= k < |round.trace| ==>
        round.trace[k].CreateShareSnapshot? || round.trace[k].CreateVolumeSnapshot? || round.trace[k].WaitForSnapshotStatus?
  {
    var round := SnapshotRound(backend, source, count, store);
    var created := CreateTestSnapshotsFrom(backend, source, 1, count, store);
    SnapshotRoundCalls(backend, source, count, store);
    forall k | 0 <= k < |round.trace|
      ensures round.trace[k].CreateShareSnapshot? || round.trace[k].CreateVolumeSnapshot? || round.trace[k].WaitForSnapshotStatus?
    {
      if k < |created.trace| {
        assert round.trace[k] == TestSnapshotCall(backend, source, k + 1);
      }
    }
  }

  /** A step taken with the replica `replicaId`. */
  predicate ReplicaStep(c: Call, replicaId: string) {
    || c == WaitForReplicaStatus(replicaId) || c == ResyncReplica(replicaId)
    || c == WaitForReplicaSyncState(replicaId) || c == PromoteReplica(replicaId)
    || c == WaitForReplicaActiveState(replicaId)
  }

  /**
   * The replica part first asks for the replica. When that fails nothing else
   * is done; otherwise every later call is a step taken with the replica it got.
   */
  lemma ReplicaFlowCalls(cloneId: string, az: string, sync: bool, store: Store)
    ensures var flow := ReplicaFlow(cloneId, az, sync, store);
      var create := CreateReplica(cloneId, az);
      && |flow| >= 1 && flow[0] == create
      && (store(create).Err? ==> |flow| == 1)
      && (store(create).Ok? ==> forall k :: 1 <= k < |flow| ==> ReplicaStep(flow[k], store(create).value))
  {
    var create := CreateReplica(cloneId, az);
    if store(create).Ok? {
      var replicaId := store(create).value;
      var steps := ReplicaSteps(replicaId, sync);
      assert forall k :: 0 <= k < |steps| ==> ReplicaStep(steps[k], replicaId);
      StopAtFirstFailureShape(steps, store);
      var tail := StopAtFirstFailure(steps, store).trace;
      forall k | 1 <= k < |ReplicaFlow(cloneId, az, sync, store)|
        ensures ReplicaStep(ReplicaFlow(cloneId, az, sync, store)[k], replicaId)
      {
        assert ReplicaFlow(cloneId, az, sync, store)[k] == steps[k - 1];
      }
    }
  }

  /** `processManilaClone` only exercises the clone. */
  lemma ManilaFlowOnlyExercises(cloneId: string, count: nat, az: string, sync: bool, store: Store)
    ensures var flow := ManilaCloneFlow(cloneId, count, az, sync, store);
      forall k :: 0 <= k < |flow| ==> ExercisesClone(flow[k])
  {
    var flow := ManilaCloneFlow(cloneId, count, az, sync, store);
    var round := SnapshotRound(Manila, cloneId, count, store);
    SnapshotRoundKinds(Manila, cloneId, count, store);
    ReplicaFlowCalls(cloneId, az, sync, store);
    var tail := if round.ok then ReplicaFlow(cloneId, az, sync, store) else [];
    assert flow == round.trace + tail;
    forall k | 0 <= k < |flow|
      ensures ExercisesClone(flow[k])
    {
      if k < |round.trace| {
        assert flow[k] == round.trace[k];
      } else {
        assert flow[k] == tail[k - |round.trace|];
      }
    }
  }

  /** `processCinderClone` only exercises the clone. */
  lemma CinderFlowOnlyExercises(cloneId: string, count: nat, store: Store)
    ensures var flow := CinderCloneFlow(cloneId, count, store);
      forall k :: 0 <= k < |flow| ==> ExercisesClone(flow[k])
  {
    var flow := CinderCloneFlow(cloneId, count, store);
    var round := SnapshotRound(Cinder, cloneId, count, store);
    SnapshotRoundKinds(Cinder, cloneId, count, store);
    var tail := if round.ok then [Sleep(5)] else [];
    assert flow == round.trace + tail;
    forall k | 0 <= k < |flow|
      ensures ExercisesClone(flow[k])
    {
      if k < |round.trace| {
        assert flow[k] == round.trace[k];
      } else {
        assert flow[k] == tail[k - |round.trace|];
      }
    }
  }

  /** A call made only to exercise a clone. */
  predicate ExercisesClone(c: Call) {
    !(c.Init? || c.CreateSnapshot? || c.CreateVolumeFromSnapshot? || c.DeleteSnapshot?)
  }

  /** Whether `main` got as far as creating the snapshot, and its ID. */
  function SnapshotMade(opts: Options, store: Store): Option<string> {
    if opts.volId != "" && ParseStorageType(opts.storageType).Some?
       && store(Init(RunConfig(opts.snapshotMethod, opts.region))).Ok?
       && store(CreateSnapshot(opts.volId)).Ok?
    then Some(store(CreateSnapshot(opts.volId)).value)
    else None
  }

  /** Whether `main` got as far as cloning the snapshot, and the clone's ID. */
  function CloneMade(opts: Options, store: Store): Option<string> {
    match SnapshotMade(opts, store)
    case None => None
    case Some(snapId) =>
      var clone := store(CreateVolumeFromSnapshot(snapId, opts.az));
      if clone.Ok? then Some(clone.value) else None
  }

  /** Test snapshots get distinct names: the whole index is printed. */
  lemma TestSnapshotNamesDistinct(source: string, i: nat, j: nat)
    requires i != j
    ensures TestSnapshotName(source, i) != TestSnapshotName(source, j)
  {
    var prefix := "test snapshot from " + source + " ";
    assert TestSnapshotName(source, i)[|prefix|..] == Decimal.Format(i);
    assert TestSnapshotName(source, j)[|prefix|..] == Decimal.Format(j);
    Decimal.FormatInjective(i, j);
  }

  /** `main` snapshots the volume exactly when the flags are valid and `Init` succeeded. */
  lemma SnapshotOnlyAfterInit(opts: Options, store: Store)
    ensures CreateSnapshot(opts.volId) in RunSpec(opts, store).trace <==>
      opts.volId != "" && ParseStorageType(opts.storageType).Some?
      && store(Init(RunConfig(opts.snapshotMethod, opts.region))).Ok?
  {
    if opts.volId != "" && ParseStorageType(opts.storageType).Some?
       && store(Init(RunConfig(opts.snapshotMethod, opts.region))).Ok? {
      assert RunSpec(opts, store).trace[1] == CreateSnapshot(opts.volId);
    }
  }

  /** `main` clones once, third, and only the snapshot it has just created. */
  lemma CloneOnlyOfCreatedSnapshot(opts: Options, store: Store, k: nat)
    requires k < |RunSpec(opts, store).trace|
    requires RunSpec(opts, store).trace[k].CreateVolumeFromSnapshot?
    ensures k == 2
    ensures SnapshotMade(opts, store) == Some(RunSpec(opts, store).trace[k].snapshotId)
  {
    var trace := RunSpec(opts, store).trace;
    if CloneMade(opts, store).Some? {
      var snapId := SnapshotMade(opts, store).value;
      var cloneId := CloneMade(opts, store).value;
      var backend := ParseStorageType(opts.storageType).value;
      var head := [Init(RunConfig(opts.snapshotMethod, opts.region)), CreateSnapshot(opts.volId),
                   CreateVolumeFromSnapshot(snapId, opts.az)];
      var flow := if opts.snapshotMethod == "clone" then CloneFlow(backend, opts, cloneId, store) else [];
      if opts.snapshotMethod == "clone" {
        if backend == Manila {
          ManilaFlowOnlyExercises(cloneId, opts.nSnap, opts.az, opts.sync, store);
        } else {
          CinderFlowOnlyExercises(cloneId, opts.nSnap, store);
        }
      }
      assert trace == head + flow + [DeleteSnapshot(cloneId), DeleteSnapshot(snapId)];
      assert forall j :: 3 <= j < 3 + |flow| ==> trace[j] == flow[j - 3];
    }
  }

  /**
   * The flag defaults: with no volume ID the run is fatal; given only a volume
   * ID, it uses the Manila store, the "clone" method and one test snapshot.
   */
  lemma FlagDefaults(volId: string, store: Store)
    ensures RunSpec(DefaultOptions, store) == Execution(Fatal(VolumeIdRequired), [])
    ensures volId != "" ==>
      RunSpec(DefaultOptions.(volId := volId), store)
        == Execution(Returned, SessionSpec(Manila, Options(volId, "manila", "clone", 1, false, "", ""), store))
  {
  }

  /** Exercising the clone deletes nothing. */
  lemma CloneFlowDeletesNothing(backend: Backend, opts: Options, cloneId: string, store: Store)
    ensures Deletions(CloneFlow(backend, opts, cloneId, store)) == []
  {
    var flow := CloneFlow(backend, opts, cloneId, store);
    if backend == Manila {
      ManilaFlowOnlyExercises(cloneId, opts.nSnap, opts.az, opts.sync, store);
    } else {
      CinderFlowOnlyExercises(cloneId, opts.nSnap, store);
    }
    NoDeletions(flow);
  }

  /** Cleanup: a run that did not get to create the snapshot deletes nothing. */
  lemma NothingToCleanUp(opts: Options, store: Store)
    requires SnapshotMade(opts, store).None?
    ensures Deletions(RunSpec(opts, store).trace) == []
  {
    NoDeletions(RunSpec(opts, store).trace);
  }

  /** Cleanup: when cloning fails, the snapshot is deleted, last, and nothing else is. */
  lemma CleanupAfterFailedClone(opts: Options, store: Store)
    requires SnapshotMade(opts, store).Some? && CloneMade(opts, store).None?
    ensures var trace := RunSpec(opts, store).trace;
      && Deletions(trace) == [DeleteSnapshot(SnapshotMade(opts, store).value)]
      && trace[|trace| - 1] == DeleteSnapshot(SnapshotMade(opts, store).value)
  {
    var snapId := SnapshotMade(opts, store).value;
    var head := [Init(RunConfig(opts.snapshotMethod, opts.region)), CreateSnapshot(opts.volId),
                 CreateVolumeFromSnapshot(snapId, opts.az)];
    NoDeletions(head);
    DeletionsAppend(head, [DeleteSnapshot(snapId)]);
    assert RunSpec(opts, store).trace == head + [DeleteSnapshot(snapId)];
  }

  /**
   * Cleanup: once the clone exists, the run ends by requesting the clone's
   * removal through `DeleteSnapshot` with its ID, then the snapshot's, and
   * makes no other deletion.
   */
  lemma CleanupAfterClone(opts: Options, store: Store)
    requires CloneMade(opts, store).Some?
    ensures var trace := RunSpec(opts, store).trace;
      var deletes := [DeleteSnapshot(CloneMade(opts, store).value), DeleteSnapshot(SnapshotMade(opts, store).value)];
      Deletions(trace) == deletes && |trace| >= 2 && trace[|trace| - 2..] == deletes
  {
    var snapId := SnapshotMade(opts, store).value;
    var cloneId := CloneMade(opts, store).value;
    var backend := ParseStorageType(opts.storageType).value;
    var head := [Init(RunConfig(opts.snapshotMethod, opts.region)), CreateSnapshot(opts.volId),
                 CreateVolumeFromSnapshot(snapId, opts.az)];
    var flow := if opts.snapshotMethod == "clone" then CloneFlow(backend, opts, cloneId, store) else [];
    var deletes := [DeleteSnapshot(cloneId), DeleteSnapshot(snapId)];
    NoDeletions(head);
    if opts.snapshotMethod == "clone" {
      CloneFlowDeletesNothing(backend, opts, cloneId, store);
    } else {
      NoDeletions(flow);
    }
    DeletionsAppend(head, flow);
    DeletionsAppend(head + flow, deletes);
    assert RunSpec(opts, store).trace == head + flow + deletes;
  }

  /**
   * The method gate: only the "clone" method goes on to exercise the clone;
   * with any other method the run is initialise, snapshot, clone, clean up.
   */
  lemma OnlyCloneMethodExercisesClone(opts: Options, store: Store)
    requires opts.snapshotMethod != "clone"
    ensures var trace := RunSpec(opts, store).trace;
      |trace| <= 5 && forall k :: 0 <= k < |trace| ==> !ExercisesClone(trace[k])
  {
  }

  /**
   * Flag validation: `main` stops with a fatal error before making any call
   * exactly when the volume ID is missing or the storage type is unknown.
   */
  lemma FatalExactlyOnBadFlags(opts: Options, store: Store)
    ensures RunSpec(opts, store).exit.Fatal? <==>
      opts.volId == "" || (opts.storageType != "manila" && opts.storageType != "cinder")
    ensures RunSpec(opts, store).exit.Fatal? ==> RunSpec(opts, store).trace == []
    ensures !RunSpec(opts, store).exit.Fatal? ==> RunSpec(opts, store).trace[0] == Init(RunConfig(opts.snapshotMethod, opts.region))
  {
  }

  /** A successful snapshot round made 2 * `count` calls and every one of them succeeded. */
  lemma {:induction false} SnapshotRoundSucceeded(backend: Backend, source: string, count: nat, store: Store)
    requires SnapshotRound(backend, source, count, store).ok
    ensures var round := SnapshotRound(backend, source, count, store);
      && |round.trace| == 2 * count
      && forall k :: 0 <= k < |round.trace| ==> store(round.trace[k]).Ok?
  {
    var round := SnapshotRound(backend, source, count, store);
    var created := CreateTestSnapshotsFrom(backend, source, 1, count, store);
    CreateTestSnapshotsOutcome(backend, source, 1, count, store);
    var waits := WaitCalls(created.ids);
    StopAtFirstFailureShape(waits, store);
    assert |round.trace| == |created.trace| + |waits|;
    forall k | 0 <= k < |round.trace|
      ensures store(round.trace[k]).Ok?
    {
      if k >= |created.trace| {
        assert round.trace[k] == waits[k - |created.trace|];
      } else {
        assert round.trace[k] == created.trace[k];
        assert store(created.trace[k]) == Ok(created.ids[k]);
      }
    }
  }

  /**
   * A successful snapshot round created test snapshots 1..`count` in order,
   * then waited for each of them, in the same order, by the ID its create returned.
   */
  lemma {:induction false} SnapshotRoundOrder(backend: Backend, source: string, count: nat, store: Store)
    requires SnapshotRound(backend, source, count, store).ok
    ensures |SnapshotRound(backend, source, count, store).trace| == 2 * count
    ensures var round := SnapshotRound(backend, source, count, store);
      var creates, waits := round.trace[..count], round.trace[count..];
      && (forall k :: 0 <= k < count ==> creates[k] == TestSnapshotCall(backend, source, k + 1))
      && (forall k :: 0 <= k < count ==> waits[k].WaitForSnapshotStatus? && store(creates[k]) == Ok(waits[k].waitId))
  {
    var round := SnapshotRound(backend, source, count, store);
    var created := CreateTestSnapshotsFrom(backend, source, 1, count, store);
    CreateTestSnapshotsCalls(backend, source, 1, count, store);
    CreateTestSnapshotsOutcome(backend, source, 1, count, store);
    var waits := WaitCalls(created.ids);
    StopAtFirstFailureShape(waits, store);
    assert round.trace == created.trace + waits;
    assert round.trace[..count] == created.trace;
    assert round.trace[count..] == waits;
  }

  /** A failed snapshot round ended with its only failing call. */
  lemma {:induction false} SnapshotRoundFailed(backend: Backend, source: string, count: nat, store: Store)
    requires !SnapshotRound(backend, source, count, store).ok
    ensures var round := SnapshotRound(backend, source, count, store);
      && |round.trace| > 0 && store(round.trace[|round.trace| - 1]).Err?
      && forall k :: 0 <= k < |round.trace| - 1 ==> store(round.trace[k]).Ok?
  {
    if CreateTestSnapshotsFrom(backend, source, 1, count, store).ok {
      RoundFailedInWaits(backend, source, count, store);
    } else {
      RoundFailedInCreates(backend, source, count, store);
    }
  }

  /** `SnapshotRoundFailed` when a create failed: the round is the creates made. */
  lemma RoundFailedInCreates(backend: Backend, source: string, count: nat, store: Store)
    requires !CreateTestSnapshotsFrom(backend, source, 1, count, store).ok
    ensures var round := SnapshotRound(backend, source, count, store);
      && |round.trace| > 0 && store(round.trace[|round.trace| - 1]).Err?
      && forall k :: 0 <= k < |round.trace| - 1 ==> store(round.trace[k]).Ok?
  {
    var round := SnapshotRound(backend, source, count, store);
    var created := CreateTestSnapshotsFrom(backend, source, 1, count, store);
    CreateTestSnapshotsOutcome(backend, source, 1, count, store);
    assert round.trace == created.trace;
    forall k | 0 <= k < |round.trace| - 1
      ensures store(round.trace[k]).Ok?
    {
      assert store(created.trace[k]) == Ok(created.ids[k]);
    }
  }

  /** `SnapshotRoundFailed` when every create succeeded: a wait failed last. */
  lemma RoundFailedInWaits(backend: Backend, source: string, count: nat, store: Store)
    requires CreateTestSnapshotsFrom(backend, source, 1, count, store).ok
    requires !SnapshotRound(backend, source, count, store).ok
    ensures var round := SnapshotRound(backend, source, count, store);
      && |round.trace| > 0 && store(round.trace[|round.trace| - 1]).Err?
      && forall k :: 0 <= k < |round.trace| - 1 ==> store(round.trace[k]).Ok?
  {
    var round := SnapshotRound(backend, source, count, store);
    var created := CreateTestSnapshotsFrom(backend, source, 1, count, store);
    CreateTestSnapshotsOutcome(backend, source, 1, count, store);
    var waited := StopAtFirstFailure(WaitCalls(created.ids), store);
    StopAtFirstFailureShape(WaitCalls(created.ids), store);
    assert round.trace == created.trace + waited.trace;
    assert forall k :: 0 <= k < |created.trace| ==> store(created.trace[k]).Ok?;
    FailureAfterSuccesses(created.trace, waited.trace, store);
  }

  /** Calls that all succeeded, followed by calls whose last alone failed. */
  lemma FailureAfterSuccesses(a: seq<Call>, b: seq<Call>, store: Store)
    requires forall k :: 0 <= k < |a| ==> store(a[k]).Ok?
    requires |b| > 0 && store(b[|b| - 1]).Err? && forall k :: 0 <= k < |b| - 1 ==> store(b[k]).Ok?
    ensures var t := a + b;
      && |t| > 0 && store(t[|t| - 1]).Err?
      && forall k :: 0 <= k < |t| - 1 ==> store(t[k]).Ok?
  {
    var t := a + b;
    assert t[|t| - 1] == b[|b| - 1];
    forall k | 0 <= k < |t| - 1
      ensures store(t[k]).Ok?
    {
      if k < |a| {
        assert t[k] == a[k];
      } else {
        assert t[k] == b[k - |a|];
      }
    }
  }

  /**
   * A replica is requested only once every test snapshot has been created
   * and seen available, right after the last of those waits.
   */
  lemma ReplicaOnlyAfterSnapshotsAvailable(cloneId: string, count: nat, az: string, sync: bool, store: Store, p: nat)
    requires p < |ManilaCloneFlow(cloneId, count, az, sync, store)|
    requires ManilaCloneFlow(cloneId, count, az, sync, store)[p].CreateReplica?
    ensures SnapshotRound(Manila, cloneId, count, store).ok
    ensures p == 2 * count
    ensures ManilaCloneFlow(cloneId, count, az, sync, store)[p] == CreateReplica(cloneId, az)
    ensures forall k :: 0 <= k < p ==> store(ManilaCloneFlow(cloneId, count, az, sync, store)[k]).Ok?
  {
    var flow := ManilaCloneFlow(cloneId, count, az, sync, store);
    var round := SnapshotRound(Manila, cloneId, count, store);
    var replica := ReplicaFlow(cloneId, az, sync, store);
    SnapshotRoundKinds(Manila, cloneId, count, store);
    ReplicaFlowCalls(cloneId, az, sync, store);
    assert round.ok;
    SnapshotRoundSucceeded(Manila, cloneId, count, store);
    assert p >= |round.trace|;
    assert flow[p] == replica[p - |round.trace|];
    assert p == |round.trace|;
  }

  /** The sync steps promote the replica exactly when its resync and the wait after it succeed. */
  lemma SyncStepsPromote(replicaId: string, store: Store)
    ensures var trace := StopAtFirstFailure(SyncSteps(replicaId), store).trace;
      PromoteReplica(replicaId) in trace <==>
        store(ResyncReplica(replicaId)).Ok? && store(WaitForReplicaSyncState(replicaId)).Ok?
  {
    var resync, syncWait := ResyncReplica(replicaId), WaitForReplicaSyncState(replicaId);
    var promote, activeWait := PromoteReplica(replicaId), WaitForReplicaActiveState(replicaId);
    StopAtFirstFailureAppend([resync, syncWait], [promote, activeWait], store);
    assert SyncSteps(replicaId) == [resync, syncWait] + [promote, activeWait];
    StopAtFirstFailureAppend([resync], [syncWait], store);
    assert [resync, syncWait] == [resync] + [syncWait];
    StopAtFirstFailureAppend([promote], [activeWait], store);
    assert [promote, activeWait] == [promote] + [activeWait];
  }

  /** Without the sync flag a replica is never resynced or promoted. */
  lemma NoSyncNoPromotion(cloneId: string, count: nat, az: string, store: Store)
    ensures var flow := ManilaCloneFlow(cloneId, count, az, false, store);
      forall k :: 0 <= k < |flow| ==> !flow[k].ResyncReplica? && !flow[k].PromoteReplica?
  {
    var round := SnapshotRound(Manila, cloneId, count, store);
    SnapshotRoundKinds(Manila, cloneId, count, store);
    var tail := if round.ok then ReplicaFlow(cloneId, az, false, store) else [];
    NoSyncReplicaFlow(cloneId, az, store);
    NeitherResyncNorPromote(round.trace, tail);
  }

  /** Without the sync flag the replica part only creates the replica and waits for it. */
  lemma NoSyncReplicaFlow(cloneId: string, az: string, store: Store)
    ensures var flow := ReplicaFlow(cloneId, az, false, store);
      forall k :: 0 <= k < |flow| ==> flow[k].CreateReplica? || flow[k].WaitForReplicaStatus?
  {
    var create := CreateReplica(cloneId, az);
    if store(create).Ok? {
      var steps := ReplicaSteps(store(create).value, false);
      assert steps == [WaitForReplicaStatus(store(create).value)];
      StopAtFirstFailureShape(steps, store);
    }
  }

  /** Snapshot-round calls followed by replica creates and waits contain no resync or promotion. */
  lemma NeitherResyncNorPromote(round: seq<Call>, tail: seq<Call>)
    requires forall k :: 0 <= k < |round| ==>
      round[k].CreateShareSnapshot? || round[k].CreateVolumeSnapshot? || round[k].WaitForSnapshotStatus?
    requires forall k :: 0 <= k < |tail| ==> tail[k].CreateReplica? || tail[k].WaitForReplicaStatus?
    ensures forall k :: 0 <= k < |round + tail| ==> !(round + tail)[k].ResyncReplica? && !(round + tail)[k].PromoteReplica?
  {
    var flow := round + tail;
    forall k | 0 <= k < |flow|
      ensures !flow[k].ResyncReplica? && !flow[k].PromoteReplica?
    {
      if k < |round| {
        assert flow[k] == round[k];
      } else {
        assert flow[k] == tail[k - |round|];
      }
    }
  }

  /**
   * A replica is promoted exactly when the sync flag is set and every earlier
   * step succeeded: the snapshot round, the replica's creation and its wait,
   * the resync and the wait after it.
   */
  lemma PromotedExactlyWhen(cloneId: string, count: nat, az: string, sync: bool, store: Store, replicaId: string)
    requires store(CreateReplica(cloneId, az)) == Ok(replicaId)
    ensures PromoteReplica(replicaId) in ManilaCloneFlow(cloneId, count, az, sync, store) <==>
      sync && SnapshotRound(Manila, cloneId, count, store).ok
      && store(WaitForReplicaStatus(replicaId)).Ok?
      && store(ResyncReplica(replicaId)).Ok?
      && store(WaitForReplicaSyncState(replicaId)).Ok?
  {
    var flow := ManilaCloneFlow(cloneId, count, az, sync, store);
    var round := SnapshotRound(Manila, cloneId, count, store);
    SnapshotRoundKinds(Manila, cloneId, count, store);
    assert PromoteReplica(replicaId) !in round.trace;
    if round.ok {
      var wait := WaitForReplicaStatus(replicaId);
      var rest := if sync then SyncSteps(replicaId) else [];
      var tail := StopAtFirstFailure(ReplicaSteps(replicaId, sync), store).trace;
      StopAtFirstFailureAppend([wait], rest, store);
      assert flow == round.trace + ([CreateReplica(cloneId, az)] + tail);
      if sync && store(wait).Ok? {
        SyncStepsPromote(replicaId, store);
        assert tail == [wait] + StopAtFirstFailure(SyncSteps(replicaId), store).trace;
      } else {
        assert tail == [wait];
      }
    }
  }
}
