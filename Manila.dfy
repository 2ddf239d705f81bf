/**
 * The Manila shared-filesystem store (src/manila/fs_store.go): client set-up and
 * microversion negotiation in `Init`, the status waiters, the access-rule lookup,
 * the readiness check, the PersistentVolume handle accessors, snapshot creation
 * and the six-step `CreateVolumeFromSnapshot`.
 *
 * Every request to the Manila API is answered by a value passed in: a reply for
 * a single request, or for a wait the sequence of poll replies that arrive
 * before its deadline. `CreateSnapshot` and `CreateVolumeFromSnapshot` also
 * return the requests they issued.
 */
module Manila {
  import opened Wrappers
  import Helpers
  import Decimal

  const DefaultCsiManilaDriverName: string := "nfs.manila.csi.openstack.org"
  const MinSupportedMicroversion: string := "2.7"
  const GetAccessRulesMicroversion: string := "2.45"
  const DefaultRegion: string := "RegionOne"
  const Available: string := "available"
  const ShareReadyTimeout: nat := 300
  const SnapshotReadyTimeout: nat := 300
  const SnapshotDescription: string := "Velero snapshot"
  const ShareIdAttribute: string := "shareID"
  const ShareAccessIdAttribute: string := "shareAccessID"

  // ---------------------------------------------------------------------------
  // Records of the Manila API
  // ---------------------------------------------------------------------------

  datatype Snapshot = Snapshot(id: string, status: string, shareId: string, shareProto: string, size: int)

  datatype Share = Share(id: string, status: string, volumeType: string, metadata: map<string, string>)

  /** An access rule as the legacy listing (and the grant call) returns it. */
  datatype AccessRight = AccessRight(
    id: string, shareId: string, accessKey: string, accessLevel: string,
    accessTo: string, accessType: string, state: string)

  /** An access rule as the versioned listing returns it; it also carries metadata. */
  datatype ShareAccess = ShareAccess(
    id: string, shareId: string, accessKey: string, accessLevel: string,
    accessTo: string, accessType: string, state: string, metadata: map<string, string>)

  /** The two shapes an access-rule listing can have. */
  datatype AccessListing =
    | LegacyListing(rights: seq<AccessRight>)
    | VersionedListing(accesses: seq<ShareAccess>)

  datatype SnapshotCreateOpts = SnapshotCreateOpts(name: string, description: string, shareId: string)

  datatype ShareCreateOpts = ShareCreateOpts(
    shareProto: string, size: int, availabilityZone: string,
    name: string, snapshotId: string, metadata: map<string, string>)

  datatype GrantAccessOpts = GrantAccessOpts(accessType: string, accessTo: string, accessLevel: string)

  /** The requests the store issues; a wait stands for its whole series of polls. */
  datatype Request =
    | CreateSnapshotRequest(snapshotOpts: SnapshotCreateOpts)
    | WaitForSnapshotStatus(snapshotId: string, status: string, timeout: nat)
    | GetShare(shareId: string)
    | ListAccessRights(ruleShareId: string)
    | ListShareAccessRules(accessShareId: string)
    | CreateShare(shareOpts: ShareCreateOpts)
    | WaitForShareStatus(waitShareId: string, waitStatus: string, waitTimeout: nat)
    | GrantAccess(grantShareId: string, grantOpts: GrantAccessOpts)

  datatype WaitError = PollFailed(cause: string) | TimedOut

  datatype StoreError =
    | AuthenticationFailed(authCause: string)
    | ClientCreationFailed(clientCause: string)
    | SnapshotCreationFailed(snapshotName: string, volumeId: string, createCause: string)
    | SnapshotNotAvailable(snapshotId: string, snapshotWait: WaitError)
    | OriginShareNotFound(originShareId: string, originCause: string)
    | AccessRulesListFailed(listShareId: string, listCause: string)
    | AccessRuleNotFound(ruleShareId: string)
    | ShareCreationFailed(shareName: string, fromSnapshotId: string, shareCause: string)
    | ShareNotAvailable(shareId: string, shareWait: WaitError)
    | GrantAccessFailed(grantShareId: string, grantCause: string)
    | VolumeFetchFailed(fetchVolumeId: string, fetchCause: string)
    | VolumeNotAvailable(readyVolumeId: string, status: string)
    | DriverMismatch(supportedDriver: string)

  /** A Go call either returns or panics (a nil pointer, a write into a nil map). */
  datatype Outcome<T> = Returns(value: T) | Panics(reason: string)

  // ---------------------------------------------------------------------------
  // The PersistentVolume fields the store reads and writes
  // ---------------------------------------------------------------------------

  /** `spec.csi`; a missing `volumeAttributes` is Go's nil map. */
  datatype CsiSource = CsiSource(
    driver: string, volumeHandle: string, fsType: string, readOnly: bool,
    volumeAttributes: Option<map<string, string>>)

  datatype PersistentVolume = PersistentVolume(name: string, storageClassName: string, csi: Option<CsiSource>)

  // ---------------------------------------------------------------------------
  // Status waiters
  // ---------------------------------------------------------------------------

  function SnapshotStatus(s: Snapshot): string { s.status }

  function ShareStatus(s: Share): string { s.status }

  /**
   * One poll of `waitForShareStatus` / `waitForSnapshotStatus`: a fetch error
   * stops the wait with that error, otherwise the wait is over exactly when the
   * fetched status is the requested one.
   */
  function PollOnce<T>(fetched: Result<T, string>, status: string, statusOf: T -> string): (done: Result<bool, string>)
    ensures done == Ok(true) <==> fetched.Ok? && statusOf(fetched.value) == status
    ensures done == Ok(false) <==> fetched.Ok? && statusOf(fetched.value) != status
    ensures done.Err? ==> fetched == Err(done.error)
  {
    match fetched
    case Err(e) => Err(e)
    case Ok(current) => Ok(statusOf(current) == status)
  }

  /**
   * The outcome of a wait whose polls from index `i` on are still to come,
   * with the number of polls made in all.
   */
  function WaitFrom<T>(polls: seq<Result<T, string>>, i: nat, status: string, statusOf: T -> string): (Result<T, WaitError>, nat)
    requires i <= |polls|
    decreases |polls| - i
  {
    if i == |polls| then (Err(TimedOut), i)
    else match PollOnce(polls[i], status, statusOf)
      case Err(e) => (Err(PollFailed(e)), i + 1)
      case Ok(true) => (Ok(polls[i].value), i + 1)
      case Ok(false) => WaitFrom(polls, i + 1, status, statusOf)
  }

  /** The outcome of a wait given the replies to its polls before the deadline. */
  function Wait<T>(polls: seq<Result<T, string>>, status: string, statusOf: T -> string): Result<T, WaitError> {
    WaitFrom(polls, 0, status, statusOf).0
  }

  /**
   * What a wait does: it polls in order and stops at the first poll that fails
   * (reporting that error) or shows the requested status (returning that
   * resource); it times out only when every poll before the deadline succeeded
   * with another status.
   */
  lemma {:induction false} WaitFromOutcome<T>(polls: seq<Result<T, string>>, i: nat, status: string, statusOf: T -> string)
    requires i <= |polls|
    ensures var (r, n) := WaitFrom(polls, i, status, statusOf);
      && i <= n <= |polls|
      && (forall j :: i <= j < n - 1 ==> polls[j].Ok? && statusOf(polls[j].value) != status)
      && (r.Ok? ==> n > i && polls[n - 1] == Ok(r.value) && statusOf(r.value) == status)
      && (r.Err? && r.error.PollFailed? ==> n > i && polls[n - 1] == Err(r.error.cause))
      && (r == Err(TimedOut) ==> n == |polls| && (n > i ==> polls[n - 1].Ok? && statusOf(polls[n - 1].value) != status))
    decreases |polls| - i
  {
    if i < |polls| && PollOnce(polls[i], status, statusOf) == Ok(false) {
      WaitFromOutcome(polls, i + 1, status, statusOf);
    }
  }

  /** A wait never returns a resource whose status is not the requested one. */
  lemma WaitMatchesOnlyRequestedStatus<T>(polls: seq<Result<T, string>>, status: string, statusOf: T -> string)
    ensures Wait(polls, status, statusOf).Ok? ==> statusOf(Wait(polls, status, statusOf).value) == status
    ensures Wait(polls, status, statusOf).Ok? ==> Ok(Wait(polls, status, statusOf).value) in polls
  {
    WaitFromOutcome(polls, 0, status, statusOf);
  }

  /**
   * `waitForShareStatus` / `waitForSnapshotStatus`: the poll closure reassigns
   * the fetched resource each time until it is done, fails or the deadline
   * passes. Returns the outcome and the number of polls made.
   */
  method WaitForStatus<T>(polls: seq<Result<T, string>>, status: string, statusOf: T -> string)
    returns (r: Result<T, WaitError>, polled: nat)
    ensures (r, polled) == WaitFrom(polls, 0, status, statusOf)
  {
    var i := 0;
    while i < |polls|
      invariant i <= |polls|
      invariant WaitFrom(polls, 0, status, statusOf) == WaitFrom(polls, i, status, statusOf)
    {
      var current := polls[i];
      var done := PollOnce(current, status, statusOf);
      if done.Err? {
        return Err(PollFailed(done.error)), i + 1;
      } else if done.value {
        return Ok(current.value), i + 1;
      }
      i := i + 1;
    }
    return Err(TimedOut), |polls|;
  }

  // ---------------------------------------------------------------------------
  // Access rules
  // ---------------------------------------------------------------------------

  /** The listing call is the deprecated one exactly when the client still speaks the minimum microversion. */
  predicate UsesLegacyListing(microversion: string) {
    microversion == MinSupportedMicroversion
  }

  function ListingRequest(microversion: string, shareId: string): Request {
    if UsesLegacyListing(microversion) then ListAccessRights(shareId) else ListShareAccessRules(shareId)
  }

  /** The replies the two listing calls would give; only one of them is made. */
  datatype AccessRuleReplies = AccessRuleReplies(
    legacy: Result<seq<AccessRight>, string>,
    versioned: Result<seq<ShareAccess>, string>)

  /** The listing the microversion selects succeeds and is not empty. */
  predicate RuleFound(microversion: string, replies: AccessRuleReplies) {
    if UsesLegacyListing(microversion) then replies.legacy.Ok? && |replies.legacy.value| > 0
    else replies.versioned.Ok? && |replies.versioned.value| > 0
  }

  /** A versioned rule in the legacy shape, field for field (its metadata is dropped). */
  function ToAccessRight(a: ShareAccess): (r: AccessRight)
    ensures r.id == a.id && r.shareId == a.shareId && r.accessKey == a.accessKey
    ensures r.accessLevel == a.accessLevel && r.accessTo == a.accessTo
    ensures r.accessType == a.accessType && r.state == a.state
  {
    AccessRight(a.id, a.shareId, a.accessKey, a.accessLevel, a.accessTo, a.accessType, a.state)
  }

  /** The first rule of a listing of either shape, normalised; none for an empty listing. */
  function FirstRule(listing: AccessListing): (r: Option<AccessRight>)
    ensures listing.LegacyListing? ==> (r.Some? <==> |listing.rights| > 0)
    ensures listing.VersionedListing? ==> (r.Some? <==> |listing.accesses| > 0)
    ensures r.Some? && listing.LegacyListing? ==> r.value == listing.rights[0]
    ensures r.Some? && listing.VersionedListing? ==> r.value == ToAccessRight(listing.accesses[0])
  {
    match listing
    case LegacyListing(rights) => if |rights| > 0 then Some(rights[0]) else None
    case VersionedListing(accesses) => if |accesses| > 0 then Some(ToAccessRight(accesses[0])) else None
  }

  /** `getShareAccessRule`: list the share's rules with the call the microversion allows and keep the first. */
  function GetShareAccessRule(microversion: string, shareId: string, replies: AccessRuleReplies): (r: Result<AccessRight, StoreError>)
    ensures UsesLegacyListing(microversion) ==>
      (r.Ok? <==> replies.legacy.Ok? && |replies.legacy.value| > 0)
      && (r.Ok? ==> r.value == replies.legacy.value[0])
      && (replies.legacy.Err? ==> r == Err(AccessRulesListFailed(shareId, replies.legacy.error)))
    ensures !UsesLegacyListing(microversion) ==>
      (r.Ok? <==> replies.versioned.Ok? && |replies.versioned.value| > 0)
      && (r.Ok? ==> r.value == ToAccessRight(replies.versioned.value[0]))
      && (replies.versioned.Err? ==> r == Err(AccessRulesListFailed(shareId, replies.versioned.error)))
    ensures r.Err? ==> r.error.AccessRulesListFailed? || r.error == AccessRuleNotFound(shareId)
    ensures r.Ok? <==> RuleFound(microversion, replies)
  {
    var listing: Result<AccessListing, string> :=
      if UsesLegacyListing(microversion) then
        match replies.legacy
        case Err(e) => Err(e)
        case Ok(rights) => Ok(LegacyListing(rights))
      else
        match replies.versioned
        case Err(e) => Err(e)
        case Ok(accesses) => Ok(VersionedListing(accesses));
    match listing
    case Err(e) => Err(AccessRulesListFailed(shareId, e))
    case Ok(rules) =>
      match FirstRule(rules)
      case Some(rule) => Ok(rule)
      case None => Err(AccessRuleNotFound(shareId))
  }

  // ---------------------------------------------------------------------------
  // Init helpers
  // ---------------------------------------------------------------------------

  /** A Go map index: the zero value "" for a missing key. */
  function Lookup(config: map<string, string>, key: string): (v: string)
    ensures key !in config ==> v == ""
    ensures key in config ==> v == config[key]
  {
    if key in config then config[key] else ""
  }

  /** `Init` builds a new client when it has none or when a cloud is named. */
  predicate RebuildsClient(hasClient: bool, config: map<string, string>) {
    !hasClient || Lookup(config, "cloud") != ""
  }

  /**
   * The region of a new client: `OS_REGION_NAME` when it is set (even to ""),
   * else a non-empty configured region, else "RegionOne".
   */
  function ResolveRegion(regionEnv: Option<string>, config: map<string, string>): (region: string)
    ensures regionEnv.Some? ==> region == regionEnv.value
    ensures regionEnv.None? && Lookup(config, "region") != "" ==> region == config["region"]
    ensures regionEnv.None? && Lookup(config, "region") == "" ==> region == DefaultRegion
  {
    match regionEnv
    case Some(r) => r
    case None => if Lookup(config, "region") != "" then config["region"] else DefaultRegion
  }

  lemma AccessRulesMicroversionParses()
    ensures Helpers.ParseMicroversion(GetAccessRulesMicroversion) == Ok(Helpers.Microversion(2, 45))
  {
    Helpers.ParseFormatted(2, 45, '.');
    assert Decimal.Format(45) == "45";
    assert Decimal.Format(2) + ['.'] + Decimal.Format(45) == GetAccessRulesMicroversion;
  }

  /**
   * The microversion a new client ends up with: "2.45" exactly when the
   * version query succeeded with a valid microversion that is at least 2.45,
   * "2.7" otherwise (a failed query or comparison is not an error).
   */
  function NegotiatedMicroversion(versionReply: Result<string, string>): (mv: string)
    ensures mv == GetAccessRulesMicroversion || mv == MinSupportedMicroversion
    ensures mv == GetAccessRulesMicroversion <==>
      versionReply.Ok? && Helpers.MatchesPattern(versionReply.value)
      && Helpers.AtMost(Helpers.Microversion(2, 45), Helpers.ParseMicroversion(versionReply.value).value)
    ensures UsesLegacyListing(mv) <==> mv != GetAccessRulesMicroversion
  {
    AccessRulesMicroversionParses();
    match versionReply
    case Err(_) => MinSupportedMicroversion
    case Ok(version) =>
      if Helpers.CompareMicroversions("lte", GetAccessRulesMicroversion, version) == Ok(true)
      then GetAccessRulesMicroversion
      else MinSupportedMicroversion
  }

  // ---------------------------------------------------------------------------
  // Names
  // ---------------------------------------------------------------------------

  /** `<volumeID>.snap.<suffix>`, the suffix being the printed random number. */
  function SnapshotName(volumeId: string, suffix: string): string {
    volumeId + ".snap." + suffix
  }

  /** `<snapshotID>.backup.<suffix>`. */
  function BackupName(snapshotId: string, suffix: string): string {
    snapshotId + ".backup." + suffix
  }

  // ---------------------------------------------------------------------------
  // CreateVolumeFromSnapshot: steps and their replies
  // ---------------------------------------------------------------------------

  /** The replies to the six steps of `CreateVolumeFromSnapshot`. */
  datatype CloneReplies = CloneReplies(
    snapshotPolls: seq<Result<Snapshot, string>>,
    originShare: Result<Share, string>,
    rules: AccessRuleReplies,
    created: Result<Share, string>,
    sharePolls: seq<Result<Share, string>>,
    grant: Result<AccessRight, string>)

  /**
   * The index of the first step of `CreateVolumeFromSnapshot` that fails, 6
   * when none does: 0 wait for the snapshot, 1 fetch the origin share, 2 find
   * its access rule, 3 create the share, 4 wait for it, 5 grant it the rule.
   */
  function FirstFailure(microversion: string, replies: CloneReplies): (n: nat)
    ensures n <= 6
  {
    if Wait(replies.snapshotPolls, Available, SnapshotStatus).Err? then 0
    else if replies.originShare.Err? then 1
    else if !RuleFound(microversion, replies.rules) then 2
    else if replies.created.Err? then 3
    else if Wait(replies.sharePolls, Available, ShareStatus).Err? then 4
    else if replies.grant.Err? then 5
    else 6
  }

  /** The step whose failure an error of `CreateVolumeFromSnapshot` reports. */
  function FailedStep(e: StoreError): nat {
    match e
    case SnapshotNotAvailable(_, _) => 0
    case OriginShareNotFound(_, _) => 1
    case AccessRulesListFailed(_, _) => 2
    case AccessRuleNotFound(_) => 2
    case ShareCreationFailed(_, _, _) => 3
    case ShareNotAvailable(_, _) => 4
    case GrantAccessFailed(_, _) => 5
    case _ => 6
  }

  /**
   * What `CreateVolumeFromSnapshot` returns, and the requests it makes, when
   * the client speaks `microversion` and the backend gives `replies`.
   */
  function CloneFromSnapshot(snapshotId: string, volumeAz: string, suffix: string,
                             microversion: string, replies: CloneReplies): (r: (Result<string, StoreError>, seq<Request>))
  {
    var volumeName := BackupName(snapshotId, suffix);
    var waitSnapshot := WaitForSnapshotStatus(snapshotId, Available, SnapshotReadyTimeout);
    var snapshot := Wait(replies.snapshotPolls, Available, SnapshotStatus);
    if snapshot.Err? then (Err(SnapshotNotAvailable(snapshotId, snapshot.error)), [waitSnapshot])
    else
      var getOrigin := GetShare(snapshot.value.shareId);
      if replies.originShare.Err? then
        (Err(OriginShareNotFound(snapshot.value.shareId, replies.originShare.error)), [waitSnapshot, getOrigin])
      else
        var listRules := ListingRequest(microversion, snapshot.value.shareId);
        var rule := GetShareAccessRule(microversion, snapshot.value.shareId, replies.rules);
        if rule.Err? then (Err(rule.error), [waitSnapshot, getOrigin, listRules])
        else
          var create := CreateShare(ShareCreateOpts(snapshot.value.shareProto, snapshot.value.size, volumeAz,
                                                    volumeName, snapshotId, replies.originShare.value.metadata));
          if replies.created.Err? then
            (Err(ShareCreationFailed(volumeName, snapshotId, replies.created.error)),
             [waitSnapshot, getOrigin, listRules, create])
          else
            var share := replies.created.value;
            var waitShare := WaitForShareStatus(share.id, Available, ShareReadyTimeout);
            var ready := Wait(replies.sharePolls, Available, ShareStatus);
            if ready.Err? then
              (Err(ShareNotAvailable(share.id, ready.error)), [waitSnapshot, getOrigin, listRules, create, waitShare])
            else
              var grant := GrantAccess(share.id, GrantAccessOpts(rule.value.accessType, rule.value.accessTo, rule.value.accessLevel));
              var requests := [waitSnapshot, getOrigin, listRules, create, waitShare, grant];
              if replies.grant.Err? then (Err(GrantAccessFailed(share.id, replies.grant.error)), requests)
              else (Ok(share.id), requests)
  }

  /**
   * The clone stops at its first failing step: it makes one request per step
   * up to and including that one, fails exactly when some step fails, and its
   * error names that step; on success the new share's ID is returned.
   */
  lemma {:induction false} CloneStopsAtFirstFailure(snapshotId: string, volumeAz: string, suffix: string,
                                                    microversion: string, replies: CloneReplies)
    ensures var (r, requests) := CloneFromSnapshot(snapshotId, volumeAz, suffix, microversion, replies);
      var n := FirstFailure(microversion, replies);
      && |requests| == (if n == 6 then 6 else n + 1)
      && (r.Ok? <==> n == 6)
      && (r.Err? ==> FailedStep(r.error) == n)
      && (r.Ok? ==> r.value == replies.created.value.id)
  {
  }

  /**
   * The requests the clone makes: it waits for the snapshot, fetches the
   * snapshot's share, lists that share's access rules, creates a share of the
   * snapshot's protocol and size named after the snapshot, from the snapshot
   * and carrying the origin's metadata, waits for the new share and grants it
   * the origin's rule.
   */
  lemma {:induction false} CloneRequestArguments(snapshotId: string, volumeAz: string, suffix: string,
                                                 microversion: string, replies: CloneReplies)
    ensures var requests := CloneFromSnapshot(snapshotId, volumeAz, suffix, microversion, replies).1;
      && requests[0] == WaitForSnapshotStatus(snapshotId, Available, SnapshotReadyTimeout)
      && (|requests| > 1 ==>
            var snapshot := Wait(replies.snapshotPolls, Available, SnapshotStatus).value;
            && requests[1] == GetShare(snapshot.shareId)
            && (|requests| > 2 ==> requests[2] == ListingRequest(microversion, snapshot.shareId))
            && (|requests| > 3 ==> requests[3] == CreateShare(ShareCreateOpts(
                  snapshot.shareProto, snapshot.size, volumeAz, BackupName(snapshotId, suffix),
                  snapshotId, replies.originShare.value.metadata)))
            && (|requests| > 4 ==> requests[4] == WaitForShareStatus(replies.created.value.id, Available, ShareReadyTimeout))
            && (|requests| > 5 ==>
                  var rule := GetShareAccessRule(microversion, snapshot.shareId, replies.rules).value;
                  requests[5] == GrantAccess(replies.created.value.id, GrantAccessOpts(rule.accessType, rule.accessTo, rule.accessLevel))))
  {
  }

  // ---------------------------------------------------------------------------
  // The store
  // ---------------------------------------------------------------------------

  /** The service client; `Init` sets its microversion after creating it. */
  class ServiceClient {
    const region: string
    var microversion: string

    constructor (region: string)
      ensures this.region == region && microversion == ""
    {
      this.region := region;
      microversion := "";
    }
  }

  /** `FSStore`: the configuration, the Manila client and the CSI driver it handles. */
  class FSStore {
    const csiDriverName: string
    var config: map<string, string>
    var client: ServiceClient?

    /** `NewFSStore`, with `MANILA_DRIVER_NAME` from the environment passed in. */
    constructor (driverNameEnv: Option<string>)
      ensures csiDriverName == Helpers.GetEnv(driverNameEnv, DefaultCsiManilaDriverName)
      ensures config == map[] && client == null
    {
      csiDriverName := Helpers.GetEnv(driverNameEnv, DefaultCsiManilaDriverName);
      config := map[];
      client := null;
    }

    /**
     * `Init`: record the configuration, authenticate, and, when there is no
     * client yet or a cloud is named, build a client for the resolved region
     * and negotiate its microversion. The outcomes of authentication, client
     * creation and the version query are passed in.
     */
    method Init(config: map<string, string>, regionEnv: Option<string>,
                auth: Result<(), string>, clientReply: Result<(), string>,
                versionReply: Result<string, string>)
      returns (err: Option<StoreError>)
      modifies this
      ensures this.config == config
      ensures auth.Err? ==> err == Some(AuthenticationFailed(auth.error)) && client == old(client)
      ensures auth.Ok? && !RebuildsClient(old(client) != null, config) ==> err == None && client == old(client)
      ensures auth.Ok? && RebuildsClient(old(client) != null, config) && clientReply.Err? ==>
        err == Some(ClientCreationFailed(clientReply.error)) && client == null
      ensures auth.Ok? && RebuildsClient(old(client) != null, config) && clientReply.Ok? ==>
        err == None && client != null && fresh(client)
        && client.region == ResolveRegion(regionEnv, config)
        && client.microversion == NegotiatedMicroversion(versionReply)
    {
      this.config := config;
      if auth.Err? {
        return Some(AuthenticationFailed(auth.error));
      }
      if client == null || Lookup(config, "cloud") != "" {
        var region := ResolveRegion(regionEnv, config);
        if clientReply.Err? {
          client := null;
          return Some(ClientCreationFailed(clientReply.error));
        }
        var c := new ServiceClient(region);
        client := c;
        c.microversion := MinSupportedMicroversion;
        if versionReply.Ok? {
          var ok := Helpers.CompareMicroversions("lte", GetAccessRulesMicroversion, versionReply.value);
          if ok == Ok(true) {
            c.microversion := GetAccessRulesMicroversion;
          }
        }
      }
      return None;
    }

    /**
     * `CreateSnapshot`: one create request named `<volumeID>.snap.<suffix>`;
     * it does not wait for the snapshot.
     */
    method CreateSnapshot(volumeId: string, suffix: string, reply: Result<Snapshot, string>)
      returns (r: Result<string, StoreError>, requests: seq<Request>)
      ensures requests == [CreateSnapshotRequest(SnapshotCreateOpts(SnapshotName(volumeId, suffix), SnapshotDescription, volumeId))]
      ensures r.Ok? <==> reply.Ok?
      ensures r.Ok? ==> r.value == reply.value.id
      ensures r.Err? ==> r.error == SnapshotCreationFailed(SnapshotName(volumeId, suffix), volumeId, reply.error)
    {
      var name := SnapshotName(volumeId, suffix);
      requests := [CreateSnapshotRequest(SnapshotCreateOpts(name, SnapshotDescription, volumeId))];
      if reply.Err? {
        return Err(SnapshotCreationFailed(name, volumeId, reply.error)), requests;
      }
      r := Ok(reply.value.id);
    }

    /**
     * `CreateVolumeFromSnapshot`: wait for the snapshot, fetch its share, find
     * that share's access rule, create a share from the snapshot, wait for it
     * and grant it the rule. The first step that fails ends the operation with
     * an error naming that step; no later request is made.
     */
    method CreateVolumeFromSnapshot(snapshotId: string, volumeAz: string, suffix: string, replies: CloneReplies)
      returns (r: Result<string, StoreError>, requests: seq<Request>)
      requires client != null
      ensures (r, requests) == CloneFromSnapshot(snapshotId, volumeAz, suffix, client.microversion, replies)
    {
      var mv := client.microversion;
      var volumeName := BackupName(snapshotId, suffix);

      var waitSnapshot := WaitForSnapshotStatus(snapshotId, Available, SnapshotReadyTimeout);
      var snapshot, _ := WaitForStatus(replies.snapshotPolls, Available, SnapshotStatus);
      if snapshot.Err? {
        return Err(SnapshotNotAvailable(snapshotId, snapshot.error)), [waitSnapshot];
      }

      var getOrigin := GetShare(snapshot.value.shareId);
      if replies.originShare.Err? {
        return Err(OriginShareNotFound(snapshot.value.shareId, replies.originShare.error)), [waitSnapshot, getOrigin];
      }
      var originShare := replies.originShare.value;

      var listRules := ListingRequest(mv, snapshot.value.shareId);
      var rule := GetShareAccessRule(mv, snapshot.value.shareId, replies.rules);
      if rule.Err? {
        return Err(rule.error), [waitSnapshot, getOrigin, listRules];
      }

      var opts := ShareCreateOpts(snapshot.value.shareProto, snapshot.value.size, volumeAz,
                                  volumeName, snapshotId, originShare.metadata);
      var create := CreateShare(opts);
      if replies.created.Err? {
        return Err(ShareCreationFailed(volumeName, snapshotId, replies.created.error)),
               [waitSnapshot, getOrigin, listRules, create];
      }
      var share := replies.created.value;

      var waitShare := WaitForShareStatus(share.id, Available, ShareReadyTimeout);
      var ready, _ := WaitForStatus(replies.sharePolls, Available, ShareStatus);
      if ready.Err? {
        return Err(ShareNotAvailable(share.id, ready.error)),
               [waitSnapshot, getOrigin, listRules, create, waitShare];
      }

      var grant := GrantAccess(share.id, GrantAccessOpts(rule.value.accessType, rule.value.accessTo, rule.value.accessLevel));
      requests := [waitSnapshot, getOrigin, listRules, create, waitShare, grant];
      if replies.grant.Err? {
        return Err(GrantAccessFailed(share.id, replies.grant.error)), requests;
      }
      r := Ok(share.id);
    }

    /**
     * `IsVolumeReady`, given the reply to its fetch of the share: ready with no
     * error exactly when the share is "available"; otherwise not ready, with an
     * error carrying the fetch error or the share's status.
     */
    function IsVolumeReady(volumeId: string, fetched: Result<Share, string>): (r: (bool, Option<StoreError>))
      ensures r.0 <==> r.1.None?
      ensures r.0 <==> fetched.Ok? && fetched.value.status == Available
      ensures fetched.Err? ==> r.1 == Some(VolumeFetchFailed(volumeId, fetched.error))
      ensures fetched.Ok? && !r.0 ==> r.1 == Some(VolumeNotAvailable(volumeId, fetched.value.status))
    {
      match fetched
      case Err(e) => (false, Some(VolumeFetchFailed(volumeId, e)))
      case Ok(share) =>
        if share.status == Available then (true, None)
        else (false, Some(VolumeNotAvailable(volumeId, share.status)))
    }

    /**
     * `GetVolumeID`: the volume handle of a PV whose CSI driver is the one this
     * store handles, "" for any other PV.
     */
    function GetVolumeID(pv: PersistentVolume): (id: string)
      ensures pv.csi.None? ==> id == ""
      ensures pv.csi.Some? && pv.csi.value.driver == csiDriverName ==> id == pv.csi.value.volumeHandle
      ensures pv.csi.Some? && pv.csi.value.driver != csiDriverName ==> id == ""
    {
      match pv.csi
      case None => ""
      case Some(csi) => if csi.driver == csiDriverName then csi.volumeHandle else ""
    }

    /**
     * `SetVolumeID`: for a PV of this store's driver, look up the share's
     * access rule and point the PV at the share: its volume handle and its
     * "shareID" attribute become the share ID and its "shareAccessID" attribute
     * the rule's ID. A PV without a CSI section makes the driver check
     * dereference nil, and one without volume attributes makes the attribute
     * write go into a nil map: both panic.
     */
    function SetVolumeID(pv: PersistentVolume, volumeId: string, rules: AccessRuleReplies)
      : (o: Outcome<Result<PersistentVolume, StoreError>>)
      reads this, client
      requires client != null
      ensures pv.csi.None? ==> o.Panics?
      ensures pv.csi.Some? && pv.csi.value.driver != csiDriverName ==> o == Returns(Err(DriverMismatch(csiDriverName)))
      ensures pv.csi.Some? && pv.csi.value.driver == csiDriverName ==>
        var rule := GetShareAccessRule(client.microversion, volumeId, rules);
        && (rule.Err? ==> o == Returns(Err(rule.error)))
        && (rule.Ok? && pv.csi.value.volumeAttributes.None? ==> o.Panics?)
        && (rule.Ok? && pv.csi.value.volumeAttributes.Some? ==>
              o.Returns? && o.value.Ok? && PointsAtShare(pv, o.value.value, volumeId, rule.value.id))
    {
      match pv.csi
      case None => Panics("nil pointer dereference of spec.csi")
      case Some(csi) =>
        if csi.driver != csiDriverName then Returns(Err(DriverMismatch(csiDriverName)))
        else
          match GetShareAccessRule(client.microversion, volumeId, rules)
          case Err(e) => Returns(Err(e))
          case Ok(rule) =>
            match csi.volumeAttributes
            case None => Panics("assignment to entry in nil map spec.csi.volumeAttributes")
            case Some(attrs) =>
              var attrs' := attrs[ShareIdAttribute := volumeId][ShareAccessIdAttribute := rule.id];
              Returns(Ok(pv.(csi := Some(csi.(volumeHandle := volumeId, volumeAttributes := Some(attrs'))))))
    }

    /** After a successful `SetVolumeID`, `GetVolumeID` reads back the share ID that was set. */
    lemma SetThenGetVolumeID(pv: PersistentVolume, volumeId: string, rules: AccessRuleReplies)
      requires client != null
      ensures var o := SetVolumeID(pv, volumeId, rules);
        o.Returns? && o.value.Ok? ==> GetVolumeID(o.value.value) == volumeId
    {
    }
  }

  /**
   * `updated` is `pv` pointed at share `shareId` with access rule `accessId`:
   * the volume handle and the two share attributes are set, nothing else changes.
   */
  ghost predicate PointsAtShare(pv: PersistentVolume, updated: PersistentVolume, shareId: string, accessId: string)
    requires pv.csi.Some? && pv.csi.value.volumeAttributes.Some?
  {
    var csi := pv.csi.value;
    var attrs := csi.volumeAttributes.value;
    && updated.name == pv.name && updated.storageClassName == pv.storageClassName
    && updated.csi.Some?
    && var csi' := updated.csi.value;
    && csi'.driver == csi.driver && csi'.fsType == csi.fsType && csi'.readOnly == csi.readOnly
    && csi'.volumeHandle == shareId
    && csi'.volumeAttributes.Some?
    && var attrs' := csi'.volumeAttributes.value;
    && attrs'.Keys == attrs.Keys + {ShareIdAttribute, ShareAccessIdAttribute}
    && attrs'[ShareIdAttribute] == shareId
    && attrs'[ShareAccessIdAttribute] == accessId
    && forall k :: k in attrs && k != ShareIdAttribute && k != ShareAccessIdAttribute ==> attrs'[k] == attrs[k]
  }
}
