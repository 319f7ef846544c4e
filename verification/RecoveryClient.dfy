/** The client's side of a recovery: one state machine, and the service that feeds
    it with messages and local outcomes. */
module RecoveryClient {
  import opened Basics

  datatype ClientStage =
    | Idle
    | RecoveryLocked
    | LoadingNativeSave
    | NativeSaveLoaded
    | SnapshotApplied
    | Completed
    | Failed

  datatype Action =
    | Reject
    | Ignore
    | StartNativeLoad
    | ResendLoaded
    | ApplySnapshot
    | ResendSnapshotApplied
    | Release

  /** Absent parts are the empty strings and zero revisions of the wire. */
  datatype Correlation = Correlation(
    campaign: Id,
    attempt: Option<nat>,
    checkpoint: Id,
    source: nat,
    restore: nat)

  datatype Client = Client(stage: ClientStage, correlation: Correlation, authoritative: bool)

  const NOTHING := Correlation([], None, [], 0, 0)

  const FRESH := Client(Idle, NOTHING, false)

  predicate AtRest(c: Client) { c.stage == Idle || c.stage == Completed }

  /** Whether a lock for a campaign is accepted. */
  predicate CanLock(c: Client, campaign: Id) {
    campaign != [] && (AtRest(c) || c.correlation.campaign == campaign)
  }

  function Locked(c: Client, campaign: Id, authoritative: bool): Client {
    if !CanLock(c, campaign) then c
    else if AtRest(c) then Client(RecoveryLocked, NOTHING.(campaign := campaign), authoritative)
    else if authoritative then c.(authoritative := true)
    else c
  }

  predicate MatchesBase(c: Client, x: Correlation) {
    && x.campaign != [] && x.attempt.Some? && x.checkpoint != []
    && x.campaign == c.correlation.campaign && x.attempt == c.correlation.attempt
    && x.checkpoint == c.correlation.checkpoint && x.source == c.correlation.source
  }

  function ObserveActive(c: Client, campaign: Id): (Client, Action) {
    if campaign == [] || campaign != c.correlation.campaign then (c, Reject)
    else if c.stage == SnapshotApplied && c.correlation.attempt.Some? then (c, ResendSnapshotApplied)
    else if c.stage == RecoveryLocked && c.correlation.attempt.None? && !c.authoritative then (FRESH, Release)
    else (c, Ignore)
  }

  function ObserveLoadRequest(c: Client, x: Correlation): (Client, Action) {
    if x.campaign == [] || x.attempt.None? || x.checkpoint == [] || x.source == 0 || x.restore != 0
       || x.campaign != c.correlation.campaign
    then (c, Reject)
    else if c.stage == RecoveryLocked then (Client(LoadingNativeSave, x, true), StartNativeLoad)
    else if !MatchesBase(c, x) then (c, Reject)
    else if c.stage == Failed then (c.(stage := LoadingNativeSave), StartNativeLoad)
    else if c.stage == LoadingNativeSave then (c, Ignore)
    else if c.stage == NativeSaveLoaded || c.stage == SnapshotApplied then (c, ResendLoaded)
    else (c, Reject)
  }

  function FinishNativeLoad(c: Client, succeeded: bool): Client {
    if c.stage != LoadingNativeSave then c else c.(stage := if succeeded then NativeSaveLoaded else Failed)
  }

  function ObserveSnapshot(c: Client, x: Correlation): (Client, Action) {
    if !MatchesBase(c, x) || x.restore == 0 then (c, Reject)
    else if c.stage == NativeSaveLoaded then (c.(correlation := c.correlation.(restore := x.restore)), ApplySnapshot)
    else if c.stage == SnapshotApplied && c.correlation.restore == x.restore then (c, ResendSnapshotApplied)
    else (c, Reject)
  }

  function FinishSnapshotApply(c: Client): Client {
    if c.stage != NativeSaveLoaded || c.correlation.restore == 0 then c else c.(stage := SnapshotApplied)
  }

  function ObserveComplete(c: Client, x: Correlation): (Client, Action) {
    if c.stage == Completed && c.correlation == x then (c, Release)
    else if c.stage != SnapshotApplied || c.correlation != x then (c, Reject)
    else (c.(stage := Completed), Release)
  }

  /*
   * The client service
   */

  /** What the server may send about a recovery. */
  datatype Message =
    | LoadRequest(attempt: nat, checkpoint: Id, source: nat)
    | Snapshot(attempt: nat, checkpoint: Id, restore: nat)
    | Complete(attempt: nat, checkpoint: Id, restore: nat)

  /** What happens to a client: a message arrives, the campaign's public state says
      active or recovering, the transport is lost, a native load or the application
      of a snapshot ends one way or the other. */
  datatype Event =
    | Receive(message: Message, good: bool)
    | SeesActive
    | SeesRecovery
    | LosesTransport
    | LoadEnds(succeeded: bool)

  function Reads(c: Client, m: Message, campaign: Id): Correlation {
    match m
    case LoadRequest(attempt, checkpoint, source) => Correlation(campaign, Some(attempt), checkpoint, source, 0)
    case Snapshot(_, _, restore) => c.correlation.(restore := restore)
    case Complete(_, _, restore) => c.correlation.(restore := restore)
  }

  /** A snapshot or completion must name the client's own attempt. */
  predicate Concerns(c: Client, m: Message, campaign: Id) {
    c.correlation.campaign == campaign && c.correlation.attempt == Some(m.attempt)
      && c.correlation.checkpoint == m.checkpoint
  }

  /** A message with an empty identity or a zero revision is dropped unread. */
  predicate IsValid(m: Message) {
    m.checkpoint != [] && (if m.LoadRequest? then m.source != 0 else m.restore != 0)
  }

  /** Handling a message; `good` says whether its artifact parses, or whether the
      game accepts the snapshot. */
  function Handle(c: Client, m: Message, campaign: Id, good: bool): (Client, Action) {
    if !IsValid(m) then (c, Reject)
    else
      match m
      case LoadRequest(_, _, _) =>
        if !CanLock(c, campaign) then (c, Reject)
        else
          var r := ObserveLoadRequest(Locked(c, campaign, true), Reads(c, m, campaign));
          if r.1 == StartNativeLoad && !good then (FinishNativeLoad(r.0, false), r.1) else r
      case Snapshot(_, _, _) =>
        if !Concerns(c, m, campaign) then (c, Reject)
        else
          var r := ObserveSnapshot(c, Reads(c, m, campaign));
          if r.1 == ApplySnapshot && good then (FinishSnapshotApply(r.0), r.1) else r
      case Complete(_, _, _) =>
        if !Concerns(c, m, campaign) then (c, Reject) else ObserveComplete(c, Reads(c, m, campaign))
  }

  function React(c: Client, e: Event, campaign: Id): (Client, Action) {
    match e
    case Receive(m, good) => Handle(c, m, campaign, good)
    case SeesActive => ObserveActive(c, campaign)
    case SeesRecovery => (Locked(c, campaign, true), Ignore)
    case LosesTransport => (Locked(c, campaign, false), Ignore)
    case LoadEnds(succeeded) => (FinishNativeLoad(c, succeeded), Ignore)
  }

  /** The locks the client accepts: for a load request, a campaign in recovery, a lost
      connection. */
  predicate TakesLock(c: Client, e: Event, campaign: Id) {
    && CanLock(c, campaign)
    && (e.SeesRecovery? || e.LosesTransport? || (e.Receive? && e.message.LoadRequest? && IsValid(e.message)))
  }

  /** Whether the player's game is locked after an event: every accepted lock locks it,
      and nothing but a release lets it go. */
  function GameLocked(c: Client, e: Event, campaign: Id, locked: bool): bool {
    if TakesLock(c, e, campaign) then true else locked && React(c, e, campaign).1 != Release
  }

  /** How far a client is in its attempt. */
  function Progress(s: ClientStage): nat {
    match s
    case Idle => 0
    case RecoveryLocked => 1
    case Failed => 2
    case LoadingNativeSave => 2
    case NativeSaveLoaded => 3
    case SnapshotApplied => 4
    case Completed => 5
  }

  /** A client without an attempt is idle or merely locked, and the other way round. */
  predicate Sane(c: Client) {
    && (c.correlation.attempt.None? <==> c.stage == Idle || c.stage == RecoveryLocked)
    && (c.stage == SnapshotApplied || c.stage == Completed ==> c.correlation.restore != 0)
  }

  lemma ReactKeepsSane(c: Client, e: Event, campaign: Id)
    requires Sane(c)
    ensures Sane(React(c, e, campaign).0)
  {
  }

  /** A load request for an attempt the client has already completed. */
  predicate LateLoadRequest(c: Client, e: Event, campaign: Id) {
    && c.stage == Completed && e.Receive? && e.message.LoadRequest? && c.correlation.attempt == Some(e.message.attempt)
    && campaign != []
  }

  /** It starts the attempt over: the service locks again before it looks at the request. */
  lemma LateLoadRequestRestarts(c: Client, e: Event, campaign: Id)
    requires Sane(c) && LateLoadRequest(c, e, campaign) && IsValid(e.message)
    ensures React(c, e, campaign).0.stage == (if e.good then LoadingNativeSave else Failed)
  {
  }
}
