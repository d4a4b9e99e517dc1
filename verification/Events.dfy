/** The replicated event envelope: cursors, payloads, checksums and the checks an event must pass on its own. */
module Events {

  // Go strings are byte strings, and so is every identifier here.
  type Byte = b: nat | b < 256
  type Text = seq<Byte>

  datatype Option<+T> = None | Some(value: T)

  datatype Result<+T> = Ok(value: T) | Err(error: Error)

  datatype Error =
    | Incomplete
    | ChecksumMissing
    | ChecksumMismatch
    | WrongProject
    | IdReused
    | KeyReused
    | EpochFenced
    | SequenceGap
    | ChecksumChain
    | RoleFenced
    | ReplicaAhead
    | Diverged
    | InvalidReplicaIds
    | FenceSourceNotActive
    | PromotionRequestInvalid
    | PromotionCandidateNotReplica
    | PromotionEmptyJournals
    | PromotionSourceNotActive
    | PromotionNotConverged
    | PromoteTargetWrongEpoch
    | JournalClosed
    | StorageFailure
    | Interrupted
    | CheckpointEmpty
    | CheckpointCursorNotFound
    | CheckpointAhead
    | CheckpointInvalid
    | RestoreTargetNotEmpty
    | ReplicaIdRequired
    | EventIdRequired
    | InvalidArgument
    | NotFound
    | Conflict
    | LeaseFenced
    | InvalidTransition
    | RetriesExhausted
    | PendingGitDelivery
    | NotExpectedBase
    | PayloadMismatch
    | NoCommit
    | EventAbsent
    | TooManyCommits
    | NotDescendant
    | PushRejected
    | RemoteMissing

  datatype Role = Active | Replica

  datatype Cursor = Cursor(epoch: int, sequence: int) {
    predicate IsZero() { epoch == 0 && sequence == 0 }
  }

  const ZERO := Cursor(0, 0)

  function CompareCursor(a: Cursor, b: Cursor): int {
    if a.epoch != b.epoch then
      if a.epoch < b.epoch then -1 else 1
    else if a.sequence < b.sequence then -1
    else if a.sequence > b.sequence then 1
    else 0
  }

  predicate Before(a: Cursor, b: Cursor) {
    CompareCursor(a, b) < 0
  }

  // ---------------------------------------------------------------- text

  predicate IsSpace(b: Byte) {
    b == 32 || 9 <= b <= 13
  }

  function TrimLeft(t: Text): Text {
    if t != [] && IsSpace(t[0]) then TrimLeft(t[1..]) else t
  }

  function TrimRight(t: Text): Text {
    if t != [] && IsSpace(t[|t| - 1]) then TrimRight(t[..|t| - 1]) else t
  }

  function Trim(t: Text): Text {
    TrimRight(TrimLeft(t))
  }

  predicate Blank(t: Text) {
    forall i :: 0 <= i < |t| ==> IsSpace(t[i])
  }

  // ------------------------------------------------------------- payloads

  datatype LeaseFence = LeaseFence(epoch: int, token: Text)

  // Instants are counted from Go's zero time, so 0 is the zero time.
  type Instant = int

  datatype Lease = Lease(id: Text, resource: Text, holder: Text, fence: LeaseFence,
                         acquiredAt: Instant, renewedAt: Instant, expiresAt: Instant)

  datatype Status =
    | Planning | Working | HandoffPending | AwaitingMerge | AwaitingPush | AwaitingCleanup
    | Completed | Aborted | Failed | Superseded | Archived
    | Unlisted(name: Text)

  datatype Subject = Effort | Run

  // The constructor stands for the event kind, its arguments for the decoded payload.
  datatype Payload =
    | Promotion(former: Text, candidate: Text, reason: Text)
    | LeaseAcquired(lease: Lease)
    | LeaseRenewed(leaseId: Text, at: Instant, expiresAt: Instant)
    | LeaseReleased(leaseId: Text, at: Instant)
    | LeaseReclaimed(lease: Lease, supersededId: Text, supersededHolder: Text, supersededExpiredAt: Instant)
    | LeaseTransferred(leaseId: Text, fromHolder: Text, toHolder: Text, fence: LeaseFence, at: Instant, expiresAt: Instant)
    | ClaimRecorded(claimId: Text, run: Text, supersededClaim: Option<Text>)
    | ClaimRenewed(claimId: Text, fence: LeaseFence, at: Instant)
    | ClaimReleased(claimId: Text, at: Instant)
    | ClaimHandedOff(claimId: Text, fromRun: Text, toRun: Text, fence: LeaseFence, at: Instant)
    | Started(subject: Subject, subjectId: Text)
    | Transitioned(subject: Subject, subjectId: Text, source: Status, target: Status, disposition: Text)
    | Other(kind: Text, body: nat)

  // --------------------------------------------------------------- events

  datatype Schema = StateChangeV1 | OtherSchema(name: Text)

  datatype Fields = Fields(
    schema: Schema, projectId: Text, eventId: Text, cursor: Cursor, occurredAt: Instant,
    actorId: Text, commandId: Text, key: Text, correlationId: Text, payload: Payload)

  // A checksum is the hash of everything it covers, so it is injective by construction.
  datatype Digest = NoDigest | Sha256(fields: Fields, previous: Digest)

  datatype Event = Event(fields: Fields, previous: Digest, checksum: Digest) {
    function Cursor(): Cursor { fields.cursor }
    function Id(): Text { fields.eventId }
    function Key(): Text { fields.key }
  }

  predicate CompleteFields(f: Fields) {
    && f.schema.StateChangeV1?
    && !Blank(f.projectId) && !Blank(f.eventId) && !Blank(f.actorId)
    && !Blank(f.commandId) && !Blank(f.key)
    && (f.payload.Other? ==> !Blank(f.payload.kind))
    && f.cursor.epoch >= 1 && f.cursor.sequence >= 1
    && f.occurredAt != 0
  }

  function EventHash(e: Event): Digest {
    Sha256(e.fields, e.previous)
  }

  // Event.Verify: the first reason to refuse the event on its own, if there is one.
  function Verify(e: Event): Option<Error> {
    if !CompleteFields(e.fields) then Some(Incomplete)
    else if e.checksum.NoDigest? then Some(ChecksumMissing)
    else if e.checksum != EventHash(e) then Some(ChecksumMismatch)
    else None
  }

  // An empty schema stands for the current one.
  function Filled(f: Fields): Fields {
    if f.schema == OtherSchema([]) then f.(schema := StateChangeV1) else f
  }

  // NewEvent: the signed event, or a refusal when its fields are incomplete.
  function NewEvent(f: Fields, previous: Digest): (r: Result<Event>)
    ensures r.Ok? <==> CompleteFields(Filled(f))
    ensures r.Ok? ==> r.value.fields == Filled(f) && r.value.previous == previous && Verify(r.value).None?
  {
    var g := Filled(f);
    if CompleteFields(g) then Ok(Event(g, previous, Sha256(g, previous))) else Err(Incomplete)
  }
}
