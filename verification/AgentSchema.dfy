/**
 The persisted entities of one Agent Run.

 Instants are integers counting microseconds in UTC.  A SHA-256 digest is modelled by the value it
 was taken of, which is the assumption that no two persisted values collide.
 */
module AgentSchema {
  import opened Wrappers

  type Instant = int

  datatype Digest<+T> = Sha256(preimage: T)

  datatype Status = Created | Running | WaitingApproval | Succeeded | Failed | Cancelled | Expired

  predicate Terminal(status: Status) {
    status.Succeeded? || status.Failed? || status.Cancelled? || status.Expired?
  }

  datatype EventKind =
    | RunStarted | ModelDelta | ToolCallProposed | ApprovalRequired | ToolStarted
    | ToolCompleted | MessageCompleted | RunCompleted | RunFailed

  /** Arguments are compared by their key-sorted canonical form, so an update set is a map. */
  datatype Arguments =
    | ConfigPatch(source: string, updates: map<string, string>)
    | OtherArguments(canonical: string)

  datatype ToolCall = ToolCall(callId: string, serverId: string, toolName: string, arguments: Arguments)

  datatype Event = Event(sequence: nat, kind: EventKind, createdAt: Instant, data: string)

  datatype Verdict = Approved | Rejected

  datatype Decision = Decision(
    approvalId: string,
    callSha: Digest<ToolCall>,
    verdict: Verdict,
    idempotencyKey: string,
    decidedAt: Instant)

  datatype Record = Record(
    requestSha: Digest<string>,
    status: Status,
    createdAt: Instant,
    updatedAt: Instant,
    expiresAt: Instant,
    completedAt: Option<Instant>,
    lastEventSequence: nat,
    pendingApprovalId: Option<string>,
    pendingToolCall: Option<ToolCall>,
    errorCode: Option<string>)

  /** The cross-field rules a record must meet to be loaded from, or validated before, a write. */
  predicate Consistent(r: Record) {
    && r.createdAt <= r.updatedAt <= r.expiresAt
    && (Terminal(r.status) <==> r.completedAt.Some?)
    && (r.status.WaitingApproval? <==> r.pendingApprovalId.Some?)
    && (r.status.WaitingApproval? <==> r.pendingToolCall.Some?)
    && (r.status.Failed? <==> r.errorCode.Some?)
  }

  /** The pattern [A-Za-z0-9._:-]{16,128} every Idempotency-Key must match. */
  predicate ValidKey(key: string) {
    && 16 <= |key| <= 128
    && forall i | 0 <= i < |key| ::
         var c := key[i];
         'A' <= c <= 'Z' || 'a' <= c <= 'z' || '0' <= c <= '9' || c in "._:-"
  }
}
