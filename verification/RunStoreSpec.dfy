/**
 What one operation on the Artifact Store writes, and in which order.

 The store is a value.  An operation reads it once and yields a Plan: the file writes it performs one
 after the other, and what it tells its caller if it survives all of them.  A crash, or a write the
 medium refuses, leaves exactly a prefix of the plan behind.
 */
module RunStoreSpec {
  import opened Wrappers
  import opened AgentSchema

  datatype Pointer = Pointer(runId: string, keySha: Digest<string>, requestSha: Digest<string>)

  /** One directory below agent-runs; None is a file that was never written. */
  datatype RunDir = RunDir(
    request: Option<string>,
    record: Option<Record>,
    pointer: Option<Pointer>,
    log: Option<seq<Event>>,
    approvals: map<string, Decision>)

  type Config = map<string, string>

  datatype Source = Unreadable | Mapping(config: Config)

  datatype Target = Target(runId: string, path: string)

  datatype Disk = Disk(
    runs: map<string, RunDir>,
    sandboxes: map<Target, Config>,
    sources: map<string, Source>)

  datatype Write =
    | MakeRun(runId: string)
    | PutRequest(runId: string, request: string)
    | PutRecord(runId: string, record: Record)
    | PutPointer(runId: string, pointer: Pointer)
    | TouchLog(runId: string)
    | AppendLine(runId: string, event: Event)
    | PutApproval(runId: string, decision: Decision)
    | PutSandbox(target: Target, approvalId: string, callId: string, updates: Config, payload: Config)
    | EditSource(path: string, source: Source)

  datatype Reply =
    | Refused
    | Identity(runId: string, created: bool)
    | Appended(event: Event)
    | Projection(record: Record, changed: bool)
    | Decided(created: bool)
    | Patched(target: Target, payload: Config)
    | Edited

  datatype Plan = Plan(writes: seq<Write>, reply: Reply)

  const REFUSE := Plan([], Refused)

  // ----- the medium -----

  function UpdateRun(d: Disk, runId: string, dir: RunDir): Disk {
    d.(runs := d.runs[runId := dir])
  }

  function Apply(d: Disk, w: Write): Disk {
    match w
    case MakeRun(r) =>
      if r in d.runs then d else UpdateRun(d, r, RunDir(None, None, None, None, map[]))
    case PutSandbox(t, _, _, _, payload) => d.(sandboxes := d.sandboxes[t := payload])
    case EditSource(p, source) => d.(sources := d.sources[p := source])
    case _ =>
      if w.runId !in d.runs then d else
        UpdateRun(d, w.runId, ApplyToRun(d.runs[w.runId], w))
  }

  function ApplyToRun(dir: RunDir, w: Write): RunDir {
    match w
    case PutRequest(_, request) => dir.(request := Some(request))
    case PutRecord(_, record) => dir.(record := Some(record))
    case PutPointer(_, pointer) => dir.(pointer := Some(pointer))
    case TouchLog(_) => if dir.log.Some? then dir else dir.(log := Some([]))
    case AppendLine(_, e) => dir.(log := Some((if dir.log.Some? then dir.log.value else []) + [e]))
    case PutApproval(_, decision) => dir.(approvals := dir.approvals[decision.approvalId := decision])
    case _ => dir
  }

  function ApplyAll(d: Disk, ws: seq<Write>): Disk
    decreases |ws|
  {
    if ws == [] then d else ApplyAll(Apply(d, ws[0]), ws[1..])
  }

  /** The writes that reached the disk when only `survived` of them could. */
  function Cut(ws: seq<Write>, survived: nat): seq<Write> {
    if survived < |ws| then ws[..survived] else ws
  }

  /** `first`, and when it was not refused, `second` planned on what `first` leaves behind. */
  ghost function Then(d: Disk, first: Plan, second: (Disk, Reply) -> Plan): Plan {
    if first.reply.Refused? then first
    else
      var next := second(ApplyAll(d, first.writes), first.reply);
      Plan(first.writes + next.writes, next.reply)
  }

  // ----- reading -----

  /** The record of a Run, if it is there and passes its schema. */
  function Load(d: Disk, runId: string): Option<Record> {
    if runId in d.runs && d.runs[runId].record.Some? && Consistent(d.runs[runId].record.value)
    then d.runs[runId].record
    else None
  }

  predicate Gapless(log: seq<Event>) {
    forall i | 0 <= i < |log| :: log[i].sequence == i + 1
  }

  function Newer(log: seq<Event>, cursor: int): seq<Event> {
    if log == [] then []
    else (if log[0].sequence > cursor then [log[0]] else []) + Newer(log[1..], cursor)
  }

  function EventsAfter(d: Disk, runId: string, cursor: int): Option<seq<Event>> {
    if cursor >= 0 && runId in d.runs && d.runs[runId].log.Some? && Gapless(d.runs[runId].log.value)
    then Some(Newer(d.runs[runId].log.value, cursor))
    else None
  }

  // ----- creation -----

  const DAY: int := 86_400_000_000

  ghost predicate KeyHeldBy(d: Disk, key: string, runId: string) {
    runId in d.runs && d.runs[runId].pointer.Some? && d.runs[runId].pointer.value.keySha == Sha256(key)
  }

  function InitialRecord(request: string, now: Instant, expiresIn: int): Record {
    Record(Sha256(request), Created, now, now, now + expiresIn, None, 0, None, None, None)
  }

  function CreationWrites(runId: string, request: string, key: string, now: Instant, expiresIn: int): seq<Write> {
    [ MakeRun(runId),
      PutRequest(runId, request),
      PutRecord(runId, InitialRecord(request, now, expiresIn)),
      PutPointer(runId, Pointer(runId, Sha256(key), Sha256(request))),
      TouchLog(runId) ]
  }

  /** What create answers once it found the pointer of `holder` under the given key. */
  function Replay(d: Disk, holder: Pointer, request: string): Plan {
    if holder.requestSha != Sha256(request) || Load(d, holder.runId).None? then REFUSE
    else Plan([], Identity(holder.runId, false))
  }

  ghost function CreatePlan(d: Disk, request: string, key: string, now: Instant, expiresIn: int, runId: string): Plan {
    if !ValidKey(key) || expiresIn <= 0 || expiresIn > DAY then REFUSE
    else if h :| KeyHeldBy(d, key, h) then Replay(d, d.runs[h].pointer.value, request)
    else if runId in d.runs then REFUSE
    else Plan(CreationWrites(runId, request, key, now, expiresIn), Identity(runId, true))
  }

  // ----- events and transitions -----

  function AppendPlan(d: Disk, runId: string, kind: EventKind, data: string, now: Instant): Plan {
    match Load(d, runId)
    case None => REFUSE
    case Some(r) =>
      if Terminal(r.status) then REFUSE else
        match EventsAfter(d, runId, 0)
        case None => REFUSE
        case Some(es) =>
          var durable := if es == [] then 0 else es[|es| - 1].sequence;
          if r.lastEventSequence > durable then REFUSE
          else
            var e := Event(durable + 1, kind, now, data);
            Plan([AppendLine(runId, e),
                  PutRecord(runId, r.(updatedAt := now, lastEventSequence := e.sequence))],
                 Appended(e))
  }

  function TransitionPlan(d: Disk, runId: string, status: Status, now: Instant,
                          approvalId: Option<string>, call: Option<ToolCall>, errorCode: Option<string>): Plan
  {
    match Load(d, runId)
    case None => REFUSE
    case Some(r) =>
      if Terminal(r.status) then REFUSE else
        var updated := r.(status := status, updatedAt := now,
                          completedAt := if Terminal(status) then Some(now) else None,
                          pendingApprovalId := approvalId, pendingToolCall := call, errorCode := errorCode);
        if !Consistent(updated) then REFUSE
        else Plan([PutRecord(runId, updated)], Projection(updated, true))
  }

  function CancelPlan(d: Disk, runId: string, now: Instant): Plan {
    match Load(d, runId)
    case None => REFUSE
    case Some(r) =>
      if r.status.Cancelled? then Plan([], Projection(r, false))
      else if Terminal(r.status) then REFUSE
      else TransitionPlan(d, runId, Cancelled, now, None, None, None)
  }

  ghost function ExpirePlan(d: Disk, runId: string, now: Instant): Plan {
    match Load(d, runId)
    case None => REFUSE
    case Some(r) =>
      if Terminal(r.status) || now < r.expiresAt then Plan([], Projection(r, false))
      else
        Then(d, AppendPlan(d, runId, RunFailed, "AGENT_RUN_EXPIRED", r.expiresAt),
             (mid: Disk, _: Reply) => TransitionPlan(mid, runId, Expired, r.expiresAt, None, None, None))
  }

  /** The service's failure path: the event and the transition read the clock one after the other. */
  ghost function FailPlan(d: Disk, runId: string, code: string, now: Instant, later: Instant): Plan {
    match Load(d, runId)
    case None => REFUSE
    case Some(r) =>
      if Terminal(r.status) then Plan([], Projection(r, false))
      else
        Then(d, AppendPlan(d, runId, RunFailed, code, now),
             (mid: Disk, _: Reply) => TransitionPlan(mid, runId, Failed, later, None, None, Some(code)))
  }

  // ----- approvals -----

  function DecidePlan(d: Disk, runId: string, decision: Decision): Plan {
    match Load(d, runId)
    case None => REFUSE
    case Some(r) =>
      var stored := d.runs[runId].approvals;
      if decision.approvalId in stored then
        if stored[decision.approvalId] != decision then REFUSE else Plan([], Decided(false))
      else if r.pendingApprovalId != Some(decision.approvalId) || !r.status.WaitingApproval? then REFUSE
      else if Sha256(r.pendingToolCall.value) != decision.callSha then REFUSE
      else Plan([PutApproval(runId, decision)], Decided(true))
  }

  function StoredApproval(d: Disk, runId: string, approvalId: string): Option<Decision> {
    if runId in d.runs && approvalId in d.runs[runId].approvals
    then Some(d.runs[runId].approvals[approvalId]) else None
  }

  /** POST /runs/{run}/approvals/{id}: replay, or refresh the Run and persist a first decision. */
  ghost function PostPlan(d: Disk, runId: string, approvalId: string, verdict: Verdict,
                          key: string, now: Instant, later: Instant): Plan
  {
    match StoredApproval(d, runId, approvalId)
    case Some(existing) =>
      if existing.verdict != verdict || existing.idempotencyKey != key then REFUSE
      else ExpirePlan(d, runId, now)
    case None =>
      Then(d, ExpirePlan(d, runId, now), (mid: Disk, reply: Reply) =>
        if !reply.Projection? || reply.record.pendingToolCall.None? then REFUSE
        else DecidePlan(mid, runId,
               Decision(approvalId, Sha256(reply.record.pendingToolCall.value), verdict, key, later)))
  }

  // ----- the approved write -----

  const SERVER := "tinyllm-devops"
  const TOOL := "apply_sandbox_config_patch"

  function PatchPlan(d: Disk, runId: string, approvalId: string, callId: string,
                     path: string, updates: Config): Plan
  {
    if updates == map[] then REFUSE else
      match StoredApproval(d, runId, approvalId)
      case None => REFUSE
      case Some(decision) =>
        var proposed := ToolCall(callId, SERVER, TOOL, ConfigPatch(path, updates));
        if decision.approvalId != approvalId || !decision.verdict.Approved? then REFUSE
        else if Sha256(proposed) != decision.callSha then REFUSE
        else if path !in d.sources || d.sources[path].Unreadable? then REFUSE
        else
          var t := Target(runId, path);
          var payload := d.sources[path].config + updates;
          if t in d.sandboxes then
            if d.sandboxes[t] == payload then Plan([], Patched(t, payload)) else REFUSE
          else Plan([PutSandbox(t, approvalId, callId, updates, payload)], Patched(t, payload))
  }

  // ----- every way the disk changes -----

  datatype Op =
    | Create(request: string, key: string, now: Instant, expiresIn: int, runId: string)
    | Append(runId: string, kind: EventKind, data: string, now: Instant)
    | Transition(runId: string, status: Status, now: Instant,
                 approvalId: Option<string>, call: Option<ToolCall>, errorCode: Option<string>)
    | Cancel(runId: string, now: Instant)
    | Expire(runId: string, now: Instant)
    | Fail(runId: string, code: string, now: Instant, later: Instant)
    | Decide(runId: string, decision: Decision)
    | Post(runId: string, id: string, verdict: Verdict, key: string, now: Instant, later: Instant)
    | Patch(runId: string, id: string, callId: string, path: string, updates: Config)
    | Maintain(path: string, source: Source)   // an administrator edits a source configuration

  ghost function PlanOf(d: Disk, op: Op): Plan {
    match op
    case Create(request, key, now, expiresIn, runId) => CreatePlan(d, request, key, now, expiresIn, runId)
    case Append(runId, kind, data, now) => AppendPlan(d, runId, kind, data, now)
    case Transition(runId, status, now, approvalId, call, errorCode) =>
      TransitionPlan(d, runId, status, now, approvalId, call, errorCode)
    case Cancel(runId, now) => CancelPlan(d, runId, now)
    case Expire(runId, now) => ExpirePlan(d, runId, now)
    case Fail(runId, code, now, later) => FailPlan(d, runId, code, now, later)
    case Decide(runId, decision) => DecidePlan(d, runId, decision)
    case Post(runId, id, verdict, key, now, later) => PostPlan(d, runId, id, verdict, key, now, later)
    case Patch(runId, id, callId, path, updates) => PatchPlan(d, runId, id, callId, path, updates)
    case Maintain(path, source) => Plan([EditSource(path, source)], Edited)
  }

  /**
   One operation and how many of its actions survived: its writes in order, then its answer.  With
   exactly as many as it has writes, everything reached the disk and the caller heard nothing.
   */
  datatype Step = Step(op: Op, survived: nat)

  ghost function Landed(d: Disk, s: Step): seq<Write> {
    Cut(PlanOf(d, s.op).writes, s.survived)
  }

  ghost predicate Acknowledged(d: Disk, s: Step) {
    |PlanOf(d, s.op).writes| < s.survived && !PlanOf(d, s.op).reply.Refused?
  }

  /** Every write of a whole history of operations, crashes included, in disk order. */
  ghost function Trace(d: Disk, history: seq<Step>): seq<Write>
    decreases |history|
  {
    if history == [] then []
    else
      var ws := Landed(d, history[0]);
      ws + Trace(ApplyAll(d, ws), history[1..])
  }

  ghost function After(d: Disk, history: seq<Step>): Disk {
    ApplyAll(d, Trace(d, history))
  }
}
