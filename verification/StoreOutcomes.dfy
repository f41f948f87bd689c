/**
 What each store operation answers and leaves on the disk, said without its plan: when it is refused,
 and which directory, file or record it changes otherwise.
 */
module StoreOutcomes {
  import opened Wrappers
  import opened AgentSchema
  import opened RunStoreSpec
  import opened RunStoreInvariant
  import opened RunStoreHistory
  import opened RunStoreTheorems
  import opened CreationTheorems
  import opened ExpiryTheorems

  lemma OneWrite(d: Disk, w: Write)
    ensures ApplyAll(d, [w]) == Apply(d, w)
  {
    assert [w][1..] == [];
  }

  // ----- events -----

  /**
   An event is refused, without a write, unless the Run loads, is not terminal and has its log.  Else
   the log ends with the event, under the next number, and the cursor of the record names it.
   */
  lemma AppendOutcome(d: Disk, runId: string, kind: EventKind, data: string, now: Instant)
    requires Inv(d)
    ensures var plan := AppendPlan(d, runId, kind, data, now);
            if Live(d, runId) && d.runs[runId].log.Some? then
              var dir := d.runs[runId];
              var event := Event(|dir.log.value| + 1, kind, now, data);
              && plan.reply == Appended(event)
              && ApplyAll(d, plan.writes) == UpdateRun(d, runId, dir.(
                   log := Some(dir.log.value + [event]),
                   record := Some(dir.record.value.(updatedAt := now, lastEventSequence := event.sequence))))
            else plan == REFUSE
  {
    AppendAccepted(d, runId, kind, data, now);
    if Live(d, runId) && d.runs[runId].log.Some? {
      AppendInPlace(d, runId, kind, data, now);
    }
  }

  // ----- transitions -----

  /** The statuses a Run never leaves. */
  predicate Closed(status: Status) {
    status in {Succeeded, Failed, Cancelled, Expired}
  }

  /** Which fields the new status of a Run goes with. */
  predicate Fitting(status: Status, approvalId: Option<string>, call: Option<ToolCall>, errorCode: Option<string>) {
    && (status == WaitingApproval <==> approvalId.Some?)
    && (status == WaitingApproval <==> call.Some?)
    && (status == Failed <==> errorCode.Some?)
  }

  /** The record of a Run that took a status at an instant; whatever is not named stays. */
  function Turned(r: Record, status: Status, now: Instant,
                  approvalId: Option<string>, call: Option<ToolCall>, errorCode: Option<string>): Record
  {
    Record(r.requestSha, status, r.createdAt, now, r.expiresAt, if Closed(status) then Some(now) else None,
           r.lastEventSequence, approvalId, call, errorCode)
  }

  /** For every status: when a transition is accepted, and the one file it changes. */
  lemma TransitionOutcome(d: Disk, runId: string, status: Status, now: Instant,
                          approvalId: Option<string>, call: Option<ToolCall>, errorCode: Option<string>)
    ensures var plan := TransitionPlan(d, runId, status, now, approvalId, call, errorCode);
            if Load(d, runId).Some? && !Closed(Load(d, runId).value.status)
               && WithinLife(Load(d, runId).value, now) && Fitting(status, approvalId, call, errorCode)
            then
              var turned := Turned(Load(d, runId).value, status, now, approvalId, call, errorCode);
              && plan.reply == Projection(turned, true)
              && ApplyAll(d, plan.writes) == UpdateRun(d, runId, d.runs[runId].(record := Some(turned)))
            else plan == REFUSE
  {
    var plan := TransitionPlan(d, runId, status, now, approvalId, call, errorCode);
    if plan.writes != [] {
      OneWrite(d, plan.writes[0]);
    }
  }

  /**
   A cancelled Run is answered as it is; a live one becomes Cancelled when the instant lies within its
   life; any other request is refused.  Only the record of a live Run is ever written.
   */
  lemma CancelOutcome(d: Disk, runId: string, now: Instant)
    ensures var plan := CancelPlan(d, runId, now);
            match Load(d, runId)
            case None => plan == REFUSE
            case Some(r) =>
              if r.status == Cancelled then plan == Plan([], Projection(r, false))
              else if Closed(r.status) || !WithinLife(r, now) then plan == REFUSE
              else
                var done := r.(status := Cancelled, updatedAt := now, completedAt := Some(now),
                               pendingApprovalId := None, pendingToolCall := None, errorCode := None);
                && plan.reply == Projection(done, true)
                && ApplyAll(d, plan.writes) == UpdateRun(d, runId, d.runs[runId].(record := Some(done)))
  {
    TransitionOutcome(d, runId, Cancelled, now, None, None, None);
  }

  /** Recording a failure where it is not the end of a live Run with a log: nothing is written. */
  lemma FailElsewhere(d: Disk, runId: string, code: string, now: Instant, later: Instant)
    requires Inv(d) && !(Live(d, runId) && d.runs[runId].log.Some?)
    ensures FailPlan(d, runId, code, now, later) ==
            match Load(d, runId)
            case None => REFUSE
            case Some(r) => if Closed(r.status) then Plan([], Projection(r, false)) else REFUSE
  {
    AppendOutcome(d, runId, RunFailed, code, now);
  }

  // ----- creation -----

  const ONE_DAY := 24 * 60 * 60 * 1_000_000

  /** A Run as a creation leaves it: everything is there, and it lives for the time asked for. */
  function NewRun(runId: string, request: string, key: string, now: Instant, expiresIn: int): RunDir {
    RunDir(Some(request),
           Some(Record(Sha256(request), Created, now, now, now + expiresIn, None, 0, None, None, None)),
           Some(Pointer(runId, Sha256(key), Sha256(request))),
           Some([]),
           map[])
  }

  /**
   A creation is refused for a malformed key or a life time outside (0, one day].  A key that is held
   is answered with the Run that holds it, when that Run loads and was made by the same request.  A
   free key makes one new Run, if the name is free.
   */
  lemma CreateOutcome(d: Disk, request: string, key: string, now: Instant, expiresIn: int, runId: string)
    requires Inv(d)
    ensures var plan := CreatePlan(d, request, key, now, expiresIn, runId);
            && (!ValidKey(key) || expiresIn <= 0 || expiresIn > ONE_DAY ==> plan == REFUSE)
            && (ValidKey(key) && 0 < expiresIn <= ONE_DAY ==>
                  && (forall h | KeyHeldBy(d, key, h) ::
                        plan == if Bound(d, key, request, h) && Load(d, h).Some?
                                then Plan([], Identity(h, false)) else REFUSE)
                  && ((forall h :: !KeyHeldBy(d, key, h)) && runId in d.runs ==> plan == REFUSE)
                  && ((forall h :: !KeyHeldBy(d, key, h)) && runId !in d.runs ==>
                        && plan.reply == Identity(runId, true)
                        && ApplyAll(d, plan.writes)
                           == UpdateRun(d, runId, NewRun(runId, request, key, now, expiresIn))
                        && Load(ApplyAll(d, plan.writes), runId).Some?))
  {
    if h :| KeyHeldBy(d, key, h) {
      assert RunOk(h, d.runs[h]);
    } else if runId !in d.runs {
      var ws := CreationWrites(runId, request, key, now, expiresIn);
      CreationDisk(d, runId, request, key, now, expiresIn, 5);
      assert ws[..5] == ws;
    }
  }

  // ----- approvals -----

  /**
   A decision is stored exactly on a Run that waits for its id, and names the call that is pending; the
   same decision again is answered as a repetition, and everything else is refused.
   */
  lemma DecideOutcome(d: Disk, runId: string, decision: Decision)
    ensures var plan := DecidePlan(d, runId, decision);
            var id := decision.approvalId;
            if Load(d, runId).Some? && StoredApproval(d, runId, id) == Some(decision) then
              plan == Plan([], Decided(false))
            else if StoredApproval(d, runId, id).None? && WaitingFor(d, runId, id, decision.callSha.preimage) then
              && plan.reply == Decided(true)
              && ApplyAll(d, plan.writes)
                 == UpdateRun(d, runId, d.runs[runId].(approvals := d.runs[runId].approvals[id := decision]))
            else plan == REFUSE
  {
    var plan := DecidePlan(d, runId, decision);
    if plan.writes != [] {
      OneWrite(d, plan.writes[0]);
    }
  }

  /** The approval endpoint on a decision that is stored: a replay refreshes the Run, a conflict is refused. */
  lemma RepeatedPost(d: Disk, runId: string, id: string, verdict: Verdict, key: string, now: Instant, later: Instant)
    requires Inv(d) && StoredApproval(d, runId, id).Some?
    ensures var plan := PostPlan(d, runId, id, verdict, key, now, later);
            var stored := StoredApproval(d, runId, id).value;
            if stored.verdict != verdict || stored.idempotencyKey != key || Unrefreshable(d, runId, now)
            then plan == REFUSE
            else
              var dir := AfterRefresh(d.runs[runId], now);
              && plan.reply == Projection(dir.record.value, Due(d.runs[runId], now))
              && ApplyAll(d, plan.writes) == UpdateRun(d, runId, dir)
  {
    ExpiryOutcome(d, runId, now);
  }

  /**
   The approval endpoint on an undecided id.  The Run is refreshed first, and that stays whatever comes
   of it; the decision is stored exactly when the refreshed Run still waits for the id, and it is about
   the call that is pending then.
   */
  lemma FirstPost(d: Disk, runId: string, id: string, verdict: Verdict, key: string, now: Instant, later: Instant)
    requires Inv(d) && StoredApproval(d, runId, id).None?
    ensures var plan := PostPlan(d, runId, id, verdict, key, now, later);
            if Unrefreshable(d, runId, now) then plan == REFUSE
            else
              var dir := AfterRefresh(d.runs[runId], now);
              var r := dir.record.value;
              if r.status == WaitingApproval && r.pendingApprovalId == Some(id) then
                var decision := Decision(id, Sha256(r.pendingToolCall.value), verdict, key, later);
                && plan.reply == Decided(true)
                && ApplyAll(d, plan.writes)
                   == UpdateRun(d, runId, dir.(approvals := dir.approvals[id := decision]))
              else plan.reply == Refused && ApplyAll(d, plan.writes) == UpdateRun(d, runId, dir)
  {
    var first := ExpirePlan(d, runId, now);
    ExpiryOutcome(d, runId, now);
    if !first.reply.Refused? {
      var mid := ApplyAll(d, first.writes);
      var r := first.reply.record;
      if r.pendingToolCall.Some? {
        var decision := Decision(id, Sha256(r.pendingToolCall.value), verdict, key, later);
        DecideOutcome(mid, runId, decision);
        ApplyConcat(d, first.writes, DecidePlan(mid, runId, decision).writes);
      } else {
        assert first.writes + [] == first.writes;
      }
    }
  }

  // ----- the approved write -----

  /** What allows a patch: its own approval, a source to patch, and no other file in the way. */
  ghost predicate Patchable(d: Disk, runId: string, approvalId: string, callId: string, path: string, updates: Config) {
    && updates != map[]
    && ApprovalOf(d, runId, approvalId, ToolCall(callId, SERVER, TOOL, ConfigPatch(path, updates)))
    && path in d.sources && d.sources[path].Mapping?
    && (Target(runId, path) in d.sandboxes ==>
          d.sandboxes[Target(runId, path)] == d.sources[path].config + updates)
  }

  /**
   A patch is answered exactly when it is allowed, and then the sandbox file is the source with the
   updates in it, as the answer says, and nothing else changed.  Else it is refused without a write.
   */
  lemma PatchOutcome(d: Disk, runId: string, approvalId: string, callId: string, path: string, updates: Config)
    requires Inv(d)
    ensures var plan := PatchPlan(d, runId, approvalId, callId, path, updates);
            if Patchable(d, runId, approvalId, callId, path, updates) then
              var payload := d.sources[path].config + updates;
              && plan.reply == Patched(Target(runId, path), payload)
              && ApplyAll(d, plan.writes) == d.(sandboxes := d.sandboxes[Target(runId, path) := payload])
            else plan == REFUSE
  {
    var plan := PatchPlan(d, runId, approvalId, callId, path, updates);
    if StoredApproval(d, runId, approvalId).Some? {
      assert RunOk(runId, d.runs[runId]);
    }
    if plan.writes != [] {
      OneWrite(d, plan.writes[0]);
    } else if plan.reply.Patched? {
      assert d.sandboxes[plan.reply.target := plan.reply.payload] == d.sandboxes;
    }
  }

  /** The file of an answered patch is there ever after. */
  lemma AnsweredPatchStays(
    d: Disk, runId: string, approvalId: string, callId: string, path: string, updates: Config, history: seq<Step>)
    requires Inv(d) && Patchable(d, runId, approvalId, callId, path, updates)
    ensures var e := After(ApplyAll(d, PatchPlan(d, runId, approvalId, callId, path, updates).writes), history);
            && Target(runId, path) in e.sandboxes
            && e.sandboxes[Target(runId, path)] == d.sources[path].config + updates
  {
    var plan := PatchPlan(d, runId, approvalId, callId, path, updates);
    PatchOutcome(d, runId, approvalId, callId, path, updates);
    PlanIsLegal(d, Patch(runId, approvalId, callId, path, updates));
    WritesKeepInv(d, plan.writes);
    HistoryGrows(ApplyAll(d, plan.writes), history);
  }
}
