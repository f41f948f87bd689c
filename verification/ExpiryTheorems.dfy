/**
 What refreshing a Run against its deadline does, and what recording a failure does: two store
 operations each, as one step on the directory of the Run.
 */
module ExpiryTheorems {
  import opened Wrappers
  import opened AgentSchema
  import opened RunStoreSpec
  import opened RunStoreInvariant
  import opened RunStoreHistory
  import opened RunStoreTheorems

  predicate Due(dir: RunDir, now: Instant) {
    && dir.record.Some? && Consistent(dir.record.value)
    && !Terminal(dir.record.value.status) && now >= dir.record.value.expiresAt
  }

  /** A due Run ends Expired at its deadline, with one more event that says so; others stay as they are. */
  function AfterRefresh(dir: RunDir, now: Instant): RunDir {
    if Due(dir, now) && dir.log.Some? then
      var r := dir.record.value;
      var last := |dir.log.value| + 1;
      dir.(log := Some(dir.log.value + [Event(last, RunFailed, r.expiresAt, "AGENT_RUN_EXPIRED")]),
           record := Some(r.(status := Expired, updatedAt := r.expiresAt, completedAt := Some(r.expiresAt),
                             lastEventSequence := last, pendingApprovalId := None, pendingToolCall := None,
                             errorCode := None)))
    else dir
  }

  /** A Run that cannot be refreshed: its record does not load, or it is due and has no log file. */
  predicate Unrefreshable(d: Disk, runId: string, now: Instant) {
    Load(d, runId).None? || (Due(d.runs[runId], now) && d.runs[runId].log.None?)
  }

  /**
   Expiry is refused, without a write, exactly for an unrefreshable Run.  Otherwise its two nested
   store operations amount to AfterRefresh on that one directory, and the answer is the new record.
   */
  lemma ExpiryOutcome(d: Disk, runId: string, now: Instant)
    requires Inv(d)
    ensures var plan := ExpirePlan(d, runId, now);
            && (plan.reply.Refused? <==> Unrefreshable(d, runId, now))
            && (plan.reply.Refused? ==> plan.writes == [])
            && (!plan.reply.Refused? ==>
                  && ApplyAll(d, plan.writes) == UpdateRun(d, runId, AfterRefresh(d.runs[runId], now))
                  && Consistent(AfterRefresh(d.runs[runId], now).record.value)
                  && |plan.writes| == (if Due(d.runs[runId], now) then 3 else 0)
                  && plan.reply == Projection(AfterRefresh(d.runs[runId], now).record.value, Due(d.runs[runId], now)))
  {
    if Load(d, runId).Some? && Due(d.runs[runId], now) {
      var r := Load(d, runId).value;
      AppendAccepted(d, runId, RunFailed, "AGENT_RUN_EXPIRED", r.expiresAt);
      if d.runs[runId].log.Some? {
        DueRunExpires(d, runId, now);
      }
    }
    if Load(d, runId).Some? && !Due(d.runs[runId], now) {
      assert UpdateRun(d, runId, d.runs[runId]) == d;
    }
  }

  lemma DueRunExpires(d: Disk, runId: string, now: Instant)
    requires Inv(d) && Load(d, runId).Some? && Due(d.runs[runId], now) && d.runs[runId].log.Some?
    ensures var plan := ExpirePlan(d, runId, now);
            var dir := AfterRefresh(d.runs[runId], now);
            && |plan.writes| == 3
            && plan.reply == Projection(dir.record.value, true)
            && ApplyAll(d, plan.writes) == UpdateRun(d, runId, dir)
  {
    var r := Load(d, runId).value;
    var append := AppendPlan(d, runId, RunFailed, "AGENT_RUN_EXPIRED", r.expiresAt);
    AppendAccepted(d, runId, RunFailed, "AGENT_RUN_EXPIRED", r.expiresAt);
    AppendInPlace(d, runId, RunFailed, "AGENT_RUN_EXPIRED", r.expiresAt);
    var mid := ApplyAll(d, append.writes);
    var second := TransitionPlan(mid, runId, Expired, r.expiresAt, None, None, None);
    ApplyConcat(d, append.writes, second.writes);
    assert second.writes[1..] == [];
    assert ApplyAll(mid, second.writes) == Apply(mid, second.writes[0]);
    assert Apply(mid, second.writes[0]).runs[runId] == AfterRefresh(d.runs[runId], now);
  }

  lemma AppendInPlace(d: Disk, runId: string, kind: EventKind, data: string, now: Instant)
    requires Inv(d) && AppendPlan(d, runId, kind, data, now).reply.Appended?
    ensures var plan := AppendPlan(d, runId, kind, data, now);
            && Load(d, runId).Some? && d.runs[runId].log.Some?
            && ApplyAll(d, plan.writes) == UpdateRun(d, runId, d.runs[runId].(
                 log := Some(d.runs[runId].log.value + [plan.reply.event]),
                 record := Some(Load(d, runId).value.(updatedAt := now,
                                                      lastEventSequence := plan.reply.event.sequence))))
  {
    AppendAccepted(d, runId, kind, data, now);
    var ws := AppendPlan(d, runId, kind, data, now).writes;
    var mid := Apply(d, ws[0]);
    assert ws[1..][1..] == [];
    assert ApplyAll(mid, ws[1..]) == ApplyAll(Apply(mid, ws[1]), ws[1..][1..]);
  }

  // ----- recording a failure -----

  /** An instant at which the record of the Run may be updated and still load. */
  predicate WithinLife(r: Record, now: Instant) {
    r.createdAt <= now <= r.expiresAt
  }

  /** The directory of a Run with one more event, the cursor on it. */
  function WithEvent(dir: RunDir, now: Instant, code: string): RunDir
    requires dir.record.Some? && dir.log.Some?
  {
    var last := |dir.log.value| + 1;
    dir.(log := Some(dir.log.value + [Event(last, RunFailed, now, code)]),
         record := Some(dir.record.value.(updatedAt := now, lastEventSequence := last)))
  }

  /** The record of a Run that ended with a failure. */
  function FailedRecord(r: Record, sequence: nat, code: string, later: Instant): Record {
    r.(status := Failed, updatedAt := later, completedAt := Some(later), lastEventSequence := sequence,
       pendingApprovalId := None, pendingToolCall := None, errorCode := Some(code))
  }

  /**
   Recording a failure of a live Run always lands the event.  The Run ends Failed exactly when both
   readings of the clock lie within its life; else the call is refused, and when it was the first
   reading that lay outside, the record does not load any more.
   */
  lemma FailOutcome(d: Disk, runId: string, code: string, now: Instant, later: Instant)
    requires Inv(d) && Live(d, runId) && d.runs[runId].log.Some?
    ensures var r := Load(d, runId).value;
            var plan := FailPlan(d, runId, code, now, later);
            var dir := WithEvent(d.runs[runId], now, code);
            var done := FailedRecord(r, |dir.log.value|, code, later);
            && (!plan.reply.Refused? <==> WithinLife(r, now) && WithinLife(r, later))
            && (plan.reply.Refused? ==> ApplyAll(d, plan.writes) == UpdateRun(d, runId, dir))
            && (!plan.reply.Refused? ==>
                  && plan.reply == Projection(done, true)
                  && ApplyAll(d, plan.writes) == UpdateRun(d, runId, dir.(record := Some(done))))
            && (Consistent(dir.record.value) <==> WithinLife(r, now))
  {
    var append := AppendPlan(d, runId, RunFailed, code, now);
    AppendAccepted(d, runId, RunFailed, code, now);
    AppendInPlace(d, runId, RunFailed, code, now);
    var mid := ApplyAll(d, append.writes);
    assert mid == UpdateRun(d, runId, WithEvent(d.runs[runId], now, code));
    var second := TransitionPlan(mid, runId, Failed, later, None, None, Some(code));
    ApplyConcat(d, append.writes, second.writes);
    if second.writes != [] {
      assert second.writes[1..] == [];
      assert ApplyAll(mid, second.writes) == Apply(mid, second.writes[0]);
    }
  }

  /** A failure recorded after the deadline leaves a Run that never loads again. */
  lemma LateFailureBricksRun(
    d: Disk, runId: string, code: string, now: Instant, later: Instant, history: seq<Step>)
    requires Inv(d) && Live(d, runId) && d.runs[runId].log.Some?
    requires Load(d, runId).value.expiresAt < now
    ensures var e := After(ApplyAll(d, FailPlan(d, runId, code, now, later).writes), history);
            runId in e.runs && e.runs[runId].record.Some? && Load(e, runId).None?
  {
    FailOutcome(d, runId, code, now, later);
    AppendAccepted(d, runId, RunFailed, code, now);
    AppendInPlace(d, runId, RunFailed, code, now);
    LateEventBricksRun(d, runId, RunFailed, code, now, history);
  }
}
