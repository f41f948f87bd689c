/**
 What holds over every history of operations, each cut by a crash after any number of its writes.
 */
module RunStoreHistory {
  import opened Wrappers
  import opened AgentSchema
  import opened RunStoreSpec
  import opened RunStoreInvariant

  // ----- reading the log -----

  /** On a gapless log the replay after a cursor is exactly the suffix that starts there. */
  lemma {:induction false} NewerIsSuffix(log: seq<Event>, base: nat, cursor: int)
    requires forall i | 0 <= i < |log| :: log[i].sequence == base + i + 1
    ensures Newer(log, cursor) == log[Min(|log|, Max(0, cursor - base))..]
    decreases |log|
  {
    if log != [] {
      var k := Min(|log|, Max(0, cursor - base));
      NewerIsSuffix(log[1..], base + 1, cursor);
      if k > 0 {
        assert log[1..][k - 1..] == log[k..];
      } else {
        assert [log[0]] + log[1..] == log[0..];
      }
    }
  }

  /** In a sound state a replay fails exactly without a log file, and else is that suffix. */
  lemma ReplayIsSuffix(d: Disk, runId: string, cursor: nat)
    requires Inv(d)
    ensures EventsAfter(d, runId, cursor).Some? <==> runId in d.runs && d.runs[runId].log.Some?
    ensures EventsAfter(d, runId, cursor).Some? ==>
              var log := d.runs[runId].log.value;
              EventsAfter(d, runId, cursor) == Some(log[Min(|log|, cursor)..])
  {
    if runId in d.runs && d.runs[runId].log.Some? {
      assert RunOk(runId, d.runs[runId]);
      NewerIsSuffix(d.runs[runId].log.value, 0, cursor);
    }
  }

  /**
   An event is accepted exactly when the Run is loadable, not terminal and has its log file; the
   guard against a cursor ahead of the log never decides.
   */
  lemma AppendAccepted(d: Disk, runId: string, kind: EventKind, data: string, now: Instant)
    requires Inv(d)
    ensures AppendPlan(d, runId, kind, data, now).reply.Appended?
       <==> Live(d, runId) && d.runs[runId].log.Some?
    ensures Live(d, runId) && d.runs[runId].log.Some? ==>
              var log := d.runs[runId].log.value;
              && d.runs[runId].record.value.lastEventSequence <= |log|
              && AppendPlan(d, runId, kind, data, now).reply == Appended(Event(|log| + 1, kind, now, data))
  {
    if Live(d, runId) && d.runs[runId].log.Some? {
      assert RunOk(runId, d.runs[runId]);
      ReplayIsSuffix(d, runId, 0);
    }
  }

  // ----- every write of every operation is guarded -----

  lemma AppendIsLegal(d: Disk, runId: string, kind: EventKind, data: string, now: Instant)
    requires Inv(d)
    ensures AllLegal(d, AppendPlan(d, runId, kind, data, now).writes)
  {
    AppendAccepted(d, runId, kind, data, now);
    var plan := AppendPlan(d, runId, kind, data, now);
    if plan.reply.Appended? {
      var one := Apply(d, plan.writes[0]);
      assert Live(one, runId);
      assert Legal(one, plan.writes[1]);
    }
  }

  lemma TransitionIsLegal(d: Disk, runId: string, status: Status, now: Instant,
                          approvalId: Option<string>, call: Option<ToolCall>, errorCode: Option<string>)
    requires Inv(d)
    ensures AllLegal(d, TransitionPlan(d, runId, status, now, approvalId, call, errorCode).writes)
  {
  }

  lemma ThenIsLegal(d: Disk, first: Plan, second: (Disk, Reply) -> Plan)
    requires Inv(d) && AllLegal(d, first.writes)
    requires Inv(ApplyAll(d, first.writes)) ==>
      AllLegal(ApplyAll(d, first.writes), second(ApplyAll(d, first.writes), first.reply).writes)
    ensures AllLegal(d, Then(d, first, second).writes)
  {
    WritesKeepInv(d, first.writes);
    if !first.reply.Refused? {
      LegalConcat(d, first.writes, second(ApplyAll(d, first.writes), first.reply).writes);
    }
  }

  lemma ExpireIsLegal(d: Disk, runId: string, now: Instant)
    requires Inv(d)
    ensures AllLegal(d, ExpirePlan(d, runId, now).writes)
  {
    if Live(d, runId) && now >= Load(d, runId).value.expiresAt {
      var deadline := Load(d, runId).value.expiresAt;
      var second := (mid: Disk, _: Reply) => TransitionPlan(mid, runId, Expired, deadline, None, None, None);
      AppendIsLegal(d, runId, RunFailed, "AGENT_RUN_EXPIRED", deadline);
      ThenIsLegal(d, AppendPlan(d, runId, RunFailed, "AGENT_RUN_EXPIRED", deadline), second);
    }
  }

  lemma FailIsLegal(d: Disk, runId: string, code: string, now: Instant, later: Instant)
    requires Inv(d)
    ensures AllLegal(d, FailPlan(d, runId, code, now, later).writes)
  {
    if Live(d, runId) {
      var second := (mid: Disk, _: Reply) => TransitionPlan(mid, runId, Failed, later, None, None, Some(code));
      AppendIsLegal(d, runId, RunFailed, code, now);
      ThenIsLegal(d, AppendPlan(d, runId, RunFailed, code, now), second);
    }
  }

  lemma PostIsLegal(d: Disk, runId: string, id: string, verdict: Verdict, key: string, now: Instant, later: Instant)
    requires Inv(d)
    ensures AllLegal(d, PostPlan(d, runId, id, verdict, key, now, later).writes)
  {
    ExpireIsLegal(d, runId, now);
    if StoredApproval(d, runId, id).None? {
      var second := (mid: Disk, reply: Reply) =>
        if !reply.Projection? || reply.record.pendingToolCall.None? then REFUSE
        else DecidePlan(mid, runId,
               Decision(id, Sha256(reply.record.pendingToolCall.value), verdict, key, later));
      ThenIsLegal(d, ExpirePlan(d, runId, now), second);
    }
  }

  /** A directory in which the first k writes of a creation have landed. */
  function PartialRun(runId: string, request: string, key: string, now: Instant, expiresIn: int, k: nat): RunDir
    requires k > 0
  {
    RunDir(
      if k >= 2 then Some(request) else None,
      if k >= 3 then Some(InitialRecord(request, now, expiresIn)) else None,
      if k >= 4 then Some(Pointer(runId, Sha256(key), Sha256(request))) else None,
      if k >= 5 then Some([]) else None,
      map[])
  }

  lemma CreationWrite(d: Disk, runId: string, request: string, key: string, now: Instant, expiresIn: int, k: nat)
    requires 0 < k < 5
    ensures Apply(UpdateRun(d, runId, PartialRun(runId, request, key, now, expiresIn, k)),
                  CreationWrites(runId, request, key, now, expiresIn)[k])
            == UpdateRun(d, runId, PartialRun(runId, request, key, now, expiresIn, k + 1))
  {
    var dir := PartialRun(runId, request, key, now, expiresIn, k);
    var next := PartialRun(runId, request, key, now, expiresIn, k + 1);
    var w := CreationWrites(runId, request, key, now, expiresIn)[k];
    assert ApplyToRun(dir, w) == next;
    assert d.runs[runId := dir][runId := next] == d.runs[runId := next];
  }

  /** Each write of a creation is made under its guard, given a free key. */
  lemma CreationWriteIsLegal(d: Disk, request: string, key: string, now: Instant, expiresIn: int, runId: string, k: nat)
    requires 0 < k < 5 && 0 < expiresIn && forall h :: !KeyHeldBy(d, key, h)
    ensures Legal(UpdateRun(d, runId, PartialRun(runId, request, key, now, expiresIn, k)),
                  CreationWrites(runId, request, key, now, expiresIn)[k])
  {
    var e := UpdateRun(d, runId, PartialRun(runId, request, key, now, expiresIn, k));
    if k == 3 {
      forall h ensures !KeyHeldBy(e, key, h) {
        assert !KeyHeldBy(d, key, h);
      }
    }
  }

  lemma {:induction false} CreationTailIsLegal(
    d: Disk, request: string, key: string, now: Instant, expiresIn: int, runId: string, k: nat)
    requires 0 < k <= 5 && 0 < expiresIn && forall h :: !KeyHeldBy(d, key, h)
    ensures AllLegal(UpdateRun(d, runId, PartialRun(runId, request, key, now, expiresIn, k)),
                     CreationWrites(runId, request, key, now, expiresIn)[k..])
    decreases 5 - k
  {
    var ws := CreationWrites(runId, request, key, now, expiresIn);
    if k < 5 {
      CreationWriteIsLegal(d, request, key, now, expiresIn, runId, k);
      CreationWrite(d, runId, request, key, now, expiresIn, k);
      CreationTailIsLegal(d, request, key, now, expiresIn, runId, k + 1);
      assert ws[k..][0] == ws[k] && ws[k..][1..] == ws[k + 1..];
    }
  }

  lemma CreateIsLegal(d: Disk, request: string, key: string, now: Instant, expiresIn: int, runId: string)
    requires Inv(d)
    ensures AllLegal(d, CreatePlan(d, request, key, now, expiresIn, runId).writes)
  {
    if CreatePlan(d, request, key, now, expiresIn, runId).writes != [] {
      assert !exists h :: KeyHeldBy(d, key, h);
      CreationTailIsLegal(d, request, key, now, expiresIn, runId, 1);
    }
  }

  lemma PlanIsLegal(d: Disk, op: Op)
    requires Inv(d)
    ensures AllLegal(d, PlanOf(d, op).writes)
  {
    match op
    case Create(request, key, now, expiresIn, runId) => CreateIsLegal(d, request, key, now, expiresIn, runId);
    case Append(runId, kind, data, now) => AppendIsLegal(d, runId, kind, data, now);
    case Expire(runId, now) => ExpireIsLegal(d, runId, now);
    case Fail(runId, code, now, later) => FailIsLegal(d, runId, code, now, later);
    case Post(runId, id, verdict, key, now, later) => PostIsLegal(d, runId, id, verdict, key, now, later);
    case _ =>
  }

  /** From any sound disk, every history with crashes anywhere is a sequence of guarded writes. */
  lemma {:induction false} HistoryIsLegal(d: Disk, history: seq<Step>)
    requires Inv(d)
    ensures AllLegal(d, Trace(d, history))
    ensures Inv(After(d, history))
    decreases |history|
  {
    if history != [] {
      var ws := Landed(d, history[0]);
      PlanIsLegal(d, history[0].op);
      LegalPrefix(d, PlanOf(d, history[0].op).writes, history[0].survived);
      WritesKeepInv(d, ws);
      HistoryIsLegal(ApplyAll(d, ws), history[1..]);
      LegalConcat(d, ws, Trace(ApplyAll(d, ws), history[1..]));
    }
    WritesKeepInv(d, Trace(d, history));
  }
}
