/**
 Approvals are write-once, bound to the call that was waiting, and resume a Run at most once; a
 sandbox file exists only because exactly its call was approved.
 */
module ApprovalTheorems {
  import opened AgentSchema
  import opened RunStoreSpec
  import opened RunStoreInvariant
  import opened RunStoreHistory
  import opened RunStoreTheorems

  /** No later operation, replayed or conflicting, changes or removes a stored decision. */
  lemma ApprovalIsWriteOnce(d: Disk, history: seq<Step>, runId: string, id: string)
    requires Inv(d) && StoredApproval(d, runId, id).Some?
    ensures StoredApproval(After(d, history), runId, id) == StoredApproval(d, runId, id)
  {
    HistoryGrows(d, history);
    assert RunGrows(d.runs[runId], After(d, history).runs[runId]);
  }

  /** The disk just before the k-th write of a trace. */
  ghost function At(d: Disk, ws: seq<Write>, k: nat): Disk
    requires k <= |ws|
  {
    ApplyAll(d, ws[..k])
  }

  lemma AtShift(d: Disk, ws: seq<Write>, k: nat)
    requires ws != [] && k < |ws|
    ensures At(d, ws, k + 1) == At(Apply(d, ws[0]), ws[1..], k)
  {
    assert ws[..k + 1][1..] == ws[1..][..k];
  }

  lemma {:induction false} LegalAt(d: Disk, ws: seq<Write>, k: nat)
    requires Inv(d) && AllLegal(d, ws) && k < |ws|
    ensures Inv(At(d, ws, k)) && Legal(At(d, ws, k), ws[k]) && AllLegal(d, ws[..k])
  {
    assert ws == ws[..k] + ws[k..];
    LegalConcat(d, ws[..k], ws[k..]);
    WritesKeepInv(d, ws[..k]);
  }

  /** A decision on disk was written while its Run was waiting for exactly that approval and call. */
  lemma {:induction false} ApprovalOrigin(d: Disk, ws: seq<Write>, runId: string, id: string) returns (k: nat)
    requires Inv(d) && AllLegal(d, ws)
    requires StoredApproval(d, runId, id).None? && StoredApproval(ApplyAll(d, ws), runId, id).Some?
    ensures k < |ws|
    ensures ws[k] == PutApproval(runId, StoredApproval(ApplyAll(d, ws), runId, id).value)
    ensures WaitingFor(At(d, ws, k), runId, id, StoredApproval(ApplyAll(d, ws), runId, id).value.callSha.preimage)
    decreases |ws|
  {
    var e := Apply(d, ws[0]);
    ApplyKeepsInv(d, ws[0]);
    if StoredApproval(e, runId, id).Some? {
      k := 0;
      assert At(d, ws, 0) == d;
      WritesGrow(e, ws[1..]);
      assert RunGrows(e.runs[runId], ApplyAll(e, ws[1..]).runs[runId]);
    } else {
      var j := ApprovalOrigin(e, ws[1..], runId, id);
      AtShift(d, ws, j);
      k := j + 1;
    }
  }

  lemma {:induction false} SandboxOrigin(d: Disk, ws: seq<Write>, t: Target) returns (k: nat)
    requires Inv(d) && AllLegal(d, ws)
    requires t !in d.sandboxes && t in ApplyAll(d, ws).sandboxes
    ensures k < |ws| && ws[k].PutSandbox? && ws[k].target == t
    ensures ws[k].payload == ApplyAll(d, ws).sandboxes[t]
    decreases |ws|
  {
    var e := Apply(d, ws[0]);
    ApplyKeepsInv(d, ws[0]);
    if t in e.sandboxes {
      k := 0;
      WritesGrow(e, ws[1..]);
    } else {
      var j := SandboxOrigin(e, ws[1..], t);
      k := j + 1;
    }
  }

  /**
   End to end.  For every sandbox file in every reachable state there is an earlier moment at which
   its Run was waiting for precisely the call that names this file, an approved decision for that
   call was stored at that moment, and the file is the source configuration of the later moment of
   the write with precisely the approved updates in it.
   */
  lemma SandboxWriteWasApproved(sources: map<string, Source>, history: seq<Step>, t: Target)
    returns (asked: nat, written: nat, id: string, call: ToolCall)
    requires t in After(Fresh(sources), history).sandboxes
    ensures var ws := Trace(Fresh(sources), history);
            && asked < written < |ws|
            && call.serverId == SERVER && call.toolName == TOOL
            && call.arguments.ConfigPatch? && call.arguments.source == t.path
            && WaitingFor(At(Fresh(sources), ws, asked), t.runId, id, call)
            && ws[asked].PutApproval? && ws[asked].runId == t.runId
            && ws[asked].decision.approvalId == id && ws[asked].decision.verdict.Approved?
            && ws[asked].decision.callSha == Sha256(call)
            && var moment := At(Fresh(sources), ws, written);
            && t !in moment.sandboxes
            && t.path in moment.sources && moment.sources[t.path].Mapping?
            && After(Fresh(sources), history).sandboxes[t]
                 == moment.sources[t.path].config + call.arguments.updates
  {
    var d := Fresh(sources);
    var ws := Trace(d, history);
    HistoryIsLegal(d, history);
    written := SandboxOrigin(d, ws, t);
    LegalAt(d, ws, written);
    id := ws[written].approvalId;
    call := ToolCall(ws[written].callId, SERVER, TOOL, ConfigPatch(t.path, ws[written].updates));
    asked := ApprovalOrigin(d, ws[..written], t.runId, id);
    assert ws[..written][..asked] == ws[..asked];
    assert RunOk(t.runId, At(d, ws, written).runs[t.runId]);
  }

  /** A sandbox file never changes once written, and only an administrator changes a source. */
  lemma SandboxIsWriteOnce(d: Disk, history: seq<Step>, t: Target)
    requires Inv(d) && t in d.sandboxes
    ensures t in After(d, history).sandboxes && After(d, history).sandboxes[t] == d.sandboxes[t]
  {
    HistoryGrows(d, history);
  }

  // ----- sources -----

  predicate NoEdit(ws: seq<Write>, path: string) {
    forall i | 0 <= i < |ws| :: !(ws[i].EditSource? && ws[i].path == path)
  }

  predicate SameSource(d: Disk, e: Disk, path: string) {
    && (path in e.sources <==> path in d.sources)
    && (path in d.sources ==> e.sources[path] == d.sources[path])
  }

  lemma {:induction false} UneditedSource(d: Disk, ws: seq<Write>, path: string)
    requires NoEdit(ws, path)
    ensures SameSource(d, ApplyAll(d, ws), path)
    decreases |ws|
  {
    if ws != [] {
      assert !(ws[0].EditSource? && ws[0].path == path);
      UneditedSource(Apply(d, ws[0]), ws[1..], path);
    }
  }

  lemma ExpireNeverEdits(d: Disk, runId: string, now: Instant, path: string)
    ensures NoEdit(ExpirePlan(d, runId, now).writes, path)
  {
  }

  lemma PostNeverEdits(d: Disk, op: Op, path: string)
    requires op.Post?
    ensures NoEdit(PlanOf(d, op).writes, path)
  {
    ExpireNeverEdits(d, op.runId, op.now, path);
  }

  /** Of all operations only maintenance of this very path writes a source configuration. */
  lemma OperationsNeverEdit(d: Disk, op: Op, path: string)
    requires !(op.Maintain? && op.path == path)
    ensures NoEdit(PlanOf(d, op).writes, path)
  {
    match op
    case Expire(runId, now) => ExpireNeverEdits(d, runId, now, path);
    case Post(_, _, _, _, _, _) => PostNeverEdits(d, op, path);
    case _ =>
  }

  /** Over every history with crashes, a source changes only when an administrator maintains it. */
  lemma {:induction false} SourcesChangeOnlyByMaintenance(d: Disk, history: seq<Step>, path: string)
    requires forall i | 0 <= i < |history| :: !(history[i].op.Maintain? && history[i].op.path == path)
    ensures SameSource(d, After(d, history), path)
    decreases |history|
  {
    if history != [] {
      var s := history[0];
      var ws := Landed(d, s);
      OperationsNeverEdit(d, s.op, path);
      UneditedSource(d, ws, path);
      SourcesChangeOnlyByMaintenance(ApplyAll(d, ws), history[1..], path);
      ApplyConcat(d, ws, Trace(ApplyAll(d, ws), history[1..]));
    }
  }

  // ----- resuming -----

  ghost predicate CallsResume(d: Disk, s: Step) {
    s.op.Post? && Acknowledged(d, s) && PlanOf(d, s.op).reply == Decided(true)
  }

  /** Every call of the service's resume, in order, over a whole history of POSTs and crashes. */
  ghost function ResumeCalls(d: Disk, history: seq<Step>): seq<(string, string)>
    decreases |history|
  {
    if history == [] then []
    else
      (if CallsResume(d, history[0]) then [(history[0].op.runId, history[0].op.id)] else [])
      + ResumeCalls(ApplyAll(d, Landed(d, history[0])), history[1..])
  }

  /** A POST that stores a decision does so last, on a Run that had none, and stores it as asked. */
  lemma PostThatDecides(d: Disk, runId: string, id: string, verdict: Verdict, key: string, now: Instant, later: Instant)
    requires Inv(d) && PostPlan(d, runId, id, verdict, key, now, later).reply == Decided(true)
    ensures var e := ApplyAll(d, PostPlan(d, runId, id, verdict, key, now, later).writes);
            && StoredApproval(d, runId, id).None?
            && StoredApproval(e, runId, id).Some?
            && StoredApproval(e, runId, id).value.verdict == verdict
            && StoredApproval(e, runId, id).value.idempotencyKey == key
            && WaitingFor(e, runId, id, StoredApproval(e, runId, id).value.callSha.preimage)
  {
    var first := ExpirePlan(d, runId, now);
    var mid := ApplyAll(d, first.writes);
    var second := DecidePlan(mid, runId,
      Decision(id, Sha256(first.reply.record.pendingToolCall.value), verdict, key, later));
    ApplyConcat(d, first.writes, second.writes);
    assert second.writes[1..] == [];
    assert ApplyAll(mid, second.writes) == Apply(mid, second.writes[0]);
  }

  /** Once a decision is on disk no POST calls resume for it, whether or not one did before. */
  lemma {:induction false} StoredDecisionNeverResumes(d: Disk, history: seq<Step>, runId: string, id: string)
    requires Inv(d) && StoredApproval(d, runId, id).Some?
    ensures (runId, id) !in ResumeCalls(d, history)
    decreases |history|
  {
    if history != [] {
      var s := history[0];
      if CallsResume(d, s) {
        PostThatDecides(d, s.op.runId, s.op.id, s.op.verdict, s.op.key, s.op.now, s.op.later);
      }
      StepKeepsInv(d, s);
      ApprovalIsWriteOnce(d, [s], runId, id);
      CrashTrace(d, s);
      StoredDecisionNeverResumes(ApplyAll(d, Landed(d, s)), history[1..], runId, id);
    }
  }

  lemma StepKeepsInv(d: Disk, s: Step)
    requires Inv(d)
    ensures Inv(ApplyAll(d, Landed(d, s)))
  {
    HistoryIsLegal(d, [s]);
    CrashTrace(d, s);
  }

  /** Over every history, resume is called at most once per Run and approval, and only for a stored one. */
  lemma {:induction false} ResumedAtMostOnce(d: Disk, history: seq<Step>, runId: string, id: string)
    requires Inv(d)
    ensures multiset(ResumeCalls(d, history))[(runId, id)] <= 1
    ensures (runId, id) in ResumeCalls(d, history) ==>
              StoredApproval(d, runId, id).None? && StoredApproval(After(d, history), runId, id).Some?
    decreases |history|
  {
    if history != [] {
      var s := history[0];
      var e := ApplyAll(d, Landed(d, s));
      StepKeepsInv(d, s);
      ResumedAtMostOnce(e, history[1..], runId, id);
      ApplyConcat(d, Landed(d, s), Trace(e, history[1..]));
      var tail := ResumeCalls(e, history[1..]);
      if CallsResume(d, s) && (s.op.runId, s.op.id) == (runId, id) {
        PostThatDecides(d, runId, id, s.op.verdict, s.op.key, s.op.now, s.op.later);
        StoredDecisionNeverResumes(e, history[1..], runId, id);
        ApprovalIsWriteOnce(e, history[1..], runId, id);
        assert ResumeCalls(d, history) == [(runId, id)] + tail;
      } else if (runId, id) in tail {
        ApprovalOnlyAppears(d, s, runId, id);
      }
      if CallsResume(d, s) {
        assert ResumeCalls(d, history) == [(s.op.runId, s.op.id)] + tail;
      } else {
        assert ResumeCalls(d, history) == [] + tail == tail;
      }
    }
  }

  lemma ApprovalOnlyAppears(d: Disk, s: Step, runId: string, id: string)
    requires Inv(d) && StoredApproval(ApplyAll(d, Landed(d, s)), runId, id).None?
    ensures StoredApproval(d, runId, id).None?
  {
    if StoredApproval(d, runId, id).Some? {
      ApprovalIsWriteOnce(d, [s], runId, id);
      CrashTrace(d, s);
    }
  }

  /**
   The service stores the decision before it resumes.  When it dies in between, the decision stands,
   every replay is answered as a replay, and nothing ever resumes the Run for it.
   */
  lemma CrashBeforeResumeIsFinal(d: Disk, runId: string, id: string, verdict: Verdict, key: string,
                                 now: Instant, later: Instant, history: seq<Step>)
    requires Inv(d) && PostPlan(d, runId, id, verdict, key, now, later).reply == Decided(true)
    ensures var post := Post(runId, id, verdict, key, now, later);
            var crashed := [Step(post, |PlanOf(d, post).writes|)];
            && StoredApproval(After(d, crashed), runId, id).Some?
            && (runId, id) !in ResumeCalls(d, crashed + history)
  {
    var post := Post(runId, id, verdict, key, now, later);
    var s := Step(post, |PlanOf(d, post).writes|);
    PostThatDecides(d, runId, id, verdict, key, now, later);
    StepKeepsInv(d, s);
    CrashTrace(d, s);
    StoredDecisionNeverResumes(ApplyAll(d, Landed(d, s)), history, runId, id);
    assert ([s] + history)[1..] == history;
    assert !CallsResume(d, s);
    assert ResumeCalls(d, [s] + history) == [] + ResumeCalls(ApplyAll(d, Landed(d, s)), history);
  }
}
