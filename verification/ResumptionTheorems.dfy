/**
 Which stored approvals are resumed.  The service stores a decision and then asks for a task; the
 request fails while a task of the Run still executes, and then no later POST asks again.
 */
module ResumptionTheorems {
  import opened AgentSchema
  import opened RunStoreSpec
  import opened RunStoreInvariant
  import opened ApprovalTheorems

  /** A step of a history, and whether a task of the Run it is about executes at that moment. */
  datatype Served = Served(step: Step, executing: bool)

  function Steps(h: seq<Served>): seq<Step> {
    seq(|h|, i requires 0 <= i < |h| => h[i].step)
  }

  ghost predicate Resumes(d: Disk, s: Served) {
    CallsResume(d, s.step) && !s.executing
  }

  /** The approvals for which a resuming task was made, in order. */
  ghost function Resumed(d: Disk, h: seq<Served>): seq<(string, string)>
    decreases |h|
  {
    if h == [] then []
    else
      (if Resumes(d, h[0]) then [(h[0].step.op.runId, h[0].step.op.id)] else [])
      + Resumed(ApplyAll(d, Landed(d, h[0].step)), h[1..])
  }

  lemma AfterSteps(d: Disk, h: seq<Served>)
    requires h != []
    ensures After(d, Steps(h)) == After(ApplyAll(d, Landed(d, h[0].step)), Steps(h[1..]))
  {
    var e := ApplyAll(d, Landed(d, h[0].step));
    assert Steps(h)[1..] == Steps(h[1..]);
    ApplyConcat(d, Landed(d, h[0].step), Trace(e, Steps(h[1..])));
  }

  /** Every resuming task was asked for. */
  lemma {:induction false} ResumedWasCalled(d: Disk, h: seq<Served>, runId: string, id: string)
    requires (runId, id) in Resumed(d, h)
    ensures (runId, id) in ResumeCalls(d, Steps(h))
    decreases |h|
  {
    var e := ApplyAll(d, Landed(d, h[0].step));
    assert Steps(h)[1..] == Steps(h[1..]);
    if !(Resumes(d, h[0]) && (h[0].step.op.runId, h[0].step.op.id) == (runId, id)) {
      ResumedWasCalled(e, h[1..], runId, id);
    }
  }

  // ----- the step that stores a decision -----

  predicate NoDecision(ws: seq<Write>, runId: string, id: string) {
    forall i | 0 <= i < |ws| :: !(ws[i].PutApproval? && ws[i].runId == runId && ws[i].decision.approvalId == id)
  }

  lemma {:induction false} UndecidedStays(d: Disk, ws: seq<Write>, runId: string, id: string)
    requires NoDecision(ws, runId, id) && StoredApproval(d, runId, id).None?
    ensures StoredApproval(ApplyAll(d, ws), runId, id).None?
    decreases |ws|
  {
    if ws != [] {
      assert !(ws[0].PutApproval? && ws[0].runId == runId && ws[0].decision.approvalId == id);
      UndecidedStays(Apply(d, ws[0]), ws[1..], runId, id);
    }
  }

  lemma ExpireNeverDecides(d: Disk, r: string, now: Instant, runId: string, id: string)
    ensures NoDecision(ExpirePlan(d, r, now).writes, runId, id)
  {
  }

  /** A POST stores no decision but its own, and none unless it is answered as created. */
  lemma PostDecidesItsOwn(d: Disk, op: Op, runId: string, id: string)
    requires op.Post? && !NoDecision(PlanOf(d, op).writes, runId, id)
    ensures op.runId == runId && op.id == id && PlanOf(d, op).reply == Decided(true)
  {
    ExpireNeverDecides(d, op.runId, op.now, runId, id);
  }

  lemma StoringPost(d: Disk, s: Step, runId: string, id: string)
    requires s.op.Post? && StoredApproval(d, runId, id).None?
    requires StoredApproval(ApplyAll(d, Landed(d, s)), runId, id).Some?
    ensures s.op.runId == runId && s.op.id == id && PlanOf(d, s.op).reply == Decided(true)
  {
    if NoDecision(Landed(d, s), runId, id) {
      UndecidedStays(d, Landed(d, s), runId, id);
    }
    if NoDecision(PlanOf(d, s.op).writes, runId, id) {
      assert NoDecision(Landed(d, s), runId, id);
    }
    PostDecidesItsOwn(d, s.op, runId, id);
  }

  /** The one step at which the decision came to be on disk. */
  ghost predicate StoredAt(d: Disk, h: seq<Served>, runId: string, id: string, j: nat) {
    && j < |h|
    && var before := After(d, Steps(h[..j]));
    && StoredApproval(before, runId, id).None?
    && StoredApproval(ApplyAll(before, Landed(before, h[j].step)), runId, id).Some?
  }

  lemma StoredAtShift(d: Disk, h: seq<Served>, runId: string, id: string, j: nat)
    requires h != [] && StoredAt(ApplyAll(d, Landed(d, h[0].step)), h[1..], runId, id, j)
    ensures StoredAt(d, h, runId, id, j + 1)
    ensures After(d, Steps(h[..j + 1])) == After(ApplyAll(d, Landed(d, h[0].step)), Steps(h[1..][..j]))
  {
    AfterSteps(d, h[..j + 1]);
    assert h[..j + 1][1..] == h[1..][..j];
  }

  lemma {:induction false} StoringStep(d: Disk, h: seq<Served>, runId: string, id: string) returns (j: nat)
    requires Inv(d) && StoredApproval(d, runId, id).None?
    requires StoredApproval(After(d, Steps(h)), runId, id).Some?
    ensures StoredAt(d, h, runId, id, j)
    ensures (runId, id) in Resumed(d, h) <==> Resumes(After(d, Steps(h[..j])), h[j])
    decreases |h|
  {
    var s := h[0].step;
    var e := ApplyAll(d, Landed(d, s));
    StepKeepsInv(d, s);
    AfterSteps(d, h);
    if StoredApproval(e, runId, id).Some? {
      j := 0;
      assert Steps(h[..0]) == [] && After(d, []) == d;
      FirstStores(d, h, runId, id);
    } else {
      var k := StoringStep(e, h[1..], runId, id);
      j := k + 1;
      StoredAtShift(d, h, runId, id, k);
      assert h[1..][k] == h[j];
      if CallsResume(d, s) {
        PostThatDecides(d, s.op.runId, s.op.id, s.op.verdict, s.op.key, s.op.now, s.op.later);
      }
    }
  }

  lemma FirstStores(d: Disk, h: seq<Served>, runId: string, id: string)
    requires Inv(d) && h != [] && StoredApproval(d, runId, id).None?
    requires StoredApproval(ApplyAll(d, Landed(d, h[0].step)), runId, id).Some?
    ensures (runId, id) in Resumed(d, h) <==> Resumes(d, h[0])
  {
    var e := ApplyAll(d, Landed(d, h[0].step));
    StepKeepsInv(d, h[0].step);
    if (runId, id) in Resumed(e, h[1..]) {
      ResumedWasCalled(e, h[1..], runId, id);
      StoredDecisionNeverResumes(e, Steps(h[1..]), runId, id);
    }
    if h[0].step.op.Post? {
      StoringPost(d, h[0].step, runId, id);
    }
  }

  /**
   A stored decision is resumed exactly when the step that stored it was a POST that lived past its
   last write and at that moment no task of the Run was executing.
   */
  lemma ResumedIff(d: Disk, h: seq<Served>, runId: string, id: string) returns (j: nat)
    requires Inv(d) && StoredApproval(d, runId, id).None?
    requires StoredApproval(After(d, Steps(h)), runId, id).Some?
    ensures StoredAt(d, h, runId, id, j)
    ensures (runId, id) in Resumed(d, h) <==>
            && h[j].step.op.Post? && !h[j].executing
            && h[j].step.survived > |PlanOf(After(d, Steps(h[..j])), h[j].step.op).writes|
  {
    j := StoringStep(d, h, runId, id);
    if h[j].step.op.Post? {
      StoringPost(After(d, Steps(h[..j])), h[j].step, runId, id);
    }
  }

  /** A decision stored while a task was executing is never resumed, whatever is posted afterwards. */
  lemma BusyApprovalIsFinal(d: Disk, s: Served, later: seq<Served>, runId: string, id: string)
    requires Inv(d) && StoredApproval(d, runId, id).None? && s.executing
    requires StoredApproval(ApplyAll(d, Landed(d, s.step)), runId, id).Some?
    ensures StoredApproval(After(d, Steps([s] + later)), runId, id).Some?
    ensures (runId, id) !in Resumed(d, [s] + later)
  {
    var h := [s] + later;
    var e := ApplyAll(d, Landed(d, s.step));
    StepKeepsInv(d, s.step);
    AfterSteps(d, h);
    assert h[1..] == later;
    ApprovalIsWriteOnce(e, Steps(later), runId, id);
    FirstStores(d, h, runId, id);
  }
}
