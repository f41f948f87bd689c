/**
 The Artifact Store as an object: each method writes file by file, may die before any write, and is
 proved to leave exactly the prefix of its plan that its remaining writes allowed.
 */
module RunStore {
  import opened Wrappers
  import opened AgentSchema
  import opened RunStoreSpec
  import opened RunStoreInvariant
  import opened RunStoreHistory

  datatype Outcome = Crashed | Answered(reply: Reply)

  function OutcomeOf(plan: Plan, left: nat): Outcome {
    if |plan.writes| <= left then Answered(plan.reply) else Crashed
  }

  /** Performing a plan and then the plan that follows it is performing their composition. */
  lemma Compose(d: Disk, first: Plan, second: (Disk, Reply) -> Plan, left: nat)
    requires !first.reply.Refused?
    ensures var mid := ApplyAll(d, first.writes);
            var next := second(mid, first.reply);
            var all := Then(d, first, second);
            && (|first.writes| <= left ==>
                  && ApplyAll(d, Cut(all.writes, left)) == ApplyAll(mid, Cut(next.writes, left - |first.writes|))
                  && |Cut(all.writes, left)| == |first.writes| + |Cut(next.writes, left - |first.writes|)|
                  && OutcomeOf(all, left) == OutcomeOf(next, left - |first.writes|))
            && (|first.writes| > left ==>
                  Cut(all.writes, left) == Cut(first.writes, left) && OutcomeOf(all, left) == Crashed)
  {
    var next := second(ApplyAll(d, first.writes), first.reply);
    if |first.writes| <= left {
      var rest := left - |first.writes|;
      assert Cut(first.writes + next.writes, left) == first.writes + Cut(next.writes, rest);
      ApplyConcat(d, first.writes, Cut(next.writes, rest));
    }
  }

  class AgentRunStore {
    var disk: Disk
    var writesLeft: nat   // how many more writes reach the medium before the process dies

    ghost predicate Valid()
      reads this
    {
      Inv(disk)
    }

    ghost predicate Performed(before: Disk, left: nat, plan: Plan, out: Outcome)
      reads this
    {
      && disk == ApplyAll(before, Cut(plan.writes, left))
      && writesLeft == left - |Cut(plan.writes, left)|
      && out == OutcomeOf(plan, left)
    }

    constructor (sources: map<string, Source>, lifetime: nat)
      ensures Valid() && disk == Disk(map[], map[], sources) && writesLeft == lifetime
    {
      disk := Disk(map[], map[], sources);
      writesLeft := lifetime;
    }

    method Persist(w: Write) returns (landed: bool)
      modifies this
      ensures landed <==> old(writesLeft) > 0
      ensures disk == if landed then Apply(old(disk), w) else old(disk)
      ensures writesLeft == if landed then old(writesLeft) - 1 else 0
    {
      landed := writesLeft > 0;
      if landed {
        disk := Apply(disk, w);
        writesLeft := writesLeft - 1;
      }
    }

    /** Writes one file after the other until all are down or the process dies. */
    method PersistInOrder(ws: seq<Write>) returns (landed: bool)
      modifies this
      ensures disk == ApplyAll(old(disk), Cut(ws, old(writesLeft)))
      ensures writesLeft == old(writesLeft) - |Cut(ws, old(writesLeft))|
      ensures landed <==> |ws| <= old(writesLeft)
    {
      var i := 0;
      while i < |ws|
        invariant i <= |ws| && i <= old(writesLeft)
        invariant disk == ApplyAll(old(disk), ws[..i])
        invariant writesLeft == old(writesLeft) - i
      {
        var ok := Persist(ws[i]);
        if !ok {
          return false;
        }
        assert ws[..i + 1] == ws[..i] + [ws[i]];
        ApplyConcat(old(disk), ws[..i], [ws[i]]);
        assert [ws[i]][1..] == [];
        assert ApplyAll(ApplyAll(old(disk), ws[..i]), [ws[i]]) == disk;
        i := i + 1;
      }
      assert ws[..i] == ws;
      return true;
    }

    method Create(request: string, key: string, now: Instant, expiresIn: int, runId: string)
      returns (out: Outcome)
      requires Valid()
      modifies this
      ensures Valid()
      ensures Performed(old(disk), old(writesLeft), CreatePlan(old(disk), request, key, now, expiresIn, runId), out)
    {
      PlanIsLegal(disk, RunStoreSpec.Create(request, key, now, expiresIn, runId));
      PrefixKeepsInv(disk, CreatePlan(disk, request, key, now, expiresIn, runId), writesLeft);
      if !ValidKey(key) || expiresIn <= 0 || expiresIn > DAY {
        return Answered(Refused);
      }
      var rest := disk.runs.Keys;
      while rest != {}
        invariant rest <= disk.runs.Keys
        invariant forall h | h in disk.runs && h !in rest :: !KeyHeldBy(disk, key, h)
        decreases rest
      {
        var h :| h in rest;
        rest := rest - {h};
        if disk.runs[h].pointer.Some? && disk.runs[h].pointer.value.keySha == Sha256(key) {
          var pointer := disk.runs[h].pointer.value;
          assert KeyHeldBy(disk, key, h);
          if pointer.requestSha != Sha256(request) || Load(disk, pointer.runId).None? {
            return Answered(Refused);
          }
          return Answered(Identity(pointer.runId, false));
        }
      }
      if runId in disk.runs {
        return Answered(Refused);
      }
      assert !exists h :: KeyHeldBy(disk, key, h);
      var landed := PersistInOrder(CreationWrites(runId, request, key, now, expiresIn));
      out := if landed then Answered(Identity(runId, true)) else Crashed;
    }

    method AppendEvent(runId: string, kind: EventKind, data: string, now: Instant) returns (out: Outcome)
      requires Valid()
      modifies this
      ensures Valid()
      ensures Performed(old(disk), old(writesLeft), AppendPlan(old(disk), runId, kind, data, now), out)
    {
      AppendIsLegal(disk, runId, kind, data, now);
      PrefixKeepsInv(disk, AppendPlan(disk, runId, kind, data, now), writesLeft);
      var record := Load(disk, runId);
      if record.None? || Terminal(record.value.status) {
        return Answered(Refused);
      }
      var existing := EventsAfter(disk, runId, 0);
      if existing.None? {
        return Answered(Refused);
      }
      var durable := if existing.value == [] then 0 else existing.value[|existing.value| - 1].sequence;
      if record.value.lastEventSequence > durable {
        return Answered(Refused);
      }
      var event := Event(durable + 1, kind, now, data);
      var line := AppendLine(runId, event);
      var cursor := PutRecord(runId, record.value.(updatedAt := now, lastEventSequence := event.sequence));
      assert AppendPlan(disk, runId, kind, data, now) == Plan([line, cursor], Appended(event));
      var landed := PersistInOrder([line, cursor]);
      out := if landed then Answered(Appended(event)) else Crashed;
    }

    /** The check before the write is that of the rules between fields; single fields are not checked. */
    method Transition(runId: string, status: Status, now: Instant,
                      approvalId: Option<string>, call: Option<ToolCall>, errorCode: Option<string>)
      returns (out: Outcome)
      requires Valid()
      modifies this
      ensures Valid()
      ensures Performed(old(disk), old(writesLeft),
                        TransitionPlan(old(disk), runId, status, now, approvalId, call, errorCode), out)
    {
      TransitionIsLegal(disk, runId, status, now, approvalId, call, errorCode);
      PrefixKeepsInv(disk, TransitionPlan(disk, runId, status, now, approvalId, call, errorCode), writesLeft);
      var record := Load(disk, runId);
      if record.None? || Terminal(record.value.status) {
        return Answered(Refused);
      }
      var completed := if Terminal(status) then Some(now) else None;
      var updated := record.value.(status := status, updatedAt := now, completedAt := completed,
        pendingApprovalId := approvalId, pendingToolCall := call, errorCode := errorCode);
      if !Consistent(updated) {
        return Answered(Refused);
      }
      var landed := PersistInOrder([PutRecord(runId, updated)]);
      out := if landed then Answered(Projection(updated, true)) else Crashed;
    }

    method Cancel(runId: string, now: Instant) returns (out: Outcome)
      requires Valid()
      modifies this
      ensures Valid()
      ensures Performed(old(disk), old(writesLeft), CancelPlan(old(disk), runId, now), out)
    {
      var record := Load(disk, runId);
      if record.None? {
        return Answered(Refused);
      }
      if record.value.status.Cancelled? {
        return Answered(Projection(record.value, false));
      }
      if Terminal(record.value.status) {
        return Answered(Refused);
      }
      out := Transition(runId, Cancelled, now, None, None, None);
    }

    method ExpireIfDue(runId: string, now: Instant) returns (out: Outcome)
      requires Valid()
      modifies this
      ensures Valid()
      ensures Performed(old(disk), old(writesLeft), ExpirePlan(old(disk), runId, now), out)
    {
      var record := Load(disk, runId);
      if record.None? {
        return Answered(Refused);
      }
      if Terminal(record.value.status) || now < record.value.expiresAt {
        return Answered(Projection(record.value, false));
      }
      var deadline := record.value.expiresAt;
      ghost var first := AppendPlan(disk, runId, RunFailed, "AGENT_RUN_EXPIRED", deadline);
      ghost var second := (mid: Disk, _: Reply) => TransitionPlan(mid, runId, Expired, deadline, None, None, None);
      if !first.reply.Refused? {
        Compose(disk, first, second, writesLeft);
      }
      out := AppendEvent(runId, RunFailed, "AGENT_RUN_EXPIRED", deadline);
      if out.Crashed? || out.reply.Refused? {
        return;
      }
      out := Transition(runId, Expired, deadline, None, None, None);
    }

    method DecideApproval(runId: string, decision: Decision) returns (out: Outcome)
      requires Valid()
      modifies this
      ensures Valid()
      ensures Performed(old(disk), old(writesLeft), DecidePlan(old(disk), runId, decision), out)
    {
      PlanIsLegal(disk, Decide(runId, decision));
      PrefixKeepsInv(disk, DecidePlan(disk, runId, decision), writesLeft);
      var record := Load(disk, runId);
      if record.None? {
        return Answered(Refused);
      }
      var stored := disk.runs[runId].approvals;
      if decision.approvalId in stored {
        if stored[decision.approvalId] != decision {
          return Answered(Refused);
        }
        return Answered(Decided(false));
      }
      if !record.value.status.WaitingApproval? || record.value.pendingApprovalId != Some(decision.approvalId) {
        return Answered(Refused);
      }
      if Sha256(record.value.pendingToolCall.value) != decision.callSha {
        return Answered(Refused);
      }
      var landed := PersistInOrder([PutApproval(runId, decision)]);
      out := if landed then Answered(Decided(true)) else Crashed;
    }
  }

  lemma PrefixKeepsInv(d: Disk, plan: Plan, left: nat)
    requires Inv(d) && AllLegal(d, plan.writes)
    ensures Inv(ApplyAll(d, Cut(plan.writes, left)))
  {
    LegalPrefix(d, plan.writes, left);
    WritesKeepInv(d, Cut(plan.writes, left));
  }

  /** The one tool that writes: it reads the approval and the source, and writes the sandbox file. */
  class DevOpsTools {
    const artifacts: AgentRunStore

    constructor (artifacts: AgentRunStore)
      ensures this.artifacts == artifacts
    {
      this.artifacts := artifacts;
    }

    method ApplySandboxConfigPatch(runId: string, approvalId: string, callId: string,
                                   path: string, updates: Config)
      returns (out: Outcome)
      requires artifacts.Valid()
      modifies artifacts
      ensures artifacts.Valid()
      ensures artifacts.Performed(old(artifacts.disk), old(artifacts.writesLeft),
                PatchPlan(old(artifacts.disk), runId, approvalId, callId, path, updates), out)
    {
      var d := artifacts.disk;
      PlanIsLegal(d, Patch(runId, approvalId, callId, path, updates));
      PrefixKeepsInv(d, PatchPlan(d, runId, approvalId, callId, path, updates), artifacts.writesLeft);
      if updates == map[] {
        return Answered(Refused);
      }
      var approval := StoredApproval(d, runId, approvalId);
      if approval.None? || approval.value.approvalId != approvalId || !approval.value.verdict.Approved? {
        return Answered(Refused);
      }
      var proposed := ToolCall(callId, SERVER, TOOL, ConfigPatch(path, updates));
      if Sha256(proposed) != approval.value.callSha {
        return Answered(Refused);
      }
      if path !in d.sources || d.sources[path].Unreadable? {
        return Answered(Refused);
      }
      var target := Target(runId, path);
      var payload := d.sources[path].config + updates;
      if target in d.sandboxes {
        if d.sandboxes[target] == payload {
          return Answered(Patched(target, payload));
        }
        return Answered(Refused);
      }
      var landed := artifacts.PersistInOrder([PutSandbox(target, approvalId, callId, updates, payload)]);
      out := if landed then Answered(Patched(target, payload)) else Crashed;
    }
  }
}
