/**
 The crash invariant of the Artifact Store.

 Every single write of every operation is shown to be made under a guard (Legal).  Whatever is proved
 of guarded writes one at a time then holds in every state a crash can leave behind.
 */
module RunStoreInvariant {
  import opened Wrappers
  import opened AgentSchema
  import opened RunStoreSpec

  ghost predicate RunOk(runId: string, dir: RunDir) {
    && (dir.pointer.Some? ==> dir.pointer.value.runId == runId)
    && (dir.log.Some? ==> Gapless(dir.log.value))
    && (dir.record.Some? ==>
          dir.record.value.lastEventSequence <= if dir.log.Some? then |dir.log.value| else 0)
    && (forall id | id in dir.approvals :: dir.approvals[id].approvalId == id)
  }

  ghost predicate Inv(d: Disk) {
    && (forall r | r in d.runs :: RunOk(r, d.runs[r]))
    && (forall key, a, b | KeyHeldBy(d, key, a) && KeyHeldBy(d, key, b) :: a == b)
  }

  ghost predicate WaitingFor(d: Disk, runId: string, approvalId: string, call: ToolCall) {
    && Load(d, runId).Some?
    && Load(d, runId).value.status.WaitingApproval?
    && Load(d, runId).value.pendingApprovalId == Some(approvalId)
    && Load(d, runId).value.pendingToolCall == Some(call)
  }

  ghost predicate ApprovalOf(d: Disk, runId: string, approvalId: string, call: ToolCall) {
    match StoredApproval(d, runId, approvalId)
    case None => false
    case Some(decision) => decision.verdict.Approved? && decision.callSha == Sha256(call)
  }

  predicate Live(d: Disk, runId: string) {
    Load(d, runId).Some? && !Terminal(Load(d, runId).value.status)
  }

  /** What is true of the disk whenever the store performs the write. */
  ghost predicate Legal(d: Disk, w: Write) {
    match w
    case MakeRun(r) => r !in d.runs
    case PutRequest(r, _) => r in d.runs && d.runs[r].record.None?
    case PutRecord(r, record) =>
      && r in d.runs
      && var dir := d.runs[r];
         if dir.record.None? then record.lastEventSequence == 0 && record.status.Created? && dir.log.None?
         else
           && Live(d, r)
           && record.createdAt == dir.record.value.createdAt
           && record.expiresAt == dir.record.value.expiresAt
           && record.requestSha == dir.record.value.requestSha
           && (record.lastEventSequence == dir.record.value.lastEventSequence
               || (dir.log.Some? && record.lastEventSequence == |dir.log.value|))
    case PutPointer(r, p) =>
      && Live(d, r) && d.runs[r].pointer.None? && p.runId == r
      && forall h :: !KeyHeldBy(d, p.keySha.preimage, h)
    case TouchLog(r) => Live(d, r) && d.runs[r].log.None? && d.runs[r].record.value.lastEventSequence == 0
    case AppendLine(r, e) => Live(d, r) && d.runs[r].log.Some? && e.sequence == |d.runs[r].log.value| + 1
    case PutApproval(r, decision) =>
      && StoredApproval(d, r, decision.approvalId).None?
      && WaitingFor(d, r, decision.approvalId, decision.callSha.preimage)
    case PutSandbox(t, approvalId, callId, updates, payload) =>
      && t !in d.sandboxes
      && ApprovalOf(d, t.runId, approvalId, ToolCall(callId, SERVER, TOOL, ConfigPatch(t.path, updates)))
      && t.path in d.sources && d.sources[t.path].Mapping?
      && payload == d.sources[t.path].config + updates
    case EditSource(_, _) => true
  }

  ghost predicate AllLegal(d: Disk, ws: seq<Write>)
    decreases |ws|
  {
    ws != [] ==> Legal(d, ws[0]) && AllLegal(Apply(d, ws[0]), ws[1..])
  }

  // ----- sequences of writes -----

  lemma {:induction false} ApplyConcat(d: Disk, a: seq<Write>, b: seq<Write>)
    ensures ApplyAll(d, a + b) == ApplyAll(ApplyAll(d, a), b)
    decreases |a|
  {
    if a == [] {
      assert a + b == b;
    } else {
      assert (a + b)[1..] == a[1..] + b;
      ApplyConcat(Apply(d, a[0]), a[1..], b);
    }
  }

  lemma {:induction false} LegalConcat(d: Disk, a: seq<Write>, b: seq<Write>)
    ensures AllLegal(d, a + b) <==> AllLegal(d, a) && AllLegal(ApplyAll(d, a), b)
    decreases |a|
  {
    if a == [] {
      assert a + b == b;
    } else {
      assert (a + b)[1..] == a[1..] + b;
      LegalConcat(Apply(d, a[0]), a[1..], b);
    }
  }

  lemma LegalPrefix(d: Disk, ws: seq<Write>, survived: nat)
    requires AllLegal(d, ws)
    ensures AllLegal(d, Cut(ws, survived))
  {
    if survived < |ws| {
      assert ws == ws[..survived] + ws[survived..];
      LegalConcat(d, ws[..survived], ws[survived..]);
    }
  }

  // ----- guarded writes keep the invariant -----

  lemma ApplyKeepsInv(d: Disk, w: Write)
    requires Inv(d) && Legal(d, w)
    ensures Inv(Apply(d, w))
  {
    var e := Apply(d, w);
    forall r | r in e.runs ensures RunOk(r, e.runs[r]) {
      if r in d.runs {
        assert RunOk(r, d.runs[r]);
      }
    }
    forall key, a, b | KeyHeldBy(e, key, a) && KeyHeldBy(e, key, b) ensures a == b {
      if !(KeyHeldBy(d, key, a) && KeyHeldBy(d, key, b)) {
        assert w.PutPointer? && w.pointer.keySha.preimage == key;
        assert !KeyHeldBy(d, key, a) && !KeyHeldBy(d, key, b);
      }
    }
  }

  lemma {:induction false} WritesKeepInv(d: Disk, ws: seq<Write>)
    requires Inv(d) && AllLegal(d, ws)
    ensures Inv(ApplyAll(d, ws))
    decreases |ws|
  {
    if ws != [] {
      ApplyKeepsInv(d, ws[0]);
      WritesKeepInv(Apply(d, ws[0]), ws[1..]);
    }
  }
}
