/**
 The promises of the Artifact Store, for every history of operations and every crash.
 */
module RunStoreTheorems {
  import opened Wrappers
  import opened AgentSchema
  import opened RunStoreSpec
  import opened RunStoreInvariant
  import opened RunStoreHistory

  // ----- what can only grow -----

  ghost predicate RunGrows(a: RunDir, b: RunDir) {
    && (a.log.Some? ==> b.log.Some? && a.log.value <= b.log.value)
    && (a.pointer.Some? ==> b.pointer == a.pointer)
    && (forall id | id in a.approvals :: id in b.approvals && b.approvals[id] == a.approvals[id])
    && (a.record.Some? ==>
          && b.record.Some?
          && b.request == a.request
          && b.record.value.createdAt == a.record.value.createdAt
          && b.record.value.expiresAt == a.record.value.expiresAt
          && b.record.value.requestSha == a.record.value.requestSha
          && a.record.value.lastEventSequence <= b.record.value.lastEventSequence)
    && (a.record.Some? && (Terminal(a.record.value.status) || !Consistent(a.record.value)) ==> b == a)
  }

  ghost predicate Grows(d: Disk, e: Disk) {
    && (forall r | r in d.runs :: r in e.runs && RunGrows(d.runs[r], e.runs[r]))
    && (forall t | t in d.sandboxes :: t in e.sandboxes && e.sandboxes[t] == d.sandboxes[t])
  }

  lemma ApplyGrows(d: Disk, w: Write)
    requires Inv(d) && Legal(d, w)
    ensures Grows(d, Apply(d, w))
  {
    var e := Apply(d, w);
    forall r | r in d.runs ensures r in e.runs && RunGrows(d.runs[r], e.runs[r]) {
      assert RunOk(r, d.runs[r]);
    }
  }

  lemma GrowsTransitive(d: Disk, e: Disk, f: Disk)
    requires Grows(d, e) && Grows(e, f)
    ensures Grows(d, f)
  {
    forall r | r in d.runs ensures r in f.runs && RunGrows(d.runs[r], f.runs[r]) {
      assert RunGrows(d.runs[r], e.runs[r]) && RunGrows(e.runs[r], f.runs[r]);
    }
  }

  lemma {:induction false} WritesGrow(d: Disk, ws: seq<Write>)
    requires Inv(d) && AllLegal(d, ws)
    ensures Grows(d, ApplyAll(d, ws))
    decreases |ws|
  {
    if ws != [] {
      ApplyGrows(d, ws[0]);
      ApplyKeepsInv(d, ws[0]);
      WritesGrow(Apply(d, ws[0]), ws[1..]);
      GrowsTransitive(d, Apply(d, ws[0]), ApplyAll(d, ws));
    }
  }

  lemma HistoryGrows(d: Disk, history: seq<Step>)
    requires Inv(d)
    ensures Grows(d, After(d, history))
  {
    HistoryIsLegal(d, history);
    WritesGrow(d, Trace(d, history));
  }

  // ----- the crash invariant -----

  function Fresh(sources: map<string, Source>): Disk {
    Disk(map[], map[], sources)
  }

  /** Every log is numbered 1..n and no cursor is ahead of it, wherever the crashes landed. */
  lemma LogsAreGapless(sources: map<string, Source>, history: seq<Step>, runId: string)
    requires runId in After(Fresh(sources), history).runs
    ensures var dir := After(Fresh(sources), history).runs[runId];
            && (dir.log.Some? ==> forall i | 0 <= i < |dir.log.value| :: dir.log.value[i].sequence == i + 1)
            && (dir.record.Some? ==> dir.record.value.lastEventSequence <=
                                     if dir.log.Some? then |dir.log.value| else 0)
  {
    HistoryIsLegal(Fresh(sources), history);
    assert RunOk(runId, After(Fresh(sources), history).runs[runId]);
  }

  /** An acknowledged append has extended the log by its event and caught the cursor up with it. */
  lemma AcknowledgedAppend(d: Disk, runId: string, kind: EventKind, data: string, now: Instant)
    requires Inv(d) && AppendPlan(d, runId, kind, data, now).reply.Appended?
    ensures var plan := AppendPlan(d, runId, kind, data, now);
            var e := ApplyAll(d, plan.writes);
            && e.runs.Keys == d.runs.Keys && runId in d.runs && d.runs[runId].log.Some?
            && e.runs[runId].log == Some(d.runs[runId].log.value + [plan.reply.event])
            && e.runs[runId].record.Some?
            && e.runs[runId].record.value.lastEventSequence == plan.reply.event.sequence
            && plan.reply.event.sequence == |e.runs[runId].log.value|
            && forall r | r in d.runs && r != runId :: e.runs[r] == d.runs[r]
  {
    AppendAccepted(d, runId, kind, data, now);
    var ws := AppendPlan(d, runId, kind, data, now).writes;
    var mid := Apply(d, ws[0]);
    assert ApplyAll(d, ws) == Apply(mid, ws[1]) by {
      assert ws[1..][1..] == [];
      assert ApplyAll(mid, ws[1..]) == ApplyAll(Apply(mid, ws[1]), ws[1..][1..]);
    }
  }

  lemma CrashTrace(d: Disk, step: Step)
    ensures Trace(d, [step]) == Landed(d, step)
    ensures After(d, [step]) == ApplyAll(d, Landed(d, step))
  {
    var ws := Landed(d, step);
    assert [step][1..] == [];
    assert ws + Trace(ApplyAll(d, ws), [step][1..]) == ws;
  }

  /** A crash between the two writes of an append leaves the event durable and the cursor one short. */
  lemma CrashedAppendIsRepaired(d: Disk, runId: string, kind: EventKind, data: string, now: Instant,
                                kind': EventKind, data': string, later: Instant)
    requires Inv(d) && AppendPlan(d, runId, kind, data, now).reply.Appended?
    ensures var mid := After(d, [Step(Append(runId, kind, data, now), 1)]);
            && runId in mid.runs && mid.runs[runId].log.Some? && mid.runs[runId].record == d.runs[runId].record
            && var next := AppendPlan(mid, runId, kind', data', later);
            next.reply == Appended(Event(|mid.runs[runId].log.value| + 1, kind', later, data'))
  {
    AppendAccepted(d, runId, kind, data, now);
    var step := Step(Append(runId, kind, data, now), 1);
    var ws := AppendPlan(d, runId, kind, data, now).writes;
    CrashTrace(d, step);
    assert Landed(d, step) == [ws[0]];
    assert [ws[0]][1..] == [];
    HistoryIsLegal(d, [step]);
    var mid := After(d, [step]);
    assert mid == Apply(d, ws[0]);
    AppendAccepted(mid, runId, kind', data', later);
  }

  /** Once a Run is terminal, or its record no longer loads, nothing in its directory changes again. */
  lemma ClosedRunIsFrozen(d: Disk, history: seq<Step>, runId: string)
    requires Inv(d) && runId in d.runs && d.runs[runId].record.Some? && !Live(d, runId)
    ensures runId in After(d, history).runs && After(d, history).runs[runId] == d.runs[runId]
  {
    HistoryGrows(d, history);
    assert RunGrows(d.runs[runId], After(d, history).runs[runId]);
  }

  /**
   An event timestamp is not validated before it is written.  The Run loads back after the append
   exactly when the timestamp lies between its creation and its deadline.
   */
  lemma AppendLoadsBackIff(d: Disk, runId: string, kind: EventKind, data: string, now: Instant)
    requires Inv(d) && AppendPlan(d, runId, kind, data, now).reply.Appended?
    ensures var r := Load(d, runId).value;
            Load(ApplyAll(d, AppendPlan(d, runId, kind, data, now).writes), runId).Some?
            <==> r.createdAt <= now <= r.expiresAt
  {
    AcknowledgedAppend(d, runId, kind, data, now);
    var ws := AppendPlan(d, runId, kind, data, now).writes;
    assert ApplyAll(d, ws) == Apply(Apply(d, ws[0]), ws[1]) by {
      assert ws[1..][1..] == [];
      assert ApplyAll(Apply(d, ws[0]), ws[1..]) == ApplyAll(Apply(Apply(d, ws[0]), ws[1]), ws[1..][1..]);
    }
  }

  /** A late event therefore closes its Run for good: no operation is accepted on it ever after. */
  lemma LateEventBricksRun(d: Disk, runId: string, kind: EventKind, data: string, now: Instant, history: seq<Step>)
    requires Inv(d) && AppendPlan(d, runId, kind, data, now).reply.Appended?
    requires Load(d, runId).value.expiresAt < now
    ensures var e := ApplyAll(d, AppendPlan(d, runId, kind, data, now).writes);
            && runId in e.runs
            && runId in After(e, history).runs && After(e, history).runs[runId] == e.runs[runId]
            && Load(After(e, history), runId).None?
  {
    AppendLoadsBackIff(d, runId, kind, data, now);
    AcknowledgedAppend(d, runId, kind, data, now);
    AppendIsLegal(d, runId, kind, data, now);
    var e := ApplyAll(d, AppendPlan(d, runId, kind, data, now).writes);
    WritesKeepInv(d, AppendPlan(d, runId, kind, data, now).writes);
    ClosedRunIsFrozen(e, history, runId);
  }

  // ----- histories in which every record loads -----

  ghost predicate RecordsLoad(d: Disk) {
    forall r | r in d.runs && d.runs[r].record.Some? :: Load(d, r).Some?
  }

  /** The events an operation stamps with its own clock fall within the life of their Run. */
  predicate Timely(d: Disk, op: Op) {
    (op.Append? || op.Fail?) && Load(d, op.runId).Some? ==>
      Load(d, op.runId).value.createdAt <= op.now <= Load(d, op.runId).value.expiresAt
  }

  ghost predicate TimelyHistory(d: Disk, history: seq<Step>)
    decreases |history|
  {
    history != [] ==>
      Timely(d, history[0].op) && TimelyHistory(ApplyAll(d, Landed(d, history[0])), history[1..])
  }

  predicate SoundRecords(ws: seq<Write>) {
    forall i | 0 <= i < |ws| :: ws[i].PutRecord? ==> Consistent(ws[i].record)
  }

  lemma {:induction false} SoundRecordsLoad(d: Disk, ws: seq<Write>)
    requires RecordsLoad(d) && SoundRecords(ws)
    ensures RecordsLoad(ApplyAll(d, ws))
    decreases |ws|
  {
    if ws != [] {
      assert ws[0].PutRecord? ==> Consistent(ws[0].record);
      var e := Apply(d, ws[0]);
      forall r | r in e.runs && e.runs[r].record.Some? ensures Load(e, r).Some? {
        assert r in d.runs && d.runs[r].record.Some? ==> Load(d, r).Some?;
      }
      SoundRecordsLoad(e, ws[1..]);
    }
  }

  lemma ExpireWritesSoundRecords(d: Disk, runId: string, now: Instant)
    ensures SoundRecords(ExpirePlan(d, runId, now).writes)
  {
  }

  lemma PostWritesSoundRecords(d: Disk, op: Op)
    requires op.Post?
    ensures SoundRecords(PlanOf(d, op).writes)
  {
    ExpireWritesSoundRecords(d, op.runId, op.now);
  }

  lemma TimelyPlanIsSound(d: Disk, op: Op)
    requires Timely(d, op)
    ensures SoundRecords(PlanOf(d, op).writes)
  {
    match op
    case Post(_, _, _, _, _, _) => PostWritesSoundRecords(d, op);
    case _ =>
  }

  /**
   When no event is stamped outside the life of its Run, every record loads after every crash, as far as
   the rules between fields go; counters and the patterns of single fields are not part of a record here.
   */
  lemma {:induction false} TimelyRecordsLoad(d: Disk, history: seq<Step>)
    requires RecordsLoad(d) && TimelyHistory(d, history)
    ensures RecordsLoad(After(d, history))
    decreases |history|
  {
    if history != [] {
      var ws := Landed(d, history[0]);
      TimelyPlanIsSound(d, history[0].op);
      SoundRecordsLoad(d, ws);
      TimelyRecordsLoad(ApplyAll(d, ws), history[1..]);
      ApplyConcat(d, ws, Trace(ApplyAll(d, ws), history[1..]));
    }
  }
}
