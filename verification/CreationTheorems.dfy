/**
 Creation by Idempotency-Key, repeated and cut short, and what a creation cut short leaves behind.
 */
module CreationTheorems {
  import opened AgentSchema
  import opened RunStoreSpec
  import opened RunStoreInvariant
  import opened RunStoreHistory
  import opened RunStoreTheorems

  lemma ApplyOneMore(d: Disk, ws: seq<Write>, k: nat)
    requires k < |ws|
    ensures ApplyAll(d, ws[..k + 1]) == Apply(ApplyAll(d, ws[..k]), ws[k])
  {
    assert ws[..k + 1] == ws[..k] + [ws[k]];
    ApplyConcat(d, ws[..k], [ws[k]]);
    assert [ws[k]][1..] == [];
  }

  /** The disk after the first k writes of a creation on a directory name that was free. */
  lemma {:induction false} CreationDisk(
    d: Disk, runId: string, request: string, key: string, now: Instant, expiresIn: int, k: nat)
    requires runId !in d.runs && k <= 5
    ensures ApplyAll(d, CreationWrites(runId, request, key, now, expiresIn)[..k]) ==
            if k == 0 then d else UpdateRun(d, runId, PartialRun(runId, request, key, now, expiresIn, k))
    decreases k
  {
    var ws := CreationWrites(runId, request, key, now, expiresIn);
    if k > 0 {
      CreationDisk(d, runId, request, key, now, expiresIn, k - 1);
      ApplyOneMore(d, ws, k - 1);
      if k > 1 {
        CreationWrite(d, runId, request, key, now, expiresIn, k - 1);
      }
    }
  }

  /** No key is ever held by two pointers, whatever crashed. */
  lemma OnePointerPerKey(sources: map<string, Source>, history: seq<Step>, key: string, a: string, b: string)
    requires KeyHeldBy(After(Fresh(sources), history), key, a) && KeyHeldBy(After(Fresh(sources), history), key, b)
    ensures a == b
  {
    HistoryIsLegal(Fresh(sources), history);
  }

  ghost predicate Bound(d: Disk, key: string, request: string, runId: string) {
    KeyHeldBy(d, key, runId) && d.runs[runId].pointer.value.requestSha == Sha256(request)
  }

  lemma CreateBindsKey(d: Disk, request: string, key: string, now: Instant, expiresIn: int, runId: string)
    requires Inv(d) && CreatePlan(d, request, key, now, expiresIn, runId).reply.Identity?
    ensures var plan := CreatePlan(d, request, key, now, expiresIn, runId);
            Bound(ApplyAll(d, plan.writes), key, request, plan.reply.runId)
  {
    if h :| KeyHeldBy(d, key, h) {
      assert RunOk(h, d.runs[h]);
    } else {
      CreationDisk(d, runId, request, key, now, expiresIn, 5);
      var ws := CreationWrites(runId, request, key, now, expiresIn);
      assert ws[..5] == ws;
    }
  }

  /**
   A creation that was answered is answered the same way ever after: the same request gets the same
   Run as long as that Run loads, any other request is refused, and neither writes anything.
   */
  lemma RepeatedCreate(d: Disk, request: string, key: string, now: Instant, expiresIn: int, runId: string,
                       history: seq<Step>,
                       request': string, now': Instant, expiresIn': int, runId': string)
    requires Inv(d) && CreatePlan(d, request, key, now, expiresIn, runId).reply.Identity?
    requires 0 < expiresIn' <= DAY
    ensures var first := CreatePlan(d, request, key, now, expiresIn, runId);
            var e := After(ApplyAll(d, first.writes), history);
            CreatePlan(e, request', key, now', expiresIn', runId') ==
              if request' == request && Load(e, first.reply.runId).Some?
              then Plan([], Identity(first.reply.runId, false)) else REFUSE
  {
    var first := CreatePlan(d, request, key, now, expiresIn, runId);
    var mid := ApplyAll(d, first.writes);
    var r := first.reply.runId;
    CreateBindsKey(d, request, key, now, expiresIn, runId);
    CreateIsLegal(d, request, key, now, expiresIn, runId);
    WritesKeepInv(d, first.writes);
    HistoryIsLegal(mid, history);
    HistoryGrows(mid, history);
    var e := After(mid, history);
    assert RunGrows(mid.runs[r], e.runs[r]) && RunOk(r, e.runs[r]);
    assert KeyHeldBy(e, key, r);
  }

  lemma CrashedCreation(
    d: Disk, request: string, key: string, now: Instant, expiresIn: int, runId: string, survived: nat)
    requires CreatePlan(d, request, key, now, expiresIn, runId).reply == Identity(runId, true)
    requires runId !in d.runs
    ensures var k := if survived < 5 then survived else 5;
            After(d, [Step(Create(request, key, now, expiresIn, runId), survived)]) ==
            if k == 0 then d else UpdateRun(d, runId, PartialRun(runId, request, key, now, expiresIn, k))
  {
    var step := Step(Create(request, key, now, expiresIn, runId), survived);
    var ws := CreationWrites(runId, request, key, now, expiresIn);
    var k := if survived < 5 then survived else 5;
    CrashTrace(d, step);
    assert Landed(d, step) == ws[..k];
    CreationDisk(d, runId, request, key, now, expiresIn, k);
  }

  /** The pointer, and nothing before it, makes a Run the holder of a key that was free. */
  lemma PartialHolder(
    d: Disk, request: string, key: string, now: Instant, expiresIn: int, runId: string, k: nat, h: string)
    requires k > 0 && !KeyHeldBy(d, key, h)
    ensures KeyHeldBy(UpdateRun(d, runId, PartialRun(runId, request, key, now, expiresIn, k)), key, h)
            <==> k >= 4 && h == runId
  {
  }

  /**
   A retry of a creation that crashed finds the first Run exactly when the pointer had landed, that
   is from the fourth write on.  After exactly three writes the retry makes a second Run beside a
   first one that has a record and no pointer.
   */
  lemma RetryAfterCrash(d: Disk, request: string, key: string, now: Instant, expiresIn: int, runId: string,
                        survived: nat, now': Instant, runId': string)
    requires Inv(d) && CreatePlan(d, request, key, now, expiresIn, runId).reply == Identity(runId, true)
    requires runId' !in d.runs && runId' != runId
    ensures var e := After(d, [Step(Create(request, key, now, expiresIn, runId), survived)]);
            && CreatePlan(e, request, key, now', expiresIn, runId').reply ==
                 (if survived >= 4 then Identity(runId, false) else Identity(runId', true))
            && (survived >= 3 <==> runId in e.runs && e.runs[runId].record.Some?)
  {
    FreshIdentity(d, request, key, now, expiresIn, runId);
    CrashedCreation(d, request, key, now, expiresIn, runId, survived);
    if survived > 0 {
      var k := if survived < 5 then survived else 5;
      var e := UpdateRun(d, runId, PartialRun(runId, request, key, now, expiresIn, k));
      forall h ensures KeyHeldBy(e, key, h) <==> k >= 4 && h == runId {
        PartialHolder(d, request, key, now, expiresIn, runId, k, h);
      }
      assert k >= 4 ==> KeyHeldBy(e, key, runId);
    }
  }

  /** A creation is answered as new only under a free name and a free key. */
  lemma FreshIdentity(d: Disk, request: string, key: string, now: Instant, expiresIn: int, runId: string)
    requires Inv(d) && CreatePlan(d, request, key, now, expiresIn, runId).reply == Identity(runId, true)
    ensures runId !in d.runs && forall h :: !KeyHeldBy(d, key, h)
  {
  }

  // ----- a Run whose log file was never made -----

  ghost predicate LogMissing(d: Disk, runId: string) {
    runId in d.runs && d.runs[runId].log.None?
  }

  predicate NoTouch(ws: seq<Write>, runId: string) {
    forall i | 0 <= i < |ws| :: ws[i] != TouchLog(runId)
  }

  lemma {:induction false} UntouchedStaysMissing(d: Disk, ws: seq<Write>, runId: string)
    requires AllLegal(d, ws) && LogMissing(d, runId) && NoTouch(ws, runId)
    ensures LogMissing(ApplyAll(d, ws), runId)
    decreases |ws|
  {
    if ws != [] {
      assert ws[0] != TouchLog(runId);
      UntouchedStaysMissing(Apply(d, ws[0]), ws[1..], runId);
    }
  }

  lemma ExpireNeverTouches(d: Disk, runId: string, now: Instant, any: string)
    ensures NoTouch(ExpirePlan(d, runId, now).writes, any)
  {
  }

  lemma PostNeverTouches(d: Disk, op: Op, any: string)
    requires op.Post?
    ensures NoTouch(PlanOf(d, op).writes, any)
  {
    ExpireNeverTouches(d, op.runId, op.now, any);
  }

  lemma OperationsNeverTouch(d: Disk, op: Op, runId: string)
    requires runId in d.runs
    ensures NoTouch(PlanOf(d, op).writes, runId)
  {
    match op
    case Post(r, id, verdict, key, now, later) => PostNeverTouches(d, op, runId);
    case _ =>
  }

  /**
   A Run whose creation crashed before its last step never gets a log: over every history it accepts
   no event, and once it is due its expiry is refused.
   */
  lemma RunWithoutLogIsStuck(d: Disk, history: seq<Step>, runId: string)
    requires Inv(d) && LogMissing(d, runId)
    ensures var e := After(d, history);
            && (forall kind, data, now :: AppendPlan(e, runId, kind, data, now) == REFUSE)
            && (forall now | Live(e, runId) && now >= Load(e, runId).value.expiresAt ::
                  ExpirePlan(e, runId, now) == REFUSE)
  {
    HistoryIsLegal(d, history);
    MissingLogIsForever(d, history, runId);
  }

  lemma {:induction false} MissingLogIsForever(d: Disk, history: seq<Step>, runId: string)
    requires Inv(d) && LogMissing(d, runId)
    ensures LogMissing(After(d, history), runId)
    decreases |history|
  {
    if history != [] {
      var ws := Landed(d, history[0]);
      OperationsNeverTouch(d, history[0].op, runId);
      PlanIsLegal(d, history[0].op);
      LegalPrefix(d, PlanOf(d, history[0].op).writes, history[0].survived);
      UntouchedStaysMissing(d, ws, runId);
      WritesKeepInv(d, ws);
      MissingLogIsForever(ApplyAll(d, ws), history[1..], runId);
      ApplyConcat(d, ws, Trace(ApplyAll(d, ws), history[1..]));
    }
  }
}
