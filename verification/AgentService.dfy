/**
 The execution service: in-process tasks on top of the durable store, which stays the truth.
 The runtime inside a task is an arbitrary caller of the store and is not part of this model.
 */
module AgentService {
  import opened Wrappers
  import opened AgentSchema
  import opened RunStoreSpec
  import opened RunStoreInvariant
  import opened ExpiryTheorems
  import opened RunStore

  datatype TaskKind = Execute | ResumeApproval

  datatype Task = Task(kind: TaskKind, done: bool, cancelRequested: bool)

  predicate Busy(tasks: map<string, Task>, runId: string) {
    runId in tasks && !tasks[runId].done
  }

  function Started(tasks: map<string, Task>, runId: string): map<string, Task> {
    if Busy(tasks, runId) then tasks else tasks[runId := Task(Execute, false, false)]
  }

  datatype Recovery = Died | Aborted | Completed(count: nat)

  // ----- what recovery does -----

  predicate Active(record: Record) {
    record.status.Created? || record.status.Running?
  }

  /** The directories after the first k listed Runs were refreshed one after the other. */
  function SweptRuns(runs: map<string, RunDir>, ids: seq<string>, clock: nat -> Instant, k: nat): map<string, RunDir>
    requires k <= |ids|
  {
    if k == 0 then runs
    else
      var prior := SweptRuns(runs, ids, clock, k - 1);
      if ids[k - 1] in prior then prior[ids[k - 1] := AfterRefresh(prior[ids[k - 1]], clock(k - 1))] else prior
  }

  /** Whether the k-th Run of the sweep is active once refreshed. */
  predicate ActiveInSweep(runs: map<string, RunDir>, ids: seq<string>, clock: nat -> Instant, k: nat)
    requires k < |ids|
  {
    var prior := SweptRuns(runs, ids, clock, k);
    && ids[k] in prior && prior[ids[k]].record.Some?
    && Active(AfterRefresh(prior[ids[k]], clock(k)).record.value)
  }

  function SweptTasks(tasks: map<string, Task>, runs: map<string, RunDir>, ids: seq<string>,
                      clock: nat -> Instant, k: nat): map<string, Task>
    requires k <= |ids|
  {
    if k == 0 then tasks
    else
      var prior := SweptTasks(tasks, runs, ids, clock, k - 1);
      if ActiveInSweep(runs, ids, clock, k - 1) then Started(prior, ids[k - 1]) else prior
  }

  function SweptCount(runs: map<string, RunDir>, ids: seq<string>, clock: nat -> Instant, k: nat): nat
    requires k <= |ids|
  {
    if k == 0 then 0
    else SweptCount(runs, ids, clock, k - 1) + if ActiveInSweep(runs, ids, clock, k - 1) then 1 else 0
  }

  predicate Distinct(ids: seq<string>) {
    forall i, j | 0 <= i < j < |ids| :: ids[i] != ids[j]
  }

  /** Only created and running Runs that are not due are scheduled; a waiting Run stays idle. */
  predicate Schedulable(dir: RunDir, now: Instant) {
    && dir.record.Some? && Consistent(dir.record.value)
    && dir.record.value.status in {Status.Created, Status.Running} && now < dir.record.value.expiresAt
  }

  /** Refreshing the others first changes nothing for a Run: the sweep is pointwise. */
  lemma {:induction false} SweepIsPointwise(runs: map<string, RunDir>, ids: seq<string>, clock: nat -> Instant, k: nat)
    requires k <= |ids| && Distinct(ids)
    ensures SweptRuns(runs, ids, clock, k).Keys == runs.Keys
    ensures forall i | 0 <= i < |ids| && ids[i] in runs ::
      SweptRuns(runs, ids, clock, k)[ids[i]] ==
        if i < k then AfterRefresh(runs[ids[i]], clock(i)) else runs[ids[i]]
    ensures forall r | r in runs && r !in ids :: SweptRuns(runs, ids, clock, k)[r] == runs[r]
  {
    if k > 0 {
      SweepIsPointwise(runs, ids, clock, k - 1);
    }
  }

  /** The recovered Runs are exactly the schedulable ones, provided every record and log is in place. */
  lemma ActiveInSweepIff(runs: map<string, RunDir>, ids: seq<string>, clock: nat -> Instant, k: nat)
    requires k < |ids| && Distinct(ids) && ids[k] in runs
    requires runs[ids[k]].record.Some? && Consistent(runs[ids[k]].record.value)
    requires Due(runs[ids[k]], clock(k)) ==> runs[ids[k]].log.Some?
    ensures ActiveInSweep(runs, ids, clock, k) <==> Schedulable(runs[ids[k]], clock(k))
  {
    SweepIsPointwise(runs, ids, clock, k);
  }

  /** After the sweep every recovered Run has a task that still executes, and no other task is new. */
  lemma {:induction false} SweptTasksAreExact(tasks: map<string, Task>, runs: map<string, RunDir>, ids: seq<string>,
                                              clock: nat -> Instant, k: nat, r: string)
    requires k <= |ids|
    ensures (exists i | 0 <= i < k :: ids[i] == r && ActiveInSweep(runs, ids, clock, i)) ==>
              Busy(SweptTasks(tasks, runs, ids, clock, k), r)
    ensures (!(exists i | 0 <= i < k :: ids[i] == r && ActiveInSweep(runs, ids, clock, i)) || Busy(tasks, r)) ==>
              && (r in SweptTasks(tasks, runs, ids, clock, k) <==> r in tasks)
              && (r in tasks ==> SweptTasks(tasks, runs, ids, clock, k)[r] == tasks[r])
    ensures (exists i | 0 <= i < k :: ids[i] == r && ActiveInSweep(runs, ids, clock, i)) && !Busy(tasks, r) ==>
              SweptTasks(tasks, runs, ids, clock, k)[r] == Task(Execute, false, false)
  {
    if k > 0 {
      SweptTasksAreExact(tasks, runs, ids, clock, k - 1, r);
    }
  }

  ghost function Below(p: nat -> bool, k: nat): set<nat> {
    set i: nat | i < k && p(i)
  }

  lemma BelowGrows(p: nat -> bool, k: nat)
    ensures |Below(p, k + 1)| == |Below(p, k)| + if p(k) then 1 else 0
  {
    assert Below(p, k + 1) == Below(p, k) + if p(k) then {k} else {};
  }

  /** Which rounds of the sweep schedule their Run. */
  function Schedules(runs: map<string, RunDir>, ids: seq<string>, clock: nat -> Instant): nat -> bool {
    (i: nat) => i < |ids| && ActiveInSweep(runs, ids, clock, i)
  }

  /** The count of a recovery is the number of Runs it scheduled. */
  lemma {:induction false} SweptCountExact(
    runs: map<string, RunDir>, ids: seq<string>, clock: nat -> Instant, k: nat)
    requires k <= |ids|
    ensures SweptCount(runs, ids, clock, k) == |Below(Schedules(runs, ids, clock), k)|
  {
    if k > 0 {
      SweptCountExact(runs, ids, clock, k - 1);
      BelowGrows(Schedules(runs, ids, clock), k - 1);
    } else {
      assert Below(Schedules(runs, ids, clock), 0) == {};
    }
  }

  lemma SweepOneMore(d: Disk, ids: seq<string>, clock: nat -> Instant, k: nat)
    requires k < |ids| && Distinct(ids)
    ensures var e := d.(runs := SweptRuns(d.runs, ids, clock, k));
      && (Unrefreshable(e, ids[k], clock(k)) <==> Unrefreshable(d, ids[k], clock(k)))
      && (!Unrefreshable(e, ids[k], clock(k)) ==>
            var dir := AfterRefresh(e.runs[ids[k]], clock(k));
            && dir.record.Some?
            && UpdateRun(e, ids[k], dir) == d.(runs := SweptRuns(d.runs, ids, clock, k + 1))
            && (ActiveInSweep(d.runs, ids, clock, k) <==> Active(dir.record.value)))
  {
    SweepIsPointwise(d.runs, ids, clock, k);
  }

  predicate SomeUnrefreshable(d: Disk, ids: seq<string>, clock: nat -> Instant) {
    exists i | 0 <= i < |ids| :: Unrefreshable(d, ids[i], clock(i))
  }

  /** None of the first k Runs stops the sweep. */
  predicate SweepClean(d: Disk, ids: seq<string>, clock: nat -> Instant, k: nat)
    requires k <= |ids|
  {
    k == 0 || (SweepClean(d, ids, clock, k - 1) && !Unrefreshable(d, ids[k - 1], clock(k - 1)))
  }

  lemma {:induction false} SweepCleanIff(d: Disk, ids: seq<string>, clock: nat -> Instant, k: nat)
    requires k <= |ids|
    ensures SweepClean(d, ids, clock, k) <==> forall i | 0 <= i < k :: !Unrefreshable(d, ids[i], clock(i))
  {
    if k > 0 {
      SweepCleanIff(d, ids, clock, k - 1);
    }
  }

  /** The listing of a restart: every Run that has a record, once. */
  ghost predicate Listing(d: Disk, ids: seq<string>) {
    && Distinct(ids)
    && forall r :: r in ids <==> r in d.runs && d.runs[r].record.Some?
  }

  /** Disk and tasks after the first k listed Runs, and no more, were dealt with. */
  ghost predicate SweptTo(d: Disk, tasks: map<string, Task>, ids: seq<string>, clock: nat -> Instant, k: nat,
                          e: Disk, after: map<string, Task>)
    requires k <= |ids|
  {
    && SweepClean(d, ids, clock, k)
    && e == d.(runs := SweptRuns(d.runs, ids, clock, k))
    && after == SweptTasks(tasks, d.runs, ids, clock, k)
  }

  /** A restart that died while it refreshed the k-th Run: a part of the writes of that expiry landed. */
  ghost predicate DiedAt(d: Disk, tasks: map<string, Task>, ids: seq<string>, clock: nat -> Instant, k: nat,
                         e: Disk, after: map<string, Task>)
    requires k < |ids|
  {
    var swept := d.(runs := SweptRuns(d.runs, ids, clock, k));
    && SweptTo(d, tasks, ids, clock, k, swept, after)
    && exists survived: nat :: e == ApplyAll(swept, Cut(ExpirePlan(swept, ids[k], clock(k)).writes, survived))
  }

  /**
   A failure recorded after the deadline stops every later restart: the Run is listed and its record
   does not load, whatever happens in between.
   */
  lemma LateFailureAbortsRecovery(d: Disk, runId: string, code: string, now: Instant, later: Instant,
                                  history: seq<Step>, ids: seq<string>, clock: nat -> Instant)
    requires Inv(d) && Live(d, runId) && d.runs[runId].log.Some?
    requires Load(d, runId).value.expiresAt < now
    requires Listing(After(ApplyAll(d, FailPlan(d, runId, code, now, later).writes), history), ids)
    ensures SomeUnrefreshable(After(ApplyAll(d, FailPlan(d, runId, code, now, later).writes), history), ids, clock)
  {
    var e := ApplyAll(d, FailPlan(d, runId, code, now, later).writes);
    LateFailureBricksRun(d, runId, code, now, later, history);
    assert runId in ids;
    var i :| 0 <= i < |ids| && ids[i] == runId;
    assert Unrefreshable(After(e, history), ids[i], clock(i));
  }

  class AgentExecutionService {
    const store: AgentRunStore
    var tasks: map<string, Task>

    constructor (store: AgentRunStore)
      ensures this.store == store && tasks == map[]
    {
      this.store := store;
      tasks := map[];
    }

    method Start(runId: string)
      modifies this
      ensures tasks == Started(old(tasks), runId)
    {
      if runId in tasks && !tasks[runId].done {
        return;
      }
      tasks := tasks[runId := Task(Execute, false, false)];
    }

    method Resume(runId: string) returns (ok: bool)
      modifies this
      ensures ok <==> !Busy(old(tasks), runId)
      ensures tasks == if ok then old(tasks)[runId := Task(ResumeApproval, false, false)] else old(tasks)
    {
      if runId in tasks && !tasks[runId].done {
        return false;
      }
      tasks := tasks[runId := Task(ResumeApproval, false, false)];
      return true;
    }

    method Cancel(runId: string, now: Instant) returns (out: Outcome)
      requires store.Valid()
      modifies this, store
      ensures store.Valid()
      ensures store.Performed(old(store.disk), old(store.writesLeft), CancelPlan(old(store.disk), runId, now), out)
      ensures tasks == if Busy(old(tasks), runId)
                       then old(tasks)[runId := old(tasks)[runId].(cancelRequested := true)] else old(tasks)
    {
      if runId in tasks && !tasks[runId].done {
        tasks := tasks[runId := tasks[runId].(cancelRequested := true)];
      }
      out := store.Cancel(runId, now);
    }

    method FailIfRunning(runId: string, code: string, now: Instant, later: Instant) returns (out: Outcome)
      requires store.Valid()
      modifies store
      ensures store.Valid()
      ensures store.Performed(old(store.disk), old(store.writesLeft),
                              FailPlan(old(store.disk), runId, code, now, later), out)
    {
      var record := Load(store.disk, runId);
      if record.None? {
        return Answered(Refused);
      }
      if Terminal(record.value.status) {
        return Answered(Projection(record.value, false));
      }
      ghost var first := AppendPlan(store.disk, runId, RunFailed, code, now);
      ghost var second := (mid: Disk, _: Reply) =>
        TransitionPlan(mid, runId, Status.Failed, later, None, None, Some(code));
      if !first.reply.Refused? {
        Compose(store.disk, first, second, store.writesLeft);
      }
      out := store.AppendEvent(runId, RunFailed, code, now);
      if out.Crashed? || out.reply.Refused? {
        return;
      }
      out := store.Transition(runId, Status.Failed, later, None, None, Some(code));
    }

    /**
     Restart: every listed Run is refreshed at its own reading of the clock and scheduled when it is
     then active.  Recovery is abandoned exactly when one of them cannot be refreshed: before anything
     is done when a record does not load, and else behind the Runs before the first such one.
     */
    method Recover(ids: seq<string>, clock: nat -> Instant) returns (out: Recovery, ghost reached: nat)
      requires store.Valid() && Listing(store.disk, ids)
      modifies this, store
      ensures store.Valid() && reached <= |ids|
      ensures !out.Died? ==> (out.Aborted? <==> SomeUnrefreshable(old(store.disk), ids, clock))
      ensures out.Completed? ==>
        && reached == |ids|
        && SweptTo(old(store.disk), old(tasks), ids, clock, reached, store.disk, tasks)
        && out.count == SweptCount(old(store.disk).runs, ids, clock, reached)
      ensures out.Aborted? ==>
        if exists i :: 0 <= i < |ids| && Load(old(store.disk), ids[i]).None?
        then store.disk == old(store.disk) && tasks == old(tasks)
        else
          && reached < |ids| && Unrefreshable(old(store.disk), ids[reached], clock(reached))
          && SweptTo(old(store.disk), old(tasks), ids, clock, reached, store.disk, tasks)
      ensures out.Died? ==>
        && store.writesLeft == 0 && reached < |ids|
        && DiedAt(old(store.disk), old(tasks), ids, clock, reached, store.disk, tasks)
    {
      reached := 0;
      var bad := FirstUnloadable(ids);
      if bad < |ids| {
        assert Unrefreshable(store.disk, ids[bad], clock(bad));
        return Aborted, 0;
      }
      SweepCleanIff(store.disk, ids, clock, |ids|);
      out, reached := RefreshAll(ids, clock);
    }

    method RefreshAll(ids: seq<string>, clock: nat -> Instant) returns (out: Recovery, ghost reached: nat)
      requires store.Valid() && Distinct(ids)
      modifies this, store
      ensures store.Valid() && reached <= |ids|
      ensures out.Completed? ==>
        && reached == |ids|
        && SweptTo(old(store.disk), old(tasks), ids, clock, reached, store.disk, tasks)
        && out.count == SweptCount(old(store.disk).runs, ids, clock, reached)
      ensures out.Aborted? ==>
        && reached < |ids| && Unrefreshable(old(store.disk), ids[reached], clock(reached))
        && SweptTo(old(store.disk), old(tasks), ids, clock, reached, store.disk, tasks)
      ensures out.Died? ==>
        && store.writesLeft == 0 && reached < |ids|
        && DiedAt(old(store.disk), old(tasks), ids, clock, reached, store.disk, tasks)
    {
      ghost var before, first := store.disk, tasks;
      var count := 0;
      var k := 0;
      while k < |ids|
        invariant k <= |ids| && store.Valid()
        invariant SweptTo(before, first, ids, clock, k, store.disk, tasks)
        invariant count == SweptCount(before.runs, ids, clock, k)
      {
        ghost var swept := store.disk;
        var outcome;
        outcome, count := RecoverOne(before, ids, clock, k, count);
        if outcome.Crashed? {
          return Died, k;
        }
        if outcome.reply.Refused? {
          return Aborted, k;
        }
        k := k + 1;
      }
      return Completed(count), k;
    }

    /** One round of the recovery loop. */
    method RecoverOne(ghost before: Disk, ids: seq<string>, clock: nat -> Instant, k: nat, count: nat)
      returns (out: Outcome, next: nat)
      requires store.Valid() && k < |ids| && Distinct(ids)
      requires store.disk == before.(runs := SweptRuns(before.runs, ids, clock, k))
      modifies this, store
      ensures store.Valid()
      ensures out.Crashed? ==> store.writesLeft == 0 && tasks == old(tasks)
      ensures out.Crashed? ==>
        && var plan := ExpirePlan(old(store.disk), ids[k], clock(k));
           store.disk == ApplyAll(old(store.disk), Cut(plan.writes, old(store.writesLeft)))
      ensures out.Answered? ==> (out.reply.Refused? <==> Unrefreshable(before, ids[k], clock(k)))
      ensures out.Answered? && out.reply.Refused? ==> store.disk == old(store.disk) && tasks == old(tasks)
      ensures out.Answered? && !out.reply.Refused? ==>
        && store.disk == before.(runs := SweptRuns(before.runs, ids, clock, k + 1))
        && tasks == (if ActiveInSweep(before.runs, ids, clock, k) then Started(old(tasks), ids[k]) else old(tasks))
        && next == count + if ActiveInSweep(before.runs, ids, clock, k) then 1 else 0
    {
      next := count;
      SweepOneMore(before, ids, clock, k);
      out := Refresh(ids[k], clock(k));
      if out.Answered? && !out.reply.Refused? && Active(out.reply.record) {
        Start(ids[k]);
        next := count + 1;
      }
    }

    /** Listing the records fails as soon as one of them does not load. */
    method FirstUnloadable(ids: seq<string>) returns (k: nat)
      ensures k <= |ids|
      ensures forall i | 0 <= i < k :: Load(store.disk, ids[i]).Some?
      ensures k < |ids| ==> Load(store.disk, ids[k]).None?
    {
      k := 0;
      while k < |ids|
        invariant k <= |ids|
        invariant forall i | 0 <= i < k :: Load(store.disk, ids[i]).Some?
      {
        if Load(store.disk, ids[k]).None? {
          return;
        }
        k := k + 1;
      }
    }

    /** Apply what is due before a Run is looked at. */
    method Refresh(runId: string, now: Instant) returns (out: Outcome)
      requires store.Valid()
      modifies store
      ensures store.Valid()
      ensures out.Crashed? ==>
        && store.writesLeft == 0
        && store.disk ==
             ApplyAll(old(store.disk), Cut(ExpirePlan(old(store.disk), runId, now).writes, old(store.writesLeft)))
      ensures out.Answered? ==>
        && (out.reply.Refused? <==> Unrefreshable(old(store.disk), runId, now))
        && (out.reply.Refused? ==> store.disk == old(store.disk))
        && (!out.reply.Refused? ==>
              && store.disk == UpdateRun(old(store.disk), runId, AfterRefresh(old(store.disk).runs[runId], now))
              && out.reply == Projection(store.disk.runs[runId].record.value, Due(old(store.disk).runs[runId], now)))
    {
      ghost var plan := ExpirePlan(store.disk, runId, now);
      ghost var left := store.writesLeft;
      ExpiryOutcome(store.disk, runId, now);
      out := store.ExpireIfDue(runId, now);
      if out.Answered? {
        assert Cut(plan.writes, left) == plan.writes;
      }
    }

    /** What the approval endpoint does to the store: the whole plan of a POST. */
    method StoreDecision(runId: string, id: string, verdict: Verdict, key: string, now: Instant, later: Instant)
      returns (out: Outcome)
      requires store.Valid()
      modifies store
      ensures store.Valid()
      ensures store.Performed(old(store.disk), old(store.writesLeft),
                              PostPlan(old(store.disk), runId, id, verdict, key, now, later), out)
    {
      var existing := StoredApproval(store.disk, runId, id);
      if existing.Some? {
        if existing.value.verdict != verdict || existing.value.idempotencyKey != key {
          return Answered(Refused);
        }
        out := store.ExpireIfDue(runId, now);
        return;
      }
      ghost var first := ExpirePlan(store.disk, runId, now);
      ghost var second := (mid: Disk, reply: Reply) =>
        if !reply.Projection? || reply.record.pendingToolCall.None? then REFUSE
        else DecidePlan(mid, runId,
               Decision(id, Sha256(reply.record.pendingToolCall.value), verdict, key, later));
      if !first.reply.Refused? {
        Compose(store.disk, first, second, store.writesLeft);
      }
      out := store.ExpireIfDue(runId, now);
      if out.Crashed? || out.reply.Refused? {
        return;
      }
      if !out.reply.Projection? || out.reply.record.pendingToolCall.None? {
        return Answered(Refused);
      }
      var decision := Decision(id, Sha256(out.reply.record.pendingToolCall.value), verdict, key, later);
      out := store.DecideApproval(runId, decision);
    }

    /**
     The approval endpoint.  The store performs the plan of the POST, and `stored` is what it answers.
     A task is made exactly when this call stored the decision and no task of the Run was executing;
     when one was, the decision stays stored and the client is refused all the same.
     */
    method PostApproval(runId: string, id: string, verdict: Verdict, key: string, now: Instant, later: Instant)
      returns (out: Outcome, ghost stored: Outcome)
      requires store.Valid()
      modifies this, store
      ensures store.Valid()
      ensures store.Performed(old(store.disk), old(store.writesLeft),
                              PostPlan(old(store.disk), runId, id, verdict, key, now, later), stored)
      ensures out == if stored == Answered(Decided(true)) && Busy(old(tasks), runId) then Answered(Refused) else stored
      ensures tasks ==
        if stored == Answered(Decided(true)) && !Busy(old(tasks), runId)
        then old(tasks)[runId := Task(ResumeApproval, false, false)] else old(tasks)
    {
      out := StoreDecision(runId, id, verdict, key, now, later);
      stored := out;
      if out == Answered(Decided(true)) {
        var ok := Resume(runId);
        if !ok {
          return Answered(Refused), stored;
        }
      }
    }
  }
}
