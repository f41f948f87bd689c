/**
 Server-sent replay of a Run's events.

 A stream is a generator over the log: it reads a batch after its cursor, yields the batch one event
 at a time, refreshes the Run, and stops, sleeps or is dropped.  Between any two of these steps any
 store operation may run, may crash half way, and the client may lose its connection with events
 still in flight and reconnect with the last identifier it received.
 */
module EventStream {
  import opened Wrappers
  import opened AgentSchema
  import opened RunStoreSpec
  import opened RunStoreInvariant
  import opened RunStoreHistory
  import opened RunStoreTheorems
  import opened ExpiryTheorems
  import opened RunStore

  datatype Phase = Streaming | Finished | Dropped

  datatype Stream = Stream(cursor: nat, batch: seq<Event>, phase: Phase)

  datatype Signal = Yielded(event: Event) | Slept | Returned | Raised

  // ----- the steps of the generator -----

  function ReadBatch(d: Disk, runId: string, s: Stream): Stream {
    match EventsAfter(d, runId, s.cursor)
    case None => s.(phase := Dropped)
    case Some(es) => s.(batch := es)
  }

  function YieldNext(s: Stream): Stream
    requires s.batch != []
  {
    s.(cursor := s.batch[0].sequence, batch := s.batch[1..])
  }

  /** What the stream does with the answer of refresh; None is a refresh that raised. */
  function Judge(s: Stream, refreshed: Option<Record>, disconnected: bool): Stream {
    match refreshed
    case None => s.(phase := Dropped)
    case Some(r) =>
      if Terminal(r.status) && s.cursor >= r.lastEventSequence then s.(phase := Finished)
      else if disconnected then s.(phase := Dropped)
      else s
  }

  function Refreshed(reply: Reply): Option<Record> {
    if reply.Projection? then Some(reply.record) else None
  }

  predicate HasLog(d: Disk, runId: string) {
    runId in d.runs && d.runs[runId].log.Some?
  }

  /** The process lives to make every write of a refresh, if there is any. */
  predicate CanRefresh(d: Disk, writesLeft: nat, runId: string, now: Instant) {
    writesLeft >= 3 || !(runId in d.runs && Due(d.runs[runId], now))
  }

  /**
   The outcome of a refresh by a stream that has nothing left to yield.  It raises when the Run cannot
   be refreshed, returns when the refreshed Run is closed and its cursor was reached, else returns to a
   client that is gone, and else sleeps where it is.
   */
  ghost predicate Settled(d: Disk, runId: string, s: Stream, now: Instant, disconnected: bool,
                          e: Disk, t: Stream, signal: Signal)
  {
    if Unrefreshable(d, runId, now) then e == d && signal.Raised? && t.phase.Dropped?
    else
      var dir := AfterRefresh(d.runs[runId], now);
      var r := dir.record.value;
      && e == UpdateRun(d, runId, dir)
      && (if r.status in {Succeeded, Failed, Cancelled, Expired} && r.lastEventSequence <= s.cursor
          then signal.Returned? && t.phase.Finished?
          else if disconnected then signal.Returned? && t.phase.Dropped?
          else signal.Slept? && t == s)
  }

  /** The generator object itself, advanced from one suspension to the next. */
  class SseStream {
    const store: AgentRunStore
    const runId: string
    var state: Stream
    var asleep: bool

    constructor (store: AgentRunStore, runId: string, lastEventId: nat)
      ensures this.store == store && this.runId == runId
      ensures state == Stream(lastEventId, [], Streaming) && asleep
    {
      this.store := store;
      this.runId := runId;
      state := Stream(lastEventId, [], Streaming);
      asleep := true;
    }

    /**
     Resumes after a yield or a sleep.  A pending batch is continued, a sleeper reads a new batch
     first, and only a stream with nothing left to yield refreshes the Run and judges it.
     */
    method Advance(now: Instant, disconnected: bool) returns (signal: Signal)
      requires store.Valid() && state.phase.Streaming?
      modifies this, store
      ensures store.Valid()
      ensures var woken := if old(asleep) && old(state.batch) == []
                then ReadBatch(old(store.disk), runId, old(state)) else old(state);
              var plan := ExpirePlan(old(store.disk), runId, now);
              if woken.phase.Dropped? then
                signal == Raised && state == woken && store.disk == old(store.disk)
              else if woken.batch != [] then
                signal == Yielded(woken.batch[0]) && state == YieldNext(woken) && !asleep
                && store.disk == old(store.disk)
              else if old(store.writesLeft) < |plan.writes| then
                signal == Raised && state.phase.Dropped?
                && store.disk == ApplyAll(old(store.disk), Cut(plan.writes, old(store.writesLeft)))
              else
                && store.disk == ApplyAll(old(store.disk), plan.writes)
                && state == Judge(woken, Refreshed(plan.reply), disconnected)
                && (signal.Returned? <==> state.phase != Streaming && plan.reply.Projection?)
                && (signal.Slept? <==> state.phase == Streaming && asleep)
      ensures old(state.batch) != [] ==>
                && signal == Yielded(old(state.batch)[0]) && !asleep && store.disk == old(store.disk)
                && state == Stream(old(state.batch)[0].sequence, old(state.batch)[1..], Streaming)
      ensures old(asleep) && old(state.batch) == [] && !HasLog(old(store.disk), runId) ==>
                signal.Raised? && state.phase.Dropped? && store.disk == old(store.disk)
      ensures old(asleep) && old(state.batch) == [] && HasLog(old(store.disk), runId) ==>
                var log, k := old(store.disk).runs[runId].log.value, old(state).cursor;
                k < |log| ==>
                  && signal == Yielded(log[k]) && !asleep && store.disk == old(store.disk)
                  && state == Stream(k + 1, log[k + 1..], Streaming)
      ensures old(state.batch) == [] && CanRefresh(old(store.disk), old(store.writesLeft), runId, now) ==>
                (old(asleep) ==> HasLog(old(store.disk), runId)
                                 && |old(store.disk).runs[runId].log.value| <= old(state).cursor) ==>
                Settled(old(store.disk), runId, old(state), now, disconnected, store.disk, state, signal)
    {
      ReplayIsSuffix(store.disk, runId, state.cursor);
      ExpiryOutcome(store.disk, runId, now);
      if asleep && state.batch == [] {
        state := ReadBatch(store.disk, runId, state);
        if state.phase.Dropped? {
          return Raised;
        }
      }
      asleep := false;
      if state.batch != [] {
        var event := state.batch[0];
        state := YieldNext(state);
        return Yielded(event);
      }
      ghost var plan := ExpirePlan(store.disk, runId, now);
      var out := store.ExpireIfDue(runId, now);
      if out.Crashed? {
        state := state.(phase := Dropped);
        return Raised;
      }
      assert Cut(plan.writes, old(store.writesLeft)) == plan.writes;
      state := Judge(state, Refreshed(out.reply), disconnected);
      if state.phase.Streaming? {
        asleep := true;
        return Slept;
      }
      return if out.reply.Projection? then Returned else Raised;
    }
  }

  // ----- the client, the wire and everybody else -----

  datatype System = System(
    disk: Disk,
    runId: string,
    start: nat,               // the Last-Event-ID of the first connection
    received: seq<Event>,     // what the client holds
    channel: seq<Event>,      // yielded, not yet received
    stream: Stream)

  datatype Act =
    | Work(step: Step)        // any store operation by anyone, cut anywhere
    | Read | Yield | Check(now: Instant, disconnected: bool)
    | Deliver
    | Lose                    // the connection breaks with the channel undelivered
    | Reconnect

  function Checked(s: System, refresh: Plan, disconnected: bool): System {
    s.(disk := ApplyAll(s.disk, refresh.writes),
       stream := Judge(s.stream, Refreshed(refresh.reply), disconnected))
  }

  ghost function Next(s: System, a: Act): System {
    match a
    case Work(step) => s.(disk := ApplyAll(s.disk, Landed(s.disk, step)))
    case Read =>
      if s.stream.phase.Streaming? && s.stream.batch == []
      then s.(stream := ReadBatch(s.disk, s.runId, s.stream)) else s
    case Yield =>
      if s.stream.phase.Streaming? && s.stream.batch != []
      then s.(stream := YieldNext(s.stream), channel := s.channel + [s.stream.batch[0]]) else s
    case Check(now, disconnected) =>
      if s.stream.phase.Streaming? && s.stream.batch == []
      then Checked(s, ExpirePlan(s.disk, s.runId, now), disconnected) else s
    case Deliver =>
      if s.channel == [] then s
      else s.(received := s.received + [s.channel[0]], channel := s.channel[1..])
    case Lose =>
      s.(channel := [], stream := Stream(0, [], Dropped))
    case Reconnect =>
      if !s.stream.phase.Dropped? then s
      else s.(channel := [], stream := Stream(LastReceived(s), [], Streaming))
  }

  function LastReceived(s: System): nat {
    if s.received == [] then s.start else s.received[|s.received| - 1].sequence
  }

  ghost function Run(s: System, acts: seq<Act>): System
    decreases |acts|
  {
    if acts == [] then s else Run(Next(s, acts[0]), acts[1..])
  }

  function Position(s: System): nat {
    s.start + |s.received| + |s.channel|
  }

  function LogOf(d: Disk, runId: string): seq<Event> {
    if runId in d.runs && d.runs[runId].log.Some? then d.runs[runId].log.value else []
  }

  /** Received, in flight and still to be yielded are one stretch of the log, from start on. */
  predicate Window(log: seq<Event>, s: System) {
    && s.start <= |log|
    && Position(s) + |s.stream.batch| <= |log|
    && s.received + s.channel + s.stream.batch == log[s.start..Position(s) + |s.stream.batch|]
    && (s.stream.phase.Streaming? ==> s.stream.cursor == Position(s))
    && (!s.stream.phase.Streaming? ==> s.stream.batch == [])
  }

  /** A finished stream has reached the cursor of a terminal record. */
  predicate Complete(s: System) {
    s.stream.phase.Finished? ==>
      && s.runId in s.disk.runs && s.disk.runs[s.runId].record.Some?
      && Terminal(s.disk.runs[s.runId].record.value.status)
      && Position(s) >= s.disk.runs[s.runId].record.value.lastEventSequence
  }

  ghost predicate StreamOk(s: System) {
    Inv(s.disk) && Window(LogOf(s.disk, s.runId), s) && Complete(s)
  }

  lemma LogIsGapless(d: Disk, runId: string)
    requires Inv(d)
    ensures Gapless(LogOf(d, runId))
  {
    if runId in d.runs {
      assert RunOk(runId, d.runs[runId]);
    }
  }

  lemma LogGrows(d: Disk, e: Disk, runId: string)
    requires Grows(d, e)
    ensures LogOf(d, runId) <= LogOf(e, runId)
  {
    if runId in d.runs {
      assert RunGrows(d.runs[runId], e.runs[runId]);
    }
  }

  lemma GrowthKeepsStream(s: System, e: Disk)
    requires StreamOk(s) && Inv(e) && Grows(s.disk, e)
    ensures StreamOk(s.(disk := e))
  {
    LogGrows(s.disk, e, s.runId);
    if s.runId in s.disk.runs {
      assert RunGrows(s.disk.runs[s.runId], e.runs[s.runId]);
    }
    var upto := Position(s) + |s.stream.batch|;
    assert LogOf(e, s.runId)[s.start..upto] == LogOf(s.disk, s.runId)[s.start..upto];
  }

  lemma WorkKeepsStream(s: System, step: Step)
    requires StreamOk(s)
    ensures StreamOk(s.(disk := ApplyAll(s.disk, Landed(s.disk, step))))
  {
    HistoryIsLegal(s.disk, [step]);
    HistoryGrows(s.disk, [step]);
    CrashTrace(s.disk, step);
    GrowthKeepsStream(s, ApplyAll(s.disk, Landed(s.disk, step)));
  }

  lemma ReadKeepsStream(s: System)
    requires StreamOk(s) && s.stream.phase.Streaming? && s.stream.batch == []
    ensures StreamOk(s.(stream := ReadBatch(s.disk, s.runId, s.stream)))
  {
    if EventsAfter(s.disk, s.runId, s.stream.cursor).Some? {
      ReplayIsSuffix(s.disk, s.runId, s.stream.cursor);
      BatchExtendsWindow(LogOf(s.disk, s.runId), s);
    }
  }

  lemma BatchExtendsWindow(log: seq<Event>, s: System)
    requires Window(log, s) && s.stream.phase.Streaming? && s.stream.batch == []
    ensures Window(log, s.(stream := s.stream.(batch := log[Position(s)..])))
  {
    assert s.received + s.channel == s.received + s.channel + s.stream.batch;
    assert log[s.start..] == log[s.start..Position(s)] + log[Position(s)..];
  }

  lemma YieldKeepsStream(s: System)
    requires StreamOk(s) && s.stream.phase.Streaming? && s.stream.batch != []
    ensures StreamOk(s.(stream := YieldNext(s.stream), channel := s.channel + [s.stream.batch[0]]))
  {
    LogIsGapless(s.disk, s.runId);
    YieldKeepsWindow(LogOf(s.disk, s.runId), s);
  }

  lemma YieldKeepsWindow(log: seq<Event>, s: System)
    requires Window(log, s) && Gapless(log) && s.stream.phase.Streaming? && s.stream.batch != []
    ensures Window(log, s.(stream := YieldNext(s.stream), channel := s.channel + [s.stream.batch[0]]))
  {
    var whole := s.received + s.channel + s.stream.batch;
    assert whole[|s.received| + |s.channel|] == s.stream.batch[0] == log[Position(s)];
    assert s.received + (s.channel + [s.stream.batch[0]]) + s.stream.batch[1..] == whole;
  }

  lemma CheckKeepsStream(s: System, now: Instant, disconnected: bool)
    requires StreamOk(s) && s.stream.phase.Streaming? && s.stream.batch == []
    ensures StreamOk(Checked(s, ExpirePlan(s.disk, s.runId, now), disconnected))
  {
    RefreshKeepsStream(s, now);
    JudgedStream(s, ExpirePlan(s.disk, s.runId, now), disconnected);
  }

  lemma JudgedStream(s: System, plan: Plan, disconnected: bool)
    requires s.stream.phase.Streaming? && s.stream.batch == []
    requires var e := ApplyAll(s.disk, plan.writes);
             && StreamOk(s.(disk := e))
             && (plan.reply.Projection? ==>
                   s.runId in e.runs && e.runs[s.runId].record == Some(plan.reply.record))
    ensures StreamOk(Checked(s, plan, disconnected))
  {
    JudgeKeepsStream(s.(disk := ApplyAll(s.disk, plan.writes)), Refreshed(plan.reply), disconnected);
  }

  lemma RefreshKeepsStream(s: System, now: Instant)
    requires StreamOk(s)
    ensures var plan := ExpirePlan(s.disk, s.runId, now);
            var e := ApplyAll(s.disk, plan.writes);
            && StreamOk(s.(disk := e))
            && (plan.reply.Projection? ==>
                  s.runId in e.runs && e.runs[s.runId].record == Some(plan.reply.record))
  {
    var plan := ExpirePlan(s.disk, s.runId, now);
    var step := Step(Expire(s.runId, now), |plan.writes|);
    assert Landed(s.disk, step) == plan.writes;
    WorkKeepsStream(s, step);
    ExpiryOutcome(s.disk, s.runId, now);
  }

  lemma JudgeKeepsStream(s: System, refreshed: Option<Record>, disconnected: bool)
    requires StreamOk(s) && s.stream.phase.Streaming? && s.stream.batch == []
    requires refreshed.Some? ==> s.runId in s.disk.runs && s.disk.runs[s.runId].record == refreshed
    ensures StreamOk(s.(stream := Judge(s.stream, refreshed, disconnected)))
  {
  }

  lemma DeliverKeepsStream(s: System)
    requires StreamOk(s) && s.channel != []
    ensures StreamOk(s.(received := s.received + [s.channel[0]], channel := s.channel[1..]))
  {
    DeliverKeepsWindow(LogOf(s.disk, s.runId), s);
  }

  lemma CutKeepsStream(s: System)
    requires StreamOk(s)
    ensures StreamOk(s.(channel := [], stream := Stream(0, [], Dropped)))
    ensures StreamOk(s.(channel := [], stream := Stream(LastReceived(s), [], Streaming)))
  {
    LogIsGapless(s.disk, s.runId);
    CutKeepsWindow(LogOf(s.disk, s.runId), s);
  }

  lemma DeliverKeepsWindow(log: seq<Event>, s: System)
    requires Window(log, s) && s.channel != []
    ensures Window(log, s.(received := s.received + [s.channel[0]], channel := s.channel[1..]))
  {
    assert s.received + [s.channel[0]] + s.channel[1..] + s.stream.batch
        == s.received + s.channel + s.stream.batch;
  }

  /** Dropping what is in flight and starting over after the last received event. */
  lemma CutKeepsWindow(log: seq<Event>, s: System)
    requires Window(log, s) && Gapless(log)
    ensures Window(log, s.(channel := [], stream := Stream(0, [], Dropped)))
    ensures Window(log, s.(channel := [], stream := Stream(LastReceived(s), [], Streaming)))
  {
    var whole := s.received + s.channel + s.stream.batch;
    assert s.received + [] + [] == whole[..|s.received|] == log[s.start..s.start + |s.received|];
    if s.received != [] {
      assert s.received[|s.received| - 1] == log[s.start + |s.received| - 1];
    }
  }

  lemma StepKeepsStream(s: System, a: Act)
    requires StreamOk(s)
    ensures StreamOk(Next(s, a))
  {
    var idle := s.stream.phase.Streaming? && s.stream.batch == [];
    match a {
      case Work(step) => WorkKeepsStream(s, step);
      case Read => if idle { ReadKeepsStream(s); }
      case Yield => if s.stream.phase.Streaming? && !idle { YieldKeepsStream(s); }
      case Check(now, disconnected) => if idle { CheckKeepsStream(s, now, disconnected); }
      case Deliver => if s.channel != [] { DeliverKeepsStream(s); }
      case Lose => CutKeepsStream(s);
      case Reconnect => CutKeepsStream(s);
    }
  }

  lemma {:induction false} EveryScheduleKeepsStream(s: System, acts: seq<Act>)
    requires StreamOk(s)
    ensures StreamOk(Run(s, acts))
    decreases |acts|
  {
    if acts != [] {
      StepKeepsStream(s, acts[0]);
      EveryScheduleKeepsStream(Next(s, acts[0]), acts[1..]);
    }
  }

  ghost predicate Opening(s: System) {
    && Inv(s.disk)
    && s.start <= |LogOf(s.disk, s.runId)|
    && s.received == [] && s.channel == []
    && s.stream == Stream(s.start, [], Streaming)
  }

  /**
   From a Last-Event-ID the server has issued, under every interleaving with writers, crashes, lost
   connections and reconnections, the client holds one contiguous stretch of the log: no gap, no
   repeat, and nothing that is not in the log.
   */
  lemma ClientHoldsContiguousEvents(s: System, acts: seq<Act>)
    requires Opening(s)
    ensures var e := Run(s, acts);
            var log := LogOf(e.disk, e.runId);
            && e.start == s.start && e.runId == s.runId
            && e.start + |e.received| <= |log|
            && e.received == log[e.start..e.start + |e.received|]
            && forall i | 0 <= i < |e.received| :: e.received[i].sequence == e.start + i + 1
  {
    EveryScheduleKeepsStream(s, acts);
    RunFixesIdentity(s, acts);
    var e := Run(s, acts);
    var log := LogOf(e.disk, e.runId);
    var whole := e.received + e.channel + e.stream.batch;
    assert e.received == whole[..|e.received|] == log[e.start..e.start + |e.received|];
    if e.received != [] {
      assert RunOk(e.runId, e.disk.runs[e.runId]);
    }
  }

  lemma {:induction false} RunFixesIdentity(s: System, acts: seq<Act>)
    ensures Run(s, acts).start == s.start && Run(s, acts).runId == s.runId
    decreases |acts|
  {
    if acts != [] {
      RunFixesIdentity(Next(s, acts[0]), acts[1..]);
    }
  }

  lemma {:induction false} RunGrowsDisk(s: System, acts: seq<Act>)
    requires Inv(s.disk)
    ensures Grows(s.disk, Run(s, acts).disk)
    decreases |acts|
  {
    if acts != [] {
      var n := Next(s, acts[0]);
      var step := match acts[0]
        case Work(step) => step
        case Check(now, _) => Step(Expire(s.runId, now), |ExpirePlan(s.disk, s.runId, now).writes|)
        case _ => Step(Maintain("", Unreadable), 0);
      HistoryIsLegal(s.disk, [step]);
      HistoryGrows(s.disk, [step]);
      CrashTrace(s.disk, step);
      assert n.disk == ApplyAll(s.disk, Landed(s.disk, step)) || n.disk == s.disk;
      GrowsReflexive(s.disk);
      RunGrowsDisk(n, acts[1..]);
      GrowsTransitive(s.disk, n.disk, Run(n, acts[1..]).disk);
    } else {
      GrowsReflexive(s.disk);
    }
  }

  lemma GrowsReflexive(d: Disk)
    ensures Grows(d, d)
  {
    forall r | r in d.runs ensures RunGrows(d.runs[r], d.runs[r]) {
    }
  }

  lemma {:induction false} RunConcat(s: System, a: seq<Act>, b: seq<Act>)
    ensures Run(s, a + b) == Run(Run(s, a), b)
    decreases |a|
  {
    if a == [] {
      assert a + b == b;
    } else {
      assert (a + b)[1..] == a[1..] + b;
      RunConcat(Next(s, a[0]), a[1..], b);
    }
  }

  /** The cursor of the record already covers the event, so the append that wrote it has returned. */
  ghost predicate AcknowledgedEvent(d: Disk, runId: string, event: Event) {
    && runId in d.runs && d.runs[runId].record.Some?
    && 1 <= event.sequence <= |LogOf(d, runId)|
    && event.sequence <= d.runs[runId].record.value.lastEventSequence
    && LogOf(d, runId)[event.sequence - 1] == event
  }

  lemma AppendAcknowledges(d: Disk, runId: string, kind: EventKind, data: string, now: Instant)
    requires Inv(d) && AppendPlan(d, runId, kind, data, now).reply.Appended?
    ensures var plan := AppendPlan(d, runId, kind, data, now);
            AcknowledgedEvent(ApplyAll(d, plan.writes), runId, plan.reply.event)
  {
    AcknowledgedAppend(d, runId, kind, data, now);
  }

  /**
   A stream that stopped because the Run is terminal has yielded every event whose append was
   acknowledged at any moment of the schedule: it is behind the first Last-Event-ID, or the client
   has it, or it is on the wire.
   */
  lemma FinishedStreamMissesNothing(s: System, before: seq<Act>, after: seq<Act>, event: Event)
    requires Opening(s)
    requires AcknowledgedEvent(Run(s, before).disk, s.runId, event)
    requires Run(s, before + after).stream.phase.Finished?
    ensures event.sequence <= s.start
         || event in Run(s, before + after).received + Run(s, before + after).channel
  {
    var m := Run(s, before);
    EveryScheduleKeepsStream(s, before);
    RunFixesIdentity(s, before);
    RunConcat(s, before, after);
    var e := Run(m, after);
    EveryScheduleKeepsStream(m, after);
    RunFixesIdentity(m, after);
    RunGrowsDisk(m, after);
    assert RunGrows(m.disk.runs[s.runId], e.disk.runs[s.runId]);
    LogGrows(m.disk, e.disk, s.runId);
    if event.sequence > s.start {
      FinishedHolds(e, event);
    }
  }

  lemma FinishedHolds(e: System, event: Event)
    requires StreamOk(e) && e.stream.phase.Finished?
    requires AcknowledgedEvent(e.disk, e.runId, event) && event.sequence > e.start
    ensures event in e.received + e.channel
  {
    var log := LogOf(e.disk, e.runId);
    var held := e.received + e.channel;
    assert held + e.stream.batch == held;
    assert held == log[e.start..Position(e)];
    assert held[event.sequence - 1 - e.start] == log[event.sequence - 1];
  }
}
