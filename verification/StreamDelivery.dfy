/**
 Streams deliver.  A client that is left alone drains the log, whatever happened before; and a stream
 with nothing left to yield ends, goes away or waits exactly as the refreshed Run tells it.
 */
module StreamDelivery {
  import opened Wrappers
  import opened AgentSchema
  import opened RunStoreSpec
  import opened RunStoreInvariant
  import opened RunStoreHistory
  import opened ExpiryTheorems
  import opened EventStream

  /** k events yielded and delivered one after the other. */
  function Drain(k: nat): seq<Act> {
    if k == 0 then [] else [Yield, Deliver] + Drain(k - 1)
  }

  lemma TwoActs(s: System, a: Act, b: Act, rest: seq<Act>)
    ensures Run(s, [a, b] + rest) == Run(Next(Next(s, a), b), rest)
  {
    var acts := [a, b] + rest;
    assert acts[1..][0] == b && acts[1..][1..] == rest;
  }

  lemma OneDelivered(s: System, rest: seq<Act>)
    requires s.stream.phase.Streaming? && s.stream.batch != [] && s.channel == []
    ensures Run(s, [Yield, Deliver] + rest)
            == Run(s.(stream := YieldNext(s.stream), received := s.received + [s.stream.batch[0]]), rest)
  {
    var event := s.stream.batch[0];
    TwoActs(s, Yield, Deliver, rest);
    assert s.channel + [event] == [event] && [event][1..] == s.channel;
  }

  lemma {:induction false} DrainDelivers(s: System)
    requires s.stream.phase.Streaming? && s.channel == []
    ensures var e := Run(s, Drain(|s.stream.batch|));
            && e.received == s.received + s.stream.batch && e.channel == []
            && e.stream.batch == [] && e.stream.phase.Streaming?
            && e.disk == s.disk && e.start == s.start && e.runId == s.runId
    decreases |s.stream.batch|
  {
    var k := |s.stream.batch|;
    if k > 0 {
      var n := s.(stream := YieldNext(s.stream), received := s.received + [s.stream.batch[0]]);
      OneDelivered(s, Drain(k - 1));
      DrainDelivers(n);
      assert s.received + [s.stream.batch[0]] + s.stream.batch[1..] == s.received + s.stream.batch;
    }
  }

  /** A stream at rest reads what is new, and its client gets it. */
  lemma ReadThenDrain(s: System)
    requires StreamOk(s) && s.stream.phase.Streaming? && s.stream.batch == [] && s.channel == []
    requires HasLog(s.disk, s.runId)
    ensures var log := LogOf(s.disk, s.runId);
            var e := Run(s, [Read] + Drain(|log| - Position(s)));
            && e.received == log[s.start..] && e.channel == []
            && e.stream.batch == [] && e.stream.phase.Streaming?
            && e.disk == s.disk && e.start == s.start && e.runId == s.runId
  {
    var log := LogOf(s.disk, s.runId);
    var n := Next(s, Read);
    ReplayIsSuffix(s.disk, s.runId, s.stream.cursor);
    assert n.stream.batch == log[Position(s)..];
    assert ([Read] + Drain(|log| - Position(s)))[1..] == Drain(|log| - Position(s));
    DrainDelivers(n);
    assert s.received + s.channel + s.stream.batch == s.received;
    assert log[s.start..Position(s)] + log[Position(s)..] == log[s.start..];
  }

  /** A new client that nobody disturbs gets everything behind its Last-Event-ID. */
  lemma UndisturbedClientDrains(s: System)
    requires Opening(s) && HasLog(s.disk, s.runId)
    ensures var log := LogOf(s.disk, s.runId);
            Run(s, [Read] + Drain(|log| - s.start)).received == log[s.start..]
  {
    assert [] + [] + [] == LogOf(s.disk, s.runId)[s.start..s.start];
    ReadThenDrain(s);
  }

  /** Losing the connection and reconnecting leaves a stream at rest behind what was received. */
  lemma ReconnectedIsIdle(s: System)
    requires StreamOk(s)
    ensures var n := Next(Next(s, Lose), Reconnect);
            && StreamOk(n) && n.stream.phase.Streaming? && n.stream.batch == [] && n.channel == []
            && n.received == s.received && n.disk == s.disk && n.start == s.start && n.runId == s.runId
  {
    CutKeepsStream(s);
    CutKeepsStream(Next(s, Lose));
  }

  /** What brings a client up to date with a log of the given length. */
  function CatchUp(s: System, length: nat): seq<Act> {
    [Lose, Reconnect] + ([Read] + Drain(Max(0, length - s.start - |s.received|)))
  }

  lemma ReadAfter(s: System, rest: nat)
    requires StreamOk(s) && s.stream.phase.Streaming? && s.stream.batch == [] && s.channel == []
    requires HasLog(s.disk, s.runId) && rest == Max(0, |LogOf(s.disk, s.runId)| - s.start - |s.received|)
    ensures Run(s, [Read] + Drain(rest)).received == LogOf(s.disk, s.runId)[s.start..]
  {
    assert rest == |LogOf(s.disk, s.runId)| - Position(s);
    ReadThenDrain(s);
  }

  lemma OneClientCatchesUp(s: System)
    requires StreamOk(s) && HasLog(s.disk, s.runId)
    ensures var log := LogOf(s.disk, s.runId);
            Run(s, CatchUp(s, |log|)).received == log[s.start..]
  {
    var log := LogOf(s.disk, s.runId);
    var rest := Max(0, |log| - s.start - |s.received|);
    ReconnectedIsIdle(s);
    ReadAfter(Next(Next(s, Lose), Reconnect), rest);
    TwoActs(s, Lose, Reconnect, [Read] + Drain(rest));
  }

  /**
   At any moment of any schedule a client that reconnects, and is then left alone, ends up with the
   whole log behind its first Last-Event-ID, as it is at that moment.
   */
  lemma EveryClientCatchesUp(s: System, acts: seq<Act>)
    requires Opening(s) && HasLog(Run(s, acts).disk, s.runId)
    ensures var m := Run(s, acts);
            var log := LogOf(m.disk, s.runId);
            && s.start <= |log|
            && Run(s, acts + CatchUp(m, |log|)).received == log[s.start..]
  {
    var m := Run(s, acts);
    EveryScheduleKeepsStream(s, acts);
    RunFixesIdentity(s, acts);
    OneClientCatchesUp(m);
    RunConcat(s, acts, CatchUp(m, |LogOf(m.disk, s.runId)|));
  }

  // ----- the end of a stream -----

  /** The check of a stream at rest, from the record after its refresh. */
  lemma CheckSettles(s: System, now: Instant, disconnected: bool)
    requires StreamOk(s) && s.stream.phase.Streaming? && s.stream.batch == []
    ensures var n := Next(s, Check(now, disconnected));
            && n.received == s.received && n.channel == s.channel && n.start == s.start && n.runId == s.runId
            && exists signal :: Settled(s.disk, s.runId, s.stream, now, disconnected, n.disk, n.stream, signal)
  {
    ExpiryOutcome(s.disk, s.runId, now);
    var n := Next(s, Check(now, disconnected));
    var signal :=
      if Unrefreshable(s.disk, s.runId, now) then Raised
      else if n.stream.phase.Streaming? then Slept else Returned;
    assert Settled(s.disk, s.runId, s.stream, now, disconnected, n.disk, n.stream, signal);
  }

  /** On a closed Run the stream of an undisturbed client ends, with everything delivered. */
  lemma UndisturbedClientFinishes(s: System, now: Instant, disconnected: bool)
    requires Opening(s) && HasLog(s.disk, s.runId)
    requires Load(s.disk, s.runId).Some? && Terminal(Load(s.disk, s.runId).value.status)
    ensures var log := LogOf(s.disk, s.runId);
            var e := Run(s, ([Read] + Drain(|log| - s.start)) + [Check(now, disconnected)]);
            e.stream.phase.Finished? && e.received == log[s.start..] && e.disk == s.disk
  {
    var log := LogOf(s.disk, s.runId);
    var acts := [Read] + Drain(|log| - s.start);
    var m := Run(s, acts);
    EveryScheduleKeepsStream(s, acts);
    RunFixesIdentity(s, acts);
    assert [] + [] + [] == log[s.start..s.start];
    ReadThenDrain(s);
    RunConcat(s, acts, [Check(now, disconnected)]);
    var e := Next(m, Check(now, disconnected));
    assert [Check(now, disconnected)][1..] == [];
    assert Run(m, [Check(now, disconnected)]) == e;
    CheckSettles(m, now, disconnected);
    assert RunOk(s.runId, s.disk.runs[s.runId]);
    assert UpdateRun(s.disk, s.runId, s.disk.runs[s.runId]) == s.disk;
  }
}
