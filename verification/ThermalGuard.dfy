/** The guard loop of a training segment: thermal hysteresis over a process group. */
module ThermalGuard {
  import Wrappers

  const PAUSE_TEMPERATURE := 84
  const RESUME_TEMPERATURE := 74

  datatype Signal = Stop | Cont | Term | Kill

  datatype Mark = Paused(temperatures: seq<int>) | Resumed(temperatures: seq<int>)

  /** The locals of the loop, the event log and the signals sent so far. */
  datatype Guard = Guard(paused: bool, pauses: nat, maximum: int, log: seq<Mark>, signals: seq<Signal>)

  const START := Guard(false, 0, 0, [], [])

  function Hottest(temperatures: seq<int>): int
    requires temperatures != []
  {
    if |temperatures| == 1 then temperatures[0]
    else Wrappers.Max(Hottest(temperatures[..|temperatures| - 1]), temperatures[|temperatures| - 1])
  }

  datatype Decision = Hold | Pause | Resume

  function Decide(paused: bool, hottest: int): Decision {
    if !paused && hottest >= PAUSE_TEMPERATURE then Pause
    else if paused && hottest <= RESUME_TEMPERATURE then Resume
    else Hold
  }

  /** One poll of a running segment whose signal, if one is due, arrives. */
  function Observe(g: Guard, temperatures: seq<int>): Guard
    requires temperatures != []
  {
    var seen := g.(maximum := Wrappers.Max(g.maximum, Hottest(temperatures)));
    match Decide(g.paused, Hottest(temperatures))
    case Pause =>
      seen.(paused := true, pauses := g.pauses + 1,
            log := g.log + [Paused(temperatures)], signals := g.signals + [Stop])
    case Resume => seen.(paused := false, log := g.log + [Resumed(temperatures)], signals := g.signals + [Cont])
    case Hold => seen
  }

  /** Continue first, so that a stopped group can act on the termination. */
  function Terminate(g: Guard, late: bool): Guard {
    g.(signals := g.signals + [Cont, Term] + if late then [Kill] else [])
  }

  // ----- whole segments -----

  /** Where a poll that has read its temperatures raises: at its signal, or at the log entry after it. */
  datatype Failure = NoFailure | AtSignal | AtLog

  /** Any other exception, the timeout included, comes before the temperatures are known. */
  datatype Poll = Sample(temperatures: seq<int>, failure: Failure) | Raises

  /** A poll that neither signals nor logs cannot fail at either. */
  predicate Fails(g: Guard, temperatures: seq<int>, failure: Failure)
    requires temperatures != []
  {
    !failure.NoFailure? && !Decide(g.paused, Hottest(temperatures)).Hold?
  }

  /** What a failing poll leaves: nothing but the maximum, or everything but the log entry. */
  function Broken(g: Guard, temperatures: seq<int>, failure: Failure): Guard
    requires temperatures != []
  {
    if failure.AtLog? then Observe(g, temperatures).(log := g.log)
    else g.(maximum := Wrappers.Max(g.maximum, Hottest(temperatures)))
  }

  predicate ValidPolls(polls: seq<Poll>) {
    forall i | 0 <= i < |polls| && polls[i].Sample? :: polls[i].temperatures != []
  }

  datatype Outcome =
    | Finished(guard: Guard)     // the process ended by itself
    | Raised(guard: Guard)       // an exception inside the guarded part
    | Abandoned(guard: Guard)    // the start entry could not be logged; the process runs on
    | Unreported(guard: Guard)   // the process had ended; the finish entry could not be logged

  /** The guarded part; the process ends by itself when the polls are used up. */
  function RunFrom(g: Guard, polls: seq<Poll>, late: bool): Outcome
    requires ValidPolls(polls)
    decreases |polls|
  {
    if polls == [] then Finished(g)
    else match polls[0]
      case Raises => Raised(Terminate(g, late))
      case Sample(temperatures, failure) =>
        if Fails(g, temperatures, failure) then Raised(Terminate(Broken(g, temperatures, failure), late))
        else RunFrom(Observe(g, temperatures), polls[1..], late)
  }

  /** The log entries at the start and at the finish are outside the guarded part. */
  function RunSegment(polls: seq<Poll>, late: bool, startFails: bool, finishFails: bool): Outcome
    requires ValidPolls(polls)
  {
    if startFails then Abandoned(START)
    else
      match RunFrom(START, polls, late)
      case Finished(g) => if finishFails then Unreported(g) else Finished(g)
      case raised => raised
  }

  datatype Exit = Return | Terminated | LeftRunning | NotReported

  class SegmentGuard {
    var paused: bool
    var pauseCount: nat
    var maxTemperature: int
    var eventLog: seq<Mark>
    var signals: seq<Signal>

    constructor ()
      ensures State() == START
    {
      paused, pauseCount, maxTemperature, eventLog, signals := false, 0, 0, [], [];
    }

    function State(): Guard
      reads this
    {
      Guard(paused, pauseCount, maxTemperature, eventLog, signals)
    }

    method TerminateProcessGroup(late: bool)
      modifies this
      ensures State() == Terminate(old(State()), late)
    {
      signals := signals + [Cont];
      signals := signals + [Term];
      if late {
        signals := signals + [Kill];
      }
    }

    method Poll(temperatures: seq<int>, failure: Failure) returns (ok: bool)
      requires temperatures != []
      modifies this
      ensures ok == !Fails(old(State()), temperatures, failure)
      ensures ok ==> State() == Observe(old(State()), temperatures)
      ensures !ok ==> State() == Broken(old(State()), temperatures, failure)
    {
      var hottest := Hottest(temperatures);
      maxTemperature := Wrappers.Max(maxTemperature, hottest);
      if !paused && hottest >= PAUSE_TEMPERATURE {
        if failure.AtSignal? {
          return false;
        }
        signals := signals + [Stop];
        paused := true;
        pauseCount := pauseCount + 1;
        if failure.AtLog? {
          return false;
        }
        eventLog := eventLog + [Paused(temperatures)];
      } else if paused && hottest <= RESUME_TEMPERATURE {
        if failure.AtSignal? {
          return false;
        }
        signals := signals + [Cont];
        paused := false;
        if failure.AtLog? {
          return false;
        }
        eventLog := eventLog + [Resumed(temperatures)];
      }
      return true;
    }

    /** The loop with its except clause. */
    method Guarded(polls: seq<Poll>, late: bool) returns (finished: bool)
      requires ValidPolls(polls)
      modifies this
      ensures (if finished then Finished(State()) else Raised(State())) == RunFrom(old(State()), polls, late)
    {
      var i := 0;
      while i < |polls|
        invariant i <= |polls|
        invariant RunFrom(State(), polls[i..], late) == RunFrom(old(State()), polls, late)
      {
        assert polls[i..][1..] == polls[i + 1..];
        if polls[i].Raises? {
          TerminateProcessGroup(late);
          return false;
        }
        var ok := Poll(polls[i].temperatures, polls[i].failure);
        if !ok {
          TerminateProcessGroup(late);
          return false;
        }
        i := i + 1;
      }
      assert polls[i..] == [];
      return true;
    }

    method RunGuarded(polls: seq<Poll>, late: bool, startFails: bool, finishFails: bool) returns (exit: Exit)
      requires ValidPolls(polls) && State() == START
      modifies this
      ensures RunSegment(polls, late, startFails, finishFails) ==
              match exit
              case Return => Finished(State())
              case Terminated => Raised(State())
              case LeftRunning => Abandoned(State())
              case NotReported => Unreported(State())
    {
      if startFails {
        return LeftRunning;
      }
      var finished := Guarded(polls, late);
      exit := if !finished then Terminated else if finishFails then NotReported else Return;
    }
  }

  // ----- what the loop keeps, for every sequence of samples -----

  predicate Samples(samples: seq<seq<int>>) {
    forall i | 0 <= i < |samples| :: samples[i] != []
  }

  function After(samples: seq<seq<int>>): Guard
    requires Samples(samples)
  {
    if samples == [] then START
    else Observe(After(samples[..|samples| - 1]), samples[|samples| - 1])
  }

  /** Pauses and resumes alternate, starting with a pause, each at its own threshold. */
  predicate Alternates(log: seq<Mark>) {
    forall i | 0 <= i < |log| ::
      if i % 2 == 0
      then log[i].Paused? && log[i].temperatures != [] && Hottest(log[i].temperatures) >= PAUSE_TEMPERATURE
      else log[i].Resumed? && log[i].temperatures != [] && Hottest(log[i].temperatures) <= RESUME_TEMPERATURE
  }

  /** One signal for every log entry: stop for a pause, continue for a resume. */
  predicate SignalsMatch(signals: seq<Signal>, log: seq<Mark>) {
    |signals| == |log| && forall i | 0 <= i < |log| :: signals[i] == if log[i].Paused? then Stop else Cont
  }

  predicate LastIsStop(signals: seq<Signal>) {
    signals != [] && signals[|signals| - 1] == Stop
  }

  lemma {:induction false} GuardInvariant(samples: seq<seq<int>>)
    requires Samples(samples)
    ensures var g := After(samples);
            && Alternates(g.log)
            && SignalsMatch(g.signals, g.log)
            && g.paused == LastIsStop(g.signals)
            && (g.paused <==> |g.log| % 2 == 1)
            && g.pauses == (|g.log| + 1) / 2
  {
    if samples != [] {
      GuardInvariant(samples[..|samples| - 1]);
    }
  }

  /** Pauses minus resumes is 0 or 1: it is 1 exactly while the group is stopped. */
  lemma PausesMinusResumes(samples: seq<seq<int>>)
    requires Samples(samples)
    ensures var g := After(samples);
            g.pauses - (|g.log| - g.pauses) == if g.paused then 1 else 0
  {
    GuardInvariant(samples);
  }

  /** Hot at some sample, and not cool since: the whole hysteresis, without the loop. */
  ghost predicate HotSince(samples: seq<seq<int>>, j: nat)
    requires Samples(samples)
  {
    && j < |samples|
    && Hottest(samples[j]) >= PAUSE_TEMPERATURE
    && forall l | j < l < |samples| :: Hottest(samples[l]) > RESUME_TEMPERATURE
  }

  lemma {:induction false} PausedIff(samples: seq<seq<int>>)
    requires Samples(samples)
    ensures After(samples).paused <==> exists j :: HotSince(samples, j)
  {
    if samples != [] {
      var n := |samples| - 1;
      var before := samples[..n];
      PausedIff(before);
      if j: nat :| HotSince(before, j) && Hottest(samples[n]) > RESUME_TEMPERATURE {
        assert HotSince(samples, j);
      }
      if Hottest(samples[n]) >= PAUSE_TEMPERATURE {
        assert HotSince(samples, n);
      }
      if j: nat :| HotSince(samples, j) && j < n {
        assert forall l | j < l < n :: before[l] == samples[l];
        assert HotSince(before, j);
      }
    }
  }

  /** The state after the first n samples. */
  function AfterFirst(samples: seq<seq<int>>, n: nat): Guard
    requires Samples(samples) && n <= |samples|
  {
    if n == 0 then START else Observe(AfterFirst(samples, n - 1), samples[n - 1])
  }

  lemma {:induction false} AfterFirstIsAfter(samples: seq<seq<int>>, n: nat)
    requires Samples(samples) && n <= |samples|
    ensures AfterFirst(samples, n) == After(samples[..n])
  {
    if n > 0 {
      AfterFirstIsAfter(samples, n - 1);
      assert samples[..n][..n - 1] == samples[..n - 1];
    }
  }

  function Entries(samples: seq<seq<int>>, n: nat): nat
    requires Samples(samples) && n <= |samples|
  {
    |AfterFirst(samples, n).log|
  }

  /** Entry number m of the log was written at sample i. */
  ghost predicate WrittenAt(samples: seq<seq<int>>, m: nat, i: nat)
    requires Samples(samples)
  {
    i < |samples| && Entries(samples, i) == m && Entries(samples, i + 1) == m + 1
  }

  lemma {:induction false} LogOnlyGrows(samples: seq<seq<int>>, i: nat, k: nat)
    requires Samples(samples) && i <= k <= |samples|
    ensures AfterFirst(samples, i).log <= AfterFirst(samples, k).log
    ensures Entries(samples, i) <= Entries(samples, k)
    decreases k - i
  {
    if i < k {
      LogOnlyGrows(samples, i, k - 1);
    }
  }

  lemma PausedByEntries(samples: seq<seq<int>>, n: nat)
    requires Samples(samples) && n <= |samples|
    ensures AfterFirst(samples, n).paused <==> Entries(samples, n) % 2 == 1
  {
    AfterFirstIsAfter(samples, n);
    GuardInvariant(samples[..n]);
  }

  lemma EntryIsSample(samples: seq<seq<int>>, m: nat, i: nat)
    requires Samples(samples) && WrittenAt(samples, m, i)
    ensures m < |After(samples).log|
    ensures After(samples).log[m] == if m % 2 == 0 then Paused(samples[i]) else Resumed(samples[i])
  {
    PausedByEntries(samples, i);
    LogOnlyGrows(samples, i + 1, |samples|);
    AfterFirstIsAfter(samples, |samples|);
    assert samples[..|samples|] == samples;
  }

  /** While the log ends with a pause, a sample that writes nothing is above the resume temperature. */
  lemma HotWhilePaused(samples: seq<seq<int>>, m: nat, l: nat)
    requires Samples(samples) && l < |samples| && m % 2 == 0
    requires Entries(samples, l) == m + 1 == Entries(samples, l + 1)
    ensures Hottest(samples[l]) > RESUME_TEMPERATURE
  {
    PausedByEntries(samples, l);
  }

  /**
   From a pause entry of the log to the resume entry after it: the two samples are the logged ones,
   and every sample strictly between them is above the resume temperature.
   */
  lemma HotFromPauseToResume(samples: seq<seq<int>>, m: nat, i: nat, j: nat)
    requires Samples(samples) && m % 2 == 0
    requires i < j && WrittenAt(samples, m, i) && WrittenAt(samples, m + 1, j)
    ensures m + 1 < |After(samples).log|
    ensures After(samples).log[m] == Paused(samples[i]) && After(samples).log[m + 1] == Resumed(samples[j])
    ensures forall l: nat | i < l < j :: Hottest(samples[l]) > RESUME_TEMPERATURE
  {
    EntryIsSample(samples, m, i);
    EntryIsSample(samples, m + 1, j);
    forall l: nat | i < l < j ensures Hottest(samples[l]) > RESUME_TEMPERATURE {
      LogOnlyGrows(samples, i + 1, l);
      LogOnlyGrows(samples, l, l + 1);
      LogOnlyGrows(samples, l + 1, j);
      HotWhilePaused(samples, m, l);
    }
  }

  /** The reported temperature is the highest of all samples, and 0 when all are below. */
  lemma {:induction false} MaximumExact(samples: seq<seq<int>>)
    requires Samples(samples)
    ensures var m := After(samples).maximum;
            && m >= 0
            && (forall i, k | 0 <= i < |samples| && 0 <= k < |samples[i]| :: samples[i][k] <= m)
            && (m == 0 || exists i, k :: 0 <= i < |samples| && 0 <= k < |samples[i]| && samples[i][k] == m)
  {
    if samples != [] {
      var n := |samples| - 1;
      MaximumExact(samples[..n]);
      HottestExact(samples[n]);
    }
  }

  lemma {:induction false} HottestExact(temperatures: seq<int>)
    requires temperatures != []
    ensures forall k | 0 <= k < |temperatures| :: temperatures[k] <= Hottest(temperatures)
    ensures exists k :: 0 <= k < |temperatures| && temperatures[k] == Hottest(temperatures)
  {
    var n := |temperatures| - 1;
    if n > 0 {
      HottestExact(temperatures[..n]);
      var k :| 0 <= k < n && temperatures[..n][k] == Hottest(temperatures[..n]);
      assert temperatures[if Hottest(temperatures) == temperatures[n] then n else k] == Hottest(temperatures);
    } else {
      assert temperatures[0] == Hottest(temperatures);
    }
  }

  // ----- every way a segment ends -----

  function Temperatures(polls: seq<Poll>): seq<seq<int>>
    requires forall i | 0 <= i < |polls| :: polls[i].Sample?
  {
    seq(|polls|, i requires 0 <= i < |polls| => polls[i].temperatures)
  }

  ghost predicate ReadsOnly(polls: seq<Poll>, n: nat) {
    n <= |polls| && forall i | 0 <= i < n :: polls[i].Sample? && polls[i].temperatures != []
  }

  /** A poll behind n others that raises nowhere. */
  ghost predicate Passes(polls: seq<Poll>, n: nat)
    requires n < |polls| && ReadsOnly(polls, n)
  {
    && polls[n].Sample? && polls[n].temperatures != []
    && !Fails(After(Temperatures(polls[..n])), polls[n].temperatures, polls[n].failure)
  }

  /** No poll raises anything. */
  ghost predicate NothingBreaks(polls: seq<Poll>) {
    ReadsOnly(polls, |polls|) && forall i | 0 <= i < |polls| :: Passes(polls, i)
  }

  /** The signal a poll has sent before it failed at its log entry. */
  function SentUnlogged(g: Guard, poll: Poll): seq<Signal>
    requires poll.Sample? ==> poll.temperatures != []
  {
    if poll.Sample? && poll.failure.AtLog? then
      match Decide(g.paused, Hottest(poll.temperatures))
      case Pause => [Stop]
      case Resume => [Cont]
      case Hold => []
    else []
  }

  /** The exit of the guarded part: the polls it completed, and what it did on the way out. */
  lemma {:induction false} SegmentEnds(polls: seq<Poll>, k: nat, late: bool) returns (n: nat)
    requires ValidPolls(polls) && ReadsOnly(polls, k)
    ensures k <= n && ReadsOnly(polls, n)
    ensures forall i | k <= i < n :: Passes(polls, i)
    ensures var before := After(Temperatures(polls[..n]));
            match RunFrom(After(Temperatures(polls[..k])), polls[k..], late)
            case Finished(g) => n == |polls| && g == before
            case Raised(g) =>
              && n < |polls| && !Passes(polls, n)
              && g.signals == before.signals + SentUnlogged(before, polls[n])
                              + [Cont, Term] + (if late then [Kill] else [])
              && g.log == before.log
            case _ => false
    decreases |polls| - k
  {
    n := k;
    if k < |polls| {
      assert polls[k..][0] == polls[k] && polls[k..][1..] == polls[k + 1..];
      if polls[k].Sample? {
        var g := After(Temperatures(polls[..k]));
        if !Fails(g, polls[k].temperatures, polls[k].failure) {
          var all := Temperatures(polls[..k + 1]);
          assert all[..k] == Temperatures(polls[..k]) && all[k] == polls[k].temperatures;
          n := SegmentEnds(polls, k + 1, late);
        }
      }
    } else {
      assert polls[k..] == [];
    }
  }

  /** No exception of the guarded part leaves the process group stopped, not even a stop just sent. */
  lemma ExceptionContinuesBeforeTerminating(polls: seq<Poll>, late: bool, startFails: bool, finishFails: bool)
    requires ValidPolls(polls) && RunSegment(polls, late, startFails, finishFails).Raised?
    ensures var s := RunSegment(polls, late, startFails, finishFails).guard.signals;
            exists c :: 0 <= c < |s| && s[c] == Cont && s[c..] == [Cont, Term] + (if late then [Kill] else [])
  {
    assert polls[..0] == [] && polls[0..] == polls;
    assert Temperatures(polls[..0]) == [];
    var n := SegmentEnds(polls, 0, late);
    var before := After(Temperatures(polls[..n]));
    var sent := before.signals + SentUnlogged(before, polls[n]);
    var s := RunFrom(START, polls, late).guard.signals;
    assert s[|sent|..] == [Cont, Term] + (if late then [Kill] else []);
    assert s[|sent|] == Cont;
  }

  /**
   Every exit, exactly, and which of them signal the group for termination: the exceptions of the
   guarded part.  When the start entry cannot be logged the process is left running, without a signal.
   */
  lemma TerminatesExactlyIfGuarded(polls: seq<Poll>, late: bool, startFails: bool, finishFails: bool)
    requires ValidPolls(polls)
    ensures var out := RunSegment(polls, late, startFails, finishFails);
            && (out.Abandoned? <==> startFails)
            && (out.Finished? <==> !startFails && NothingBreaks(polls) && !finishFails)
            && (out.Unreported? <==> !startFails && NothingBreaks(polls) && finishFails)
            && (Term in out.guard.signals <==> out.Raised?)
            && (out.Abandoned? ==> out.guard.signals == [])
  {
    assert polls[..0] == [] && polls[0..] == polls;
    assert Temperatures(polls[..0]) == [];
    var n := SegmentEnds(polls, 0, late);
    var before := After(Temperatures(polls[..n]));
    GuardInvariant(Temperatures(polls[..n]));
    if RunFrom(START, polls, late).Raised? {
      var s := RunFrom(START, polls, late).guard.signals;
      assert s[|before.signals| + |SentUnlogged(before, polls[n])| + 1] == Term;
    }
  }
}
