/**
 Whole runs of interrupted training: any number of sessions, each killed after any effect or sent a
 SIGTERM at any step, with directories damaged in between.
 */
module TrainingRuns {
  import opened Wrappers
  import opened TrainingSpec
  import opened TrainingTheorems

  /** The step a session starts from; None when it fails before its loop. */
  function StartStep<S, M>(job: Job<S, M>, site: Site<S, M>, launch: Launch): Option<nat> {
    match launch
    case Fresh => if site.created then None else Some(0)
    case Resume => LatestValid(site.slots, job.maxSteps + 1)
  }

  lemma ResumedIsReady<S, M>(job: Job<S, M>, site: Site<S, M>, step: nat)
    requires ValidJob(job) && Sound(job, site)
    requires LatestValid(site.slots, job.maxSteps + 1) == Some(step)
    ensures Legal(job, site, Resumed(step))
    ensures Ready(job, Apply(site, Resumed(step)), step, site.slots[step].state)
  {
    forall h: nat | IsIntact(site.slots, h) ensures h <= step {
      assert h <= |site.merged|;
    }
    ApplyKeepsSound(job, site, Resumed(step));
    FilterIsPrefix(job, site.merged, step);
  }

  /** Every exit of a session, from its start and its signal; what a success or a safe stop leaves. */
  lemma SessionOutcome<S, M>(job: Job<S, M>, site: Site<S, M>, launch: Launch, term: Option<nat>)
    requires ValidJob(job) && Sound(job, site)
    ensures var run := Work(job, site, launch, term);
            var start := StartStep(job, site, launch);
            && AllLegal(job, site, run.effects)
            && (run.ending.NotStarted? <==> start.None?)
            && (run.ending.Succeeded? <==> start.Some? && ReachesEnd(job, site.slots, start.value, term))
            && (run.ending.Terminated? <==> start.Some? && StopsSafely(job, site.slots, start.value, term))
            && (run.ending.Succeeded? ==> Checkpointed(job, ApplyAll(site, run.effects), job.maxSteps))
            && (run.ending.Terminated? ==>
                  Checkpointed(job, ApplyAll(site, run.effects), Noticed(job, start.value, term).value))
  {
    var start := StartStep(job, site, launch);
    if start.Some? {
      var first: Effect<S, M> := if launch.Fresh? then MakeSite else Resumed(start.value);
      var state := if launch.Fresh? then job.init else site.slots[start.value].state;
      var begun := Apply(site, first);
      if launch.Resume? {
        ResumedIsReady(job, site, start.value);
      }
      LoopDelivers(job, begun, start.value, state, term);
      LoopEnding(job, begun, start.value, state, term);
      LoopStarts(job, begun, start.value, state, term);
      var rest := Loop(job, begun, start.value, state, term);
      assert ([first] + rest.effects)[1..] == rest.effects;
    }
  }

  lemma {:induction false} LoopStarts<S, M>(job: Job<S, M>, site: Site<S, M>, step: nat, state: S, term: Option<nat>)
    requires ValidJob(job)
    ensures !Loop(job, site, step, state, term).ending.NotStarted?
    decreases job.maxSteps - step
  {
    if step < job.maxSteps {
      var (after, value) := job.next(state);
      var emitted := Apply(site, Emit(Metric(step + 1, value)));
      var saves := PeriodicSave(job, emitted, step + 1, after);
      if saves.Some? {
        LoopStarts(job, ApplyAll(emitted, saves.value), step + 1, after, term);
      }
    }
  }

  lemma TurnKeepsSound<S, M>(job: Job<S, M>, site: Site<S, M>, turn: Turn)
    requires ValidJob(job) && Sound(job, site)
    ensures Sound(job, Happened(job, site, turn))
  {
    match turn
    case Attempt(launch, term, survived) =>
      SessionOutcome(job, site, launch, term);
      LegalPrefix(job, site, Work(job, site, launch, term).effects, survived);
      EffectsKeepSound(job, site, Cut(Work(job, site, launch, term).effects, survived));
    case Corrupt(step) =>
      var f := Happened(job, site, turn);
      forall k: nat | IsIntact(f.slots, k) ensures k <= |f.merged| && f.slots[k].state == StateAt(job, k) {
        assert IsIntact(site.slots, k);
      }
  }

  /** At every point of every run the controller holds the uninterrupted metrics 1..n, once each. */
  lemma {:induction false} EveryRunIsSound<S, M>(job: Job<S, M>, site: Site<S, M>, turns: seq<Turn>)
    requires ValidJob(job) && Sound(job, site)
    ensures Sound(job, After(job, site, turns))
    decreases |turns|
  {
    if turns != [] {
      TurnKeepsSound(job, site, turns[0]);
      EveryRunIsSound(job, Happened(job, site, turns[0]), turns[1..]);
    }
  }

  /** The one run nobody interrupts. */
  function Baseline<S, M>(job: Job<S, M>): Site<S, M>
    requires ValidJob(job)
  {
    ApplyAll(NewSite(), Work(job, NewSite(), Fresh, None).effects)
  }

  lemma BaselineSucceeds<S, M>(job: Job<S, M>)
    requires ValidJob(job)
    ensures Work(job, NewSite(), Fresh, None).ending.Succeeded?
    ensures Sound(job, Baseline(job)) && Checkpointed(job, Baseline(job), job.maxSteps)
  {
    SessionOutcome(job, NewSite(), Fresh, None);
    EffectsKeepSound(job, NewSite(), Work(job, NewSite(), Fresh, None).effects);
  }

  /** A session that succeeds after any history ends exactly as the uninterrupted run does. */
  lemma SuccessRefinesBaseline<S, M>(job: Job<S, M>, turns: seq<Turn>, launch: Launch, term: Option<nat>)
    requires ValidJob(job)
    requires Work(job, After(job, NewSite(), turns), launch, term).ending.Succeeded?
    ensures var site := After(job, NewSite(), turns);
            var final := ApplyAll(site, Work(job, site, launch, term).effects);
            var base := Baseline(job);
            && final.merged == base.merged
            && |final.merged| == job.maxSteps
            && final.latest == base.latest == Some(job.maxSteps)
            && job.maxSteps in final.slots && job.maxSteps in base.slots
            && final.slots[job.maxSteps] == base.slots[job.maxSteps] == Intact(StateAt(job, job.maxSteps), true)
  {
    var site := After(job, NewSite(), turns);
    EveryRunIsSound(job, NewSite(), turns);
    SessionOutcome(job, site, launch, term);
    EffectsKeepSound(job, site, Work(job, site, launch, term).effects);
    BaselineSucceeds(job);
    var final := ApplyAll(site, Work(job, site, launch, term).effects);
    forall i | 0 <= i < job.maxSteps ensures final.merged[i] == Baseline(job).merged[i] {
      assert final.merged[i] == Metric(i + 1, ValueAt(job, i + 1));
    }
  }

  // ----- the merged metric list -----

  function Emitted<S, M>(es: seq<Effect<S, M>>): seq<Metric<M>> {
    if es == [] then []
    else (if es[0].Emit? then [es[0].metric] else []) + Emitted(es[1..])
  }

  ghost predicate NeverResumes<S, M>(es: seq<Effect<S, M>>) {
    forall i | 0 <= i < |es| :: !es[i].Resumed?
  }

  lemma {:induction false} MergedIsAppended<S, M>(site: Site<S, M>, es: seq<Effect<S, M>>)
    requires NeverResumes(es)
    ensures ApplyAll(site, es).merged == site.merged + Emitted(es)
    decreases |es|
  {
    if es != [] {
      var one := if es[0].Emit? then [es[0].metric] else [];
      assert !es[0].Resumed?;
      assert Apply(site, es[0]).merged == site.merged + one;
      assert NeverResumes(es[1..]);
      MergedIsAppended(Apply(site, es[0]), es[1..]);
      assert site.merged + one + Emitted(es[1..]) == site.merged + (one + Emitted(es[1..]));
    }
  }

  lemma {:induction false} RemovalsNeverResume<S, M>(steps: seq<nat>)
    ensures NeverResumes(Removals<S, M>(steps))
  {
    if steps != [] {
      RemovalsNeverResume<S, M>(steps[1..]);
    }
  }

  lemma SaveNeverResumes<S, M>(job: Job<S, M>, site: Site<S, M>, step: nat, state: S, pinned: bool)
    ensures NeverResumes(SaveEffects(job, site, step, state, pinned))
  {
    RemovalsNeverResume<S, M>(Expired(job, site.slots[step := Intact(state, pinned)]));
  }

  lemma JoinNeverResumes<S, M>(a: seq<Effect<S, M>>, b: seq<Effect<S, M>>)
    requires NeverResumes(a) && NeverResumes(b)
    ensures NeverResumes(a + b)
  {
  }

  lemma {:induction false} LoopNeverResumes<S, M>(
    job: Job<S, M>, site: Site<S, M>, step: nat, state: S, term: Option<nat>)
    requires ValidJob(job)
    ensures NeverResumes(Loop(job, site, step, state, term).effects)
    decreases job.maxSteps - step
  {
    if step >= job.maxSteps {
      SaveNeverResumes(job, site, step, state, true);
    } else {
      var (after, value) := job.next(state);
      var emit: Effect<S, M> := Emit(Metric(step + 1, value));
      var emitted := Apply(site, emit);
      match PeriodicSave(job, emitted, step + 1, after)
      case None =>
      case Some(saves) =>
        var saved := ApplyAll(emitted, saves);
        SaveNeverResumes(job, emitted, step + 1, after, false);
        SaveNeverResumes(job, saved, step + 1, after, true);
        JoinNeverResumes([emit], saves);
        if term.Some? && term.value <= step + 1 {
          JoinNeverResumes([emit] + saves, SaveEffects(job, saved, step + 1, after, true));
        } else {
          LoopNeverResumes(job, saved, step + 1, after, term);
          JoinNeverResumes([emit] + saves, Loop(job, saved, step + 1, after, term).effects);
        }
    }
  }

  lemma ResumedThenAppended<S, M>(site: Site<S, M>, step: nat, rest: seq<Effect<S, M>>, survived: nat)
    requires NeverResumes(rest) && survived > 0
    ensures var es := Cut([Resumed(step)] + rest, survived);
            ApplyAll(site, es).merged == UpTo(site.merged, step) + Emitted(es)
  {
    var es := Cut([Resumed(step)] + rest, survived);
    assert es[0] == Resumed(step);
    assert NeverResumes(es[1..]);
    MergedIsAppended(Apply(site, es[0]), es[1..]);
  }

  /** The controller's list: the old metrics up to the resumed step, then the resumed metrics. */
  lemma MergedIsCanonical<S, M>(job: Job<S, M>, site: Site<S, M>, term: Option<nat>, survived: nat)
    requires ValidJob(job)
    requires LatestValid(site.slots, job.maxSteps + 1).Some? && survived > 0
    ensures var step := LatestValid(site.slots, job.maxSteps + 1).value;
            var es := Cut(Work(job, site, Resume, term).effects, survived);
            ApplyAll(site, es).merged == UpTo(site.merged, step) + Emitted(es)
  {
    var step := LatestValid(site.slots, job.maxSteps + 1).value;
    var state := site.slots[step].state;
    var rest := Loop(job, Apply(site, Resumed(step)), step, state, term);
    LoopNeverResumes(job, Apply(site, Resumed(step)), step, state, term);
    ResumedThenAppended(site, step, rest.effects, survived);
  }

  // ----- how far a kill rolls back -----

  /** The last multiple of the save period before step n. */
  function LastBoundary<S, M>(job: Job<S, M>, n: nat): (b: nat)
    requires ValidJob(job)
    ensures b <= n && b % job.saveSteps == 0
    ensures n > 0 ==> n - b == (n - 1) % job.saveSteps + 1
  {
    if n == 0 then 0
    else if (n - 1) % job.saveSteps == 0 then n - 1
    else
      ModuloSteps(n - 2, job.saveSteps);
      LastBoundary(job, n - 1)
  }

  lemma {:induction false} ProductAtLeast(m: nat, d: nat)
    requires d > 0
    ensures m * d >= m
  {
    if d > 1 {
      ProductAtLeast(m, d - 1);
      assert m * d == m * (d - 1) + m;
    }
  }

  lemma Remainder(n: int, m: nat, q: int, r: nat)
    requires m > 0 && n == m * q + r && r < m
    ensures n % m == r
  {
    var d := n / m - q;
    var e := q - n / m;
    assert m * d == m * (n / m) - m * q && m * e == m * q - m * (n / m);
    if d > 0 {
      ProductAtLeast(m, d);
    } else if e > 0 {
      ProductAtLeast(m, e);
    }
  }

  lemma ModuloSteps(n: int, m: nat)
    requires m > 0 && (n + 1) % m != 0
    ensures (n + 1) % m == n % m + 1
  {
    var q := n / m;
    assert n == m * q + n % m;
    if n % m + 1 < m {
      Remainder(n + 1, m, q, n % m + 1);
    } else {
      assert n + 1 == m * q + m;
      assert m * (q + 1) == m * q + m;
      Remainder(n + 1, m, q + 1, 0);
    }
  }

  /** The last save boundary passed has a checkpoint at or after it. */
  ghost predicate Covered<S, M>(job: Job<S, M>, site: Site<S, M>)
    requires ValidJob(job)
  {
    LastBoundary(job, |site.merged|) > 0 ==>
      exists k: nat :: IsIntact(site.slots, k) && k >= LastBoundary(job, |site.merged|)
  }

  lemma ApplyKeepsCovered<S, M>(job: Job<S, M>, site: Site<S, M>, e: Effect<S, M>)
    requires ValidJob(job) && Sound(job, site) && Legal(job, site, e) && Covered(job, site)
    ensures Covered(job, Apply(site, e))
  {
    var f := Apply(site, e);
    var bound := LastBoundary(job, |f.merged|);
    match e
    case Resumed(step) =>
      FilterIsPrefix(job, site.merged, step);
      assert IsIntact(f.slots, step);
    case Emit(_) =>
      if bound == |site.merged| && bound > 0 {
        assert IsIntact(f.slots, bound);
      }
    case Wreck(step) => KeptAbove(site.slots, f.slots, step, bound);
    case Remove(step) => KeptAbove(site.slots, f.slots, step, bound);
    case _ =>
      if bound > 0 {
        var k: nat :| IsIntact(site.slots, k) && k >= bound;
        assert IsIntact(f.slots, k);
      }
  }

  /** Losing a directory below an intact one loses no coverage. */
  lemma KeptAbove<S>(before: map<nat, Slot<S>>, after: map<nat, Slot<S>>, step: nat, bound: nat)
    requires IntactAbove(before, step)
    requires forall k: nat | k != step && IsIntact(before, k) :: IsIntact(after, k)
    ensures (exists k: nat :: IsIntact(before, k) && k >= bound) ==> exists k: nat :: IsIntact(after, k) && k >= bound
  {
    if k: nat :| IsIntact(before, k) && k >= bound {
      var h: nat :| step < h && IsIntact(before, h);
      assert IsIntact(after, if k == step then h else k);
    }
  }

  lemma {:induction false} EffectsKeepCovered<S, M>(job: Job<S, M>, site: Site<S, M>, es: seq<Effect<S, M>>)
    requires ValidJob(job) && Sound(job, site) && AllLegal(job, site, es) && Covered(job, site)
    ensures Covered(job, ApplyAll(site, es))
    decreases |es|
  {
    if es != [] {
      ApplyKeepsSound(job, site, es[0]);
      ApplyKeepsCovered(job, site, es[0]);
      EffectsKeepCovered(job, Apply(site, es[0]), es[1..]);
    }
  }

  lemma {:induction false} UndamagedRunIsCovered<S, M>(job: Job<S, M>, site: Site<S, M>, turns: seq<Turn>)
    requires ValidJob(job) && Sound(job, site) && Covered(job, site)
    requires forall t | t in turns :: t.Attempt?
    ensures Covered(job, After(job, site, turns))
    decreases |turns|
  {
    if turns != [] {
      var t := turns[0];
      assert t.Attempt?;
      SessionOutcome(job, site, t.launch, t.term);
      var es := Work(job, site, t.launch, t.term).effects;
      LegalPrefix(job, site, es, t.survived);
      EffectsKeepCovered(job, site, Cut(es, t.survived));
      TurnKeepsSound(job, site, t);
      assert forall u | u in turns[1..] :: u in turns;
      UndamagedRunIsCovered(job, Happened(job, site, t), turns[1..]);
    }
  }

  /**
   However a run was killed, and with no directory damaged, the next resume repeats at most one save
   period; and once more than one period was reported there is a checkpoint to resume from.
   */
  lemma RollbackBound<S, M>(job: Job<S, M>, turns: seq<Turn>)
    requires ValidJob(job) && forall t | t in turns :: t.Attempt?
    ensures var site := After(job, NewSite(), turns);
            var from := LatestValid(site.slots, job.maxSteps + 1);
            && (from.Some? ==> 0 <= |site.merged| - from.value <= job.saveSteps)
            && (|site.merged| > job.saveSteps ==> from.Some?)
  {
    var start: Site<S, M> := NewSite();
    var site := After(job, start, turns);
    EveryRunIsSound(job, start, turns);
    UndamagedRunIsCovered(job, start, turns);
    var from := LatestValid(site.slots, job.maxSteps + 1);
    if LastBoundary(job, |site.merged|) > 0 {
      var k: nat :| IsIntact(site.slots, k) && k >= LastBoundary(job, |site.merged|);
      assert k <= |site.merged| <= job.maxSteps;
    }
  }

  lemma NewestMetricIsLatest<S, M>(job: Job<S, M>, site: Site<S, M>)
    requires ValidJob(job) && Sound(job, site) && IsIntact(site.slots, |site.merged|)
    ensures LatestValid(site.slots, job.maxSteps + 1) == Some(|site.merged|)
  {
  }

  lemma SafeStopLeaves<S, M>(job: Job<S, M>, site: Site<S, M>, launch: Launch, term: Option<nat>, final: Site<S, M>)
    requires ValidJob(job) && Sound(job, site) && Work(job, site, launch, term).ending.Terminated?
    requires final == ApplyAll(site, Work(job, site, launch, term).effects)
    ensures Sound(job, final) && IsIntact(final.slots, |final.merged|)
  {
    SessionOutcome(job, site, launch, term);
    EffectsKeepSound(job, site, Work(job, site, launch, term).effects);
  }

  /** After a completed SIGTERM exit the next resume starts exactly at the last reported step. */
  lemma SafeStopResumesInPlace<S, M>(job: Job<S, M>, turns: seq<Turn>, launch: Launch, term: Option<nat>)
    requires ValidJob(job)
    requires Work(job, After(job, NewSite(), turns), launch, term).ending.Terminated?
    ensures var site := After(job, NewSite(), turns);
            var final := ApplyAll(site, Work(job, site, launch, term).effects);
            LatestValid(final.slots, job.maxSteps + 1) == Some(|final.merged|)
  {
    var site := After(job, NewSite(), turns);
    var final := ApplyAll(site, Work(job, site, launch, term).effects);
    EveryRunIsSound(job, NewSite(), turns);
    SafeStopLeaves(job, site, launch, term, final);
    NewestMetricIsLatest(job, final);
  }

  // ----- what a damaged directory ahead blocks -----

  /** A damaged directory stands where a save is due, and every intact one is before it. */
  ghost predicate Blocked<S, M>(job: Job<S, M>, site: Site<S, M>, at: nat)
    requires ValidJob(job)
  {
    && site.created
    && at > 0 && (Boundary(job, at) || at == job.maxSteps)
    && at in site.slots && site.slots[at].Damaged?
    && forall k: nat | IsIntact(site.slots, k) :: k < at
  }

  lemma ApplyKeepsBlocked<S, M>(job: Job<S, M>, site: Site<S, M>, e: Effect<S, M>, at: nat)
    requires ValidJob(job) && Sound(job, site) && Legal(job, site, e)
    requires Blocked(job, site, at) && (e.Resumed? || |site.merged| <= at)
    ensures Blocked(job, Apply(site, e), at) && |Apply(site, e).merged| <= at
  {
    var f := Apply(site, e);
    match e
    case Resumed(step) => FilterIsPrefix(job, site.merged, step);
    case Wreck(step) =>
      forall k: nat | IsIntact(f.slots, k) ensures k < at {
        assert IsIntact(site.slots, k);
      }
    case Remove(step) =>
      forall k: nat | IsIntact(f.slots, k) ensures k < at {
        assert IsIntact(site.slots, k);
      }
    case _ =>
      forall k: nat | IsIntact(f.slots, k) ensures k < at {
        assert k == |site.merged| || IsIntact(site.slots, k);
      }
  }

  lemma {:induction false} EffectsKeepBlocked<S, M>(job: Job<S, M>, site: Site<S, M>, es: seq<Effect<S, M>>, at: nat)
    requires ValidJob(job) && Sound(job, site) && AllLegal(job, site, es)
    requires Blocked(job, site, at) && (es != [] ==> es[0].Resumed? || |site.merged| <= at)
    ensures Blocked(job, ApplyAll(site, es), at)
    decreases |es|
  {
    if es != [] {
      ApplyKeepsBlocked(job, site, es[0], at);
      ApplyKeepsSound(job, site, es[0]);
      EffectsKeepBlocked(job, Apply(site, es[0]), es[1..], at);
    }
  }

  /** A blocked run never succeeds again, whatever is tried. */
  lemma {:induction false} BlockedForever<S, M>(
    job: Job<S, M>, site: Site<S, M>, at: nat, turns: seq<Turn>, launch: Launch, term: Option<nat>)
    requires ValidJob(job) && Sound(job, site) && Blocked(job, site, at)
    ensures Blocked(job, After(job, site, turns), at)
    ensures !Work(job, After(job, site, turns), launch, term).ending.Succeeded?
    decreases |turns|
  {
    if turns == [] {
      SessionOutcome(job, site, launch, term);
      assert Boundary(job, at) ==> at in site.slots;
    } else {
      var f := Happened(job, site, turns[0]);
      TurnKeepsSound(job, site, turns[0]);
      match turns[0] {
        case Attempt(how, when, survived) =>
          SessionOutcome(job, site, how, when);
          var es := Work(job, site, how, when).effects;
          LegalPrefix(job, site, es, survived);
          EffectsKeepBlocked(job, site, Cut(es, survived), at);
        case Corrupt(step) =>
          forall k: nat | IsIntact(f.slots, k) ensures k < at {
            assert IsIntact(site.slots, k);
          }
      }
      BlockedForever(job, f, at, turns[1..], launch, term);
    }
  }

  // ----- when a run can still be completed -----

  /**
   What an operator can read off the artifact directory: nothing was started, or there is an intact
   checkpoint and no directory stands on a save boundary after the newest one or at the last step.
   */
  ghost predicate Completable<S, M>(job: Job<S, M>, site: Site<S, M>)
    requires ValidJob(job)
  {
    site.created ==>
      match LatestValid(site.slots, job.maxSteps + 1)
      case None => false
      case Some(step) => Clear(job, site.slots, step, job.maxSteps) && job.maxSteps !in site.slots
  }

  ghost predicate SucceedsAfter<S, M>(
    job: Job<S, M>, site: Site<S, M>, turns: seq<Turn>, launch: Launch, term: Option<nat>)
    requires ValidJob(job)
  {
    Work(job, After(job, site, turns), launch, term).ending.Succeeded?
  }

  /** The attempt that completes a completable run: the next one, if nothing interrupts it. */
  lemma CompletableSucceeds<S, M>(job: Job<S, M>, site: Site<S, M>)
    requires ValidJob(job) && Sound(job, site) && Completable(job, site)
    ensures SucceedsAfter(job, site, [], if site.created then Resume else Fresh, None)
  {
    SessionOutcome(job, site, if site.created then Resume else Fresh, None);
  }

  /** Started, and without an intact checkpoint: neither launch gets anywhere. */
  ghost predicate Bare<S, M>(site: Site<S, M>) {
    site.created && forall k: nat :: !IsIntact(site.slots, k)
  }

  lemma {:induction false} BareForever<S, M>(
    job: Job<S, M>, site: Site<S, M>, turns: seq<Turn>, launch: Launch, term: Option<nat>)
    requires ValidJob(job) && Sound(job, site) && Bare(site)
    ensures !SucceedsAfter(job, site, turns, launch, term)
    decreases |turns|
  {
    if turns == [] {
      SessionOutcome(job, site, launch, term);
    } else {
      var f := Happened(job, site, turns[0]);
      TurnKeepsSound(job, site, turns[0]);
      match turns[0] {
        case Attempt(how, when, survived) => assert f == site;
        case Corrupt(step) =>
          forall k: nat ensures !IsIntact(f.slots, k) {
            assert !IsIntact(site.slots, k);
          }
      }
      BareForever(job, f, turns[1..], launch, term);
    }
  }

  lemma {:induction false} EffectsKeepLastStep<S, M>(job: Job<S, M>, site: Site<S, M>, es: seq<Effect<S, M>>)
    requires ValidJob(job) && Sound(job, site) && AllLegal(job, site, es) && job.maxSteps in site.slots
    ensures job.maxSteps in ApplyAll(site, es).slots
    decreases |es|
  {
    if es != [] {
      ApplyKeepsSound(job, site, es[0]);
      assert !IntactAbove(site.slots, job.maxSteps);
      EffectsKeepLastStep(job, Apply(site, es[0]), es[1..]);
    }
  }

  /** A directory at the last step, intact or not, is never removed, and refuses every final save. */
  lemma {:induction false} LastStepForever<S, M>(
    job: Job<S, M>, site: Site<S, M>, turns: seq<Turn>, launch: Launch, term: Option<nat>)
    requires ValidJob(job) && Sound(job, site) && job.maxSteps in site.slots
    ensures !SucceedsAfter(job, site, turns, launch, term)
    decreases |turns|
  {
    if turns == [] {
      SessionOutcome(job, site, launch, term);
    } else {
      TurnKeepsSound(job, site, turns[0]);
      match turns[0] {
        case Attempt(how, when, survived) =>
          SessionOutcome(job, site, how, when);
          var es := Work(job, site, how, when).effects;
          LegalPrefix(job, site, es, survived);
          EffectsKeepLastStep(job, site, Cut(es, survived));
        case Corrupt(step) =>
      }
      LastStepForever(job, Happened(job, site, turns[0]), turns[1..], launch, term);
    }
  }

  /** A run that is not completable never succeeds, whatever is tried and whatever is damaged. */
  lemma NotCompletableForever<S, M>(
    job: Job<S, M>, site: Site<S, M>, turns: seq<Turn>, launch: Launch, term: Option<nat>)
    requires ValidJob(job) && Sound(job, site) && !Completable(job, site)
    ensures !SucceedsAfter(job, site, turns, launch, term)
  {
    match LatestValid(site.slots, job.maxSteps + 1)
    case None =>
      forall k: nat ensures !IsIntact(site.slots, k) {
        assert IsIntact(site.slots, k) ==> k <= |site.merged| <= job.maxSteps;
      }
      BareForever(job, site, turns, launch, term);
    case Some(step) =>
      if job.maxSteps in site.slots {
        LastStepForever(job, site, turns, launch, term);
      } else {
        var at: nat :| at in site.slots && step < at < job.maxSteps && Boundary(job, at);
        forall k: nat | IsIntact(site.slots, k) ensures k < at {
          assert k <= |site.merged| <= job.maxSteps;
        }
        assert !IsIntact(site.slots, at);
        BlockedForever(job, site, at, turns, launch, term);
      }
  }

  /** At every point of every run: some continuation succeeds exactly when the site is completable. */
  lemma CompletableIff<S, M>(job: Job<S, M>, turns: seq<Turn>)
    requires ValidJob(job)
    ensures var site := After(job, NewSite(), turns);
            Completable(job, site) <==>
            exists later: seq<Turn>, launch: Launch, term: Option<nat> :: SucceedsAfter(job, site, later, launch, term)
  {
    var site := After(job, NewSite(), turns);
    EveryRunIsSound(job, NewSite(), turns);
    if Completable(job, site) {
      CompletableSucceeds(job, site);
    } else {
      forall later: seq<Turn>, launch: Launch, term: Option<nat>
        ensures !SucceedsAfter(job, site, later, launch, term)
      {
        NotCompletableForever(job, site, later, launch, term);
      }
    }
  }
}
