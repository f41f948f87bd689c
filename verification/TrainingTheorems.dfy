/**
 Interrupted training refines uninterrupted training.

 Every effect of a worker is guarded; guarded effects keep the site sound, however many sessions
 are killed, terminated or resumed, and whatever directories are damaged in between.
 */
module TrainingTheorems {
  import opened Wrappers
  import opened TrainingSpec

  // ----- what is kept -----

  /** The controller holds exactly the uninterrupted metrics 1..n. */
  ghost predicate MetricsOk<S, M>(job: Job<S, M>, metrics: seq<Metric<M>>) {
    && |metrics| <= job.maxSteps
    && forall i | 0 <= i < |metrics| :: metrics[i] == Metric(i + 1, ValueAt(job, i + 1))
  }

  /** Every intact checkpoint holds the uninterrupted state of its step, and no step is ahead of n. */
  ghost predicate SlotsOk<S, M>(job: Job<S, M>, slots: map<nat, Slot<S>>, n: nat) {
    forall k: nat | IsIntact(slots, k) :: k <= n && slots[k].state == StateAt(job, k)
  }

  ghost predicate Sound<S, M>(job: Job<S, M>, site: Site<S, M>) {
    && MetricsOk(job, site.merged)
    && SlotsOk(job, site.slots, |site.merged|)
    && (!site.created ==> site.slots == map[] && site.merged == [])
  }

  ghost predicate IntactAbove<S>(slots: map<nat, Slot<S>>, step: nat) {
    exists h: nat :: step < h && IsIntact(slots, h)
  }

  /** The guard under which the worker produces an effect. */
  ghost predicate Legal<S, M>(job: Job<S, M>, site: Site<S, M>, e: Effect<S, M>)
    requires ValidJob(job)
  {
    match e
    case MakeSite => true
    case Resumed(step) => IsIntact(site.slots, step) && !IntactAbove(site.slots, step)
    case Emit(metric) =>
      && site.created
      && |site.merged| < job.maxSteps
      && metric == Metric(|site.merged| + 1, ValueAt(job, |site.merged| + 1))
      && (|site.merged| > 0 && |site.merged| % job.saveSteps == 0 ==> IsIntact(site.slots, |site.merged|))
    case Publish(step, state, pinned) =>
      site.created && step !in site.slots && step == |site.merged| && state == StateAt(job, step)
    case PointLatest(step) => IsIntact(site.slots, step)
    case Wreck(step) => IntactAbove(site.slots, step)
    case Remove(step) => !IsIntact(site.slots, step) && IntactAbove(site.slots, step)
  }

  ghost predicate AllLegal<S, M>(job: Job<S, M>, site: Site<S, M>, es: seq<Effect<S, M>>)
    requires ValidJob(job)
    decreases |es|
  {
    es == [] || (Legal(job, site, es[0]) && AllLegal(job, Apply(site, es[0]), es[1..]))
  }

  lemma {:induction false} ApplyConcat<S, M>(site: Site<S, M>, a: seq<Effect<S, M>>, b: seq<Effect<S, M>>)
    ensures ApplyAll(site, a + b) == ApplyAll(ApplyAll(site, a), b)
    decreases |a|
  {
    if a == [] {
      assert a + b == b;
    } else {
      assert (a + b)[1..] == a[1..] + b;
      ApplyConcat(Apply(site, a[0]), a[1..], b);
    }
  }

  lemma {:induction false} LegalConcat<S, M>(
    job: Job<S, M>, site: Site<S, M>, a: seq<Effect<S, M>>, b: seq<Effect<S, M>>)
    requires ValidJob(job)
    ensures AllLegal(job, site, a + b) <==> AllLegal(job, site, a) && AllLegal(job, ApplyAll(site, a), b)
    decreases |a|
  {
    if a == [] {
      assert a + b == b;
    } else {
      assert (a + b)[1..] == a[1..] + b;
      LegalConcat(job, Apply(site, a[0]), a[1..], b);
    }
  }

  lemma LegalPrefix<S, M>(job: Job<S, M>, site: Site<S, M>, es: seq<Effect<S, M>>, survived: nat)
    requires ValidJob(job) && AllLegal(job, site, es)
    ensures AllLegal(job, site, Cut(es, survived))
  {
    if survived < |es| {
      assert es == es[..survived] + es[survived..];
      LegalConcat(job, site, es[..survived], es[survived..]);
    }
  }

  /** On sound metrics the filter of the controller is a cut at the resumed step. */
  lemma {:induction false} FilterIsPrefix<S, M>(job: Job<S, M>, metrics: seq<Metric<M>>, step: nat)
    requires MetricsOk(job, metrics)
    ensures UpTo(metrics, step) == if step < |metrics| then metrics[..step] else metrics
    decreases |metrics|
  {
    if metrics != [] {
      var n := |metrics| - 1;
      FilterIsPrefix(job, metrics[..n], step);
      assert metrics[n].step == n + 1;
      assert metrics[..n] + [metrics[n]] == metrics;
      if step < n {
        assert metrics[..n][..step] == metrics[..step];
      }
    }
  }

  lemma ApplyKeepsSound<S, M>(job: Job<S, M>, site: Site<S, M>, e: Effect<S, M>)
    requires ValidJob(job) && Sound(job, site) && Legal(job, site, e)
    ensures Sound(job, Apply(site, e))
  {
    var f := Apply(site, e);
    match e
    case Resumed(step) =>
      FilterIsPrefix(job, site.merged, step);
      forall k: nat | IsIntact(f.slots, k) ensures k <= step {
        assert !(step < k);
      }
    case Emit(_) => assert SlotsOk(job, f.slots, |site.merged|);
    case Publish(step, _, _) =>
      forall k: nat | IsIntact(f.slots, k) ensures k <= |f.merged| && f.slots[k].state == StateAt(job, k) {
        assert k == step || IsIntact(site.slots, k);
      }
    case _ =>
      forall k: nat | IsIntact(f.slots, k) ensures k <= |f.merged| && f.slots[k].state == StateAt(job, k) {
        assert IsIntact(site.slots, k);
      }
  }

  lemma {:induction false} EffectsKeepSound<S, M>(job: Job<S, M>, site: Site<S, M>, es: seq<Effect<S, M>>)
    requires ValidJob(job) && Sound(job, site) && AllLegal(job, site, es)
    ensures Sound(job, ApplyAll(site, es))
    decreases |es|
  {
    if es != [] {
      ApplyKeepsSound(job, site, es[0]);
      EffectsKeepSound(job, Apply(site, es[0]), es[1..]);
    }
  }

  // ----- saving a checkpoint -----

  /** Unpinned lists exactly the unpinned intact steps, in ascending order. */
  lemma {:induction false} UnpinnedExact<S>(slots: map<nat, Slot<S>>, bound: nat)
    ensures forall k: nat :: k in Unpinned(slots, bound) <==> k < bound && IsIntact(slots, k) && !slots[k].pinned
    ensures forall i, j | 0 <= i < j < |Unpinned(slots, bound)| :: Unpinned(slots, bound)[i] < Unpinned(slots, bound)[j]
  {
    if bound > 0 {
      UnpinnedExact(slots, bound - 1);
      var rest := Unpinned(slots, bound - 1);
      forall i | 0 <= i < |rest| ensures rest[i] < bound - 1 {
        assert rest[i] in rest;
      }
    }
  }

  /** Retention never expires the newest intact checkpoint, and expires no pinned one. */
  lemma ExpiredAreOlder<S, M>(job: Job<S, M>, slots: map<nat, Slot<S>>, top: nat)
    requires ValidJob(job) && IsIntact(slots, top) && top <= job.maxSteps
    requires forall k: nat | IsIntact(slots, k) :: k <= top
    ensures forall k: nat | k in Expired(job, slots) :: k < top && IsIntact(slots, k) && !slots[k].pinned
  {
    var all := Unpinned(slots, job.maxSteps + 1);
    UnpinnedExact(slots, job.maxSteps + 1);
    forall k: nat | k in Expired(job, slots)
      ensures k < top && IsIntact(slots, k) && !slots[k].pinned
    {
      var i :| 0 <= i < |all| - job.keepLast && all[i] == k;
      assert all[i] < all[|all| - 1];
      assert all[|all| - 1] in all;
    }
  }

  lemma {:induction false} RemovalsEffect<S, M>(job: Job<S, M>, site: Site<S, M>, steps: seq<nat>, top: nat)
    requires ValidJob(job) && IsIntact(site.slots, top)
    requires forall k: nat | k in steps :: k < top
    ensures AllLegal(job, site, Removals(steps))
    ensures ApplyAll(site, Removals(steps)) == site.(slots := site.slots - (set k: nat | k in steps))
    decreases |steps|
  {
    if steps == [] {
      assert site.slots - (set k: nat | k in steps) == site.slots;
    } else {
      var k := steps[0];
      assert k in steps;
      var wrecked := Apply(site, Wreck(k));
      var removed := Apply(wrecked, Remove(k));
      assert removed.slots == site.slots - {k};
      assert forall j: nat | j in steps[1..] :: j in steps;
      RemovalsEffect(job, removed, steps[1..], top);
      var es: seq<Effect<S, M>> := Removals(steps);
      assert es[1..][1..] == Removals(steps[1..]);
      assert IsIntact(wrecked.slots, top);
      assert IntactAbove(site.slots, k) && IntactAbove(wrecked.slots, k);
      assert removed.slots - (set j: nat | j in steps[1..]) == site.slots - (set j: nat | j in steps);
    }
  }

  /** A save adds its own directory, moves LATEST to it, and loses only older directories. */
  ghost predicate Saved<S, M>(site: Site<S, M>, step: nat, slot: Slot<S>, after: Site<S, M>) {
    && after.created == site.created
    && after.merged == site.merged
    && after.latest == Some(step)
    && step in after.slots && after.slots[step] == slot
    && (forall k: nat | k in after.slots && k != step :: k in site.slots && after.slots[k] == site.slots[k])
    && (forall k: nat | k in site.slots && k > step :: k in after.slots)
  }

  lemma SaveIsLegal<S, M>(job: Job<S, M>, site: Site<S, M>, step: nat, state: S, pinned: bool)
    requires ValidJob(job) && Sound(job, site) && site.created
    requires step == |site.merged| && step !in site.slots && state == StateAt(job, step)
    ensures AllLegal(job, site, SaveEffects(job, site, step, state, pinned))
    ensures Saved(site, step, Intact(state, pinned), ApplyAll(site, SaveEffects(job, site, step, state, pinned)))
  {
    var slots := site.slots[step := Intact(state, pinned)];
    var published := Apply(site, Publish(step, state, pinned));
    var pointed := Apply(published, PointLatest(step));
    var gone := Expired(job, slots);
    ApplyKeepsSound(job, site, Publish(step, state, pinned));
    ExpiredAreOlder(job, slots, step);
    RemovalsEffect(job, pointed, gone, step);
    var head: seq<Effect<S, M>> := [Publish(step, state, pinned), PointLatest(step)];
    assert head[1..] == [PointLatest(step)] && head[1..][1..] == [];
    assert ApplyAll(published, head[1..]) == pointed;
    assert ApplyAll(site, head) == pointed;
    assert AllLegal(job, pointed, head[1..][1..]);
    assert AllLegal(job, published, head[1..]);
    ApplyConcat(site, head, Removals(gone));
    LegalConcat(job, site, head, Removals(gone));
  }

  // ----- the worker loop -----

  /** The trainer is where the metrics are, and a passed boundary has its checkpoint. */
  ghost predicate Ready<S, M>(job: Job<S, M>, site: Site<S, M>, step: nat, state: S)
    requires ValidJob(job)
  {
    && Sound(job, site)
    && site.created
    && |site.merged| == step
    && state == StateAt(job, step)
    && (step > 0 && Boundary(job, step) ==> IsIntact(site.slots, step))
  }

  ghost predicate SameAbove<S>(a: map<nat, Slot<S>>, b: map<nat, Slot<S>>, step: nat) {
    forall k: nat | k > step :: k in a <==> k in b
  }

  lemma EmitIsLegal<S, M>(job: Job<S, M>, site: Site<S, M>, step: nat, state: S)
    requires ValidJob(job) && Ready(job, site, step, state) && step < job.maxSteps
    ensures Legal(job, site, Emit(Metric(step + 1, job.next(state).1)))
    ensures Sound(job, Apply(site, Emit(Metric(step + 1, job.next(state).1))))
    ensures job.next(state).0 == StateAt(job, step + 1)
  {
    ApplyKeepsSound(job, site, Emit(Metric(step + 1, job.next(state).1)));
  }

  lemma PeriodicSaveIsLegal<S, M>(job: Job<S, M>, site: Site<S, M>, step: nat, state: S)
    requires ValidJob(job) && Sound(job, site) && site.created
    requires |site.merged| == step && state == StateAt(job, step)
    ensures PeriodicSave(job, site, step, state).None? <==> Boundary(job, step) && step in site.slots
    ensures PeriodicSave(job, site, step, state).Some? ==>
              var saves := PeriodicSave(job, site, step, state).value;
              var saved := ApplyAll(site, saves);
              && AllLegal(job, site, saves)
              && Ready(job, saved, step, state)
              && SameAbove(site.slots, saved.slots, step)
              && (step in saved.slots <==> Boundary(job, step) || step in site.slots)
  {
    if Boundary(job, step) && step !in site.slots {
      SaveIsLegal(job, site, step, state, false);
      EffectsKeepSound(job, site, SaveEffects(job, site, step, state, false));
    }
  }

  /** No directory stands on a save boundary strictly between two steps. */
  ghost predicate Clear<S, M>(job: Job<S, M>, slots: map<nat, Slot<S>>, lo: nat, hi: nat)
    requires ValidJob(job)
  {
    forall k: nat | k in slots && lo < k < hi :: !Boundary(job, k)
  }

  /** The step at whose end a SIGTERM is acted upon; None when the loop ends first. */
  function Noticed<S, M>(job: Job<S, M>, step: nat, term: Option<nat>): Option<nat> {
    if step < job.maxSteps && term.Some? && Max(term.value, step + 1) <= job.maxSteps
    then Some(Max(term.value, step + 1))
    else None
  }

  ghost predicate ReachesEnd<S, M>(job: Job<S, M>, slots: map<nat, Slot<S>>, step: nat, term: Option<nat>)
    requires ValidJob(job)
  {
    && Noticed(job, step, term).None?
    && Clear(job, slots, step, job.maxSteps)
    && job.maxSteps !in slots
  }

  ghost predicate StopsSafely<S, M>(job: Job<S, M>, slots: map<nat, Slot<S>>, step: nat, term: Option<nat>)
    requires ValidJob(job)
  {
    match Noticed(job, step, term)
    case None => false
    case Some(r) => Clear(job, slots, step, r) && !Boundary(job, r) && r !in slots
  }

  ghost predicate Checkpointed<S, M>(job: Job<S, M>, site: Site<S, M>, step: nat) {
    && |site.merged| == step
    && site.latest == Some(step)
    && step in site.slots
    && site.slots[step] == Intact(StateAt(job, step), true)
  }

  /** One iteration up to its signal check. */
  lemma IterationIsLegal<S, M>(job: Job<S, M>, site: Site<S, M>, step: nat, state: S, saves: seq<Effect<S, M>>)
    requires ValidJob(job) && Ready(job, site, step, state) && step < job.maxSteps
    requires PeriodicSave(job, Apply(site, Emit(Metric(step + 1, job.next(state).1))), step + 1, job.next(state).0)
             == Some(saves)
    ensures var done := [Emit(Metric(step + 1, job.next(state).1))] + saves;
            var saved := ApplyAll(site, done);
            && saved == ApplyAll(Apply(site, Emit(Metric(step + 1, job.next(state).1))), saves)
            && AllLegal(job, site, done)
            && Ready(job, saved, step + 1, job.next(state).0)
            && SameAbove(site.slots, saved.slots, step + 1)
            && (step + 1 in saved.slots <==> Boundary(job, step + 1) || step + 1 in site.slots)
  {
    var emit: Effect<S, M> := Emit(Metric(step + 1, job.next(state).1));
    EmitIsLegal(job, site, step, state);
    PeriodicSaveIsLegal(job, Apply(site, emit), step + 1, job.next(state).0);
    assert ([emit] + saves)[1..] == saves;
  }

  lemma ClearAhead<S, M>(job: Job<S, M>, before: map<nat, Slot<S>>, after: map<nat, Slot<S>>, step: nat, hi: nat)
    requires ValidJob(job) && SameAbove(before, after, step + 1) && step + 1 < hi
    ensures Clear(job, before, step, hi) <==>
            Clear(job, after, step + 1, hi) && !(Boundary(job, step + 1) && step + 1 in before)
  {
    if Clear(job, after, step + 1, hi) && !(Boundary(job, step + 1) && step + 1 in before) {
      forall k: nat | k in before && step < k < hi ensures !Boundary(job, k) {
        assert k == step + 1 || k in after;
      }
    }
    if Clear(job, before, step, hi) {
      forall k: nat | k in after && step + 1 < k < hi ensures !Boundary(job, k) {
        assert k in before;
      }
    }
  }

  /** What a session promises about its start and its end. */
  ghost predicate Delivers<S, M>(
    job: Job<S, M>, site: Site<S, M>, step: nat, term: Option<nat>, run: Session<S, M>)
    requires ValidJob(job)
  {
    && AllLegal(job, site, run.effects)
    && (run.ending.Succeeded? ==> Checkpointed(job, ApplyAll(site, run.effects), job.maxSteps))
    && (run.ending.Terminated? ==>
          && Noticed(job, step, term).Some?
          && Checkpointed(job, ApplyAll(site, run.effects), Noticed(job, step, term).value))
  }

  lemma {:induction false} LoopDelivers<S, M>(job: Job<S, M>, site: Site<S, M>, step: nat, state: S, term: Option<nat>)
    requires ValidJob(job) && Ready(job, site, step, state)
    ensures Delivers(job, site, step, term, Loop(job, site, step, state, term))
    decreases job.maxSteps - step
  {
    if step >= job.maxSteps {
      if step !in site.slots {
        SaveIsLegal(job, site, step, state, true);
      }
    } else {
      var (after, value) := job.next(state);
      var emit: Effect<S, M> := Emit(Metric(step + 1, value));
      EmitIsLegal(job, site, step, state);
      match PeriodicSave(job, Apply(site, emit), step + 1, after)
      case None => assert [emit][1..] == [];
      case Some(saves) =>
        var done := [emit] + saves;
        var saved := ApplyAll(site, done);
        IterationIsLegal(job, site, step, state, saves);
        if term.Some? && term.value <= step + 1 {
          if step + 1 !in saved.slots {
            SaveIsLegal(job, saved, step + 1, after, true);
            ApplyConcat(site, done, SaveEffects(job, saved, step + 1, after, true));
            LegalConcat(job, site, done, SaveEffects(job, saved, step + 1, after, true));
          }
        } else {
          LoopDelivers(job, saved, step + 1, after, term);
          var rest := Loop(job, saved, step + 1, after, term);
          ApplyConcat(site, done, rest.effects);
          LegalConcat(job, site, done, rest.effects);
        }
    }
  }

  /** How the loop ends, decided by the directories ahead of it and the signal alone. */
  lemma {:induction false} LoopEnding<S, M>(job: Job<S, M>, site: Site<S, M>, step: nat, state: S, term: Option<nat>)
    requires ValidJob(job) && Ready(job, site, step, state)
    ensures Loop(job, site, step, state, term).ending.Succeeded? <==> ReachesEnd(job, site.slots, step, term)
    ensures Loop(job, site, step, state, term).ending.Terminated? <==> StopsSafely(job, site.slots, step, term)
    decreases job.maxSteps - step
  {
    if step < job.maxSteps {
      var (after, value) := job.next(state);
      var emitted := Apply(site, Emit(Metric(step + 1, value)));
      EmitIsLegal(job, site, step, state);
      PeriodicSaveIsLegal(job, emitted, step + 1, after);
      match PeriodicSave(job, emitted, step + 1, after)
      case None =>
        assert step + 1 in site.slots && Boundary(job, step + 1);
      case Some(saves) =>
        var saved := ApplyAll(emitted, saves);
        IterationIsLegal(job, site, step, state, saves);
        if !(term.Some? && term.value <= step + 1) && step + 1 < job.maxSteps {
          LoopEnding(job, saved, step + 1, after, term);
          var hi := if Noticed(job, step, term).Some? then Noticed(job, step, term).value else job.maxSteps;
          ClearAhead(job, site.slots, saved.slots, step, hi);
        }
    }
  }
}
