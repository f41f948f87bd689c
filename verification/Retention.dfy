/**
 Which checkpoint directories are there: what one retention removes, said directory by directory, and
 what the run that nobody interrupts leaves behind.
 */
module Retention {
  import opened Wrappers
  import opened TrainingSpec
  import opened TrainingTheorems
  import opened TrainingRuns

  predicate IsUnpinned<S>(slots: map<nat, Slot<S>>, step: nat) {
    IsIntact(slots, step) && !slots[step].pinned
  }

  /** The unpinned intact directories above a step. */
  ghost function UnpinnedAbove<S>(slots: map<nat, Slot<S>>, step: nat): set<nat> {
    set k | k in slots && step < k && IsUnpinned(slots, k)
  }

  ghost function AllUnpinned<S>(slots: map<nat, Slot<S>>): set<nat> {
    set k | k in slots && IsUnpinned(slots, k)
  }

  // ----- counting -----

  predicate Ascending(steps: seq<nat>) {
    forall i, j | 0 <= i < j < |steps| :: steps[i] < steps[j]
  }

  ghost function Elements(steps: seq<nat>): set<nat> {
    set k | k in steps
  }

  lemma {:induction false} AscendingCount(steps: seq<nat>)
    requires Ascending(steps)
    ensures |Elements(steps)| == |steps|
    decreases |steps|
  {
    if steps != [] {
      var n := |steps| - 1;
      var rest := steps[..n];
      AscendingCount(rest);
      assert steps == rest + [steps[n]];
      assert Elements(steps) == Elements(rest) + {steps[n]};
      assert steps[n] !in Elements(rest);
    } else {
      assert Elements(steps) == {};
    }
  }

  lemma SuffixCount(steps: seq<nat>, n: nat)
    requires Ascending(steps) && n <= |steps|
    ensures |Elements(steps[n..])| == |steps| - n
  {
    forall i, j | 0 <= i < j < |steps[n..]| ensures steps[n..][i] < steps[n..][j] {
      assert steps[n + i] < steps[n + j];
    }
    AscendingCount(steps[n..]);
  }

  ghost function Higher(steps: seq<nat>, step: nat): set<nat> {
    set k | k in steps && step < k
  }

  /** The rank of an entry of an ascending list is the number of entries above it. */
  lemma RankIsCount(steps: seq<nat>, i: nat)
    requires Ascending(steps) && i < |steps|
    ensures |Higher(steps, steps[i])| == |steps| - 1 - i
  {
    var above := steps[i + 1..];
    SuffixCount(steps, i + 1);
    forall k: nat ensures k in above <==> k in steps && steps[i] < k {
      if k in steps && steps[i] < k {
        var j :| 0 <= j < |steps| && steps[j] == k;
        assert j > i && above[j - i - 1] == k;
      }
    }
    assert Higher(steps, steps[i]) == Elements(above);
  }

  // ----- one retention -----

  /** No intact directory is ahead of the last step. */
  ghost predicate WithinJob<S, M>(job: Job<S, M>, slots: map<nat, Slot<S>>) {
    forall k: nat | IsIntact(slots, k) :: k <= job.maxSteps
  }

  lemma UnpinnedList<S, M>(job: Job<S, M>, slots: map<nat, Slot<S>>)
    requires WithinJob(job, slots)
    ensures Ascending(Unpinned(slots, job.maxSteps + 1))
    ensures forall k: nat :: k in Unpinned(slots, job.maxSteps + 1) <==> IsUnpinned(slots, k)
  {
    UnpinnedExact(slots, job.maxSteps + 1);
  }

  /** A directory expires exactly when it is unpinned and at least keepLast unpinned ones stand above it. */
  lemma ExpiredIff<S, M>(job: Job<S, M>, slots: map<nat, Slot<S>>, k: nat)
    requires ValidJob(job) && WithinJob(job, slots)
    ensures k in Expired(job, slots) <==> IsUnpinned(slots, k) && |UnpinnedAbove(slots, k)| >= job.keepLast
  {
    var all := Unpinned(slots, job.maxSteps + 1);
    UnpinnedList(job, slots);
    if IsUnpinned(slots, k) {
      var i :| 0 <= i < |all| && all[i] == k;
      RankIsCount(all, i);
      forall h: nat ensures h in UnpinnedAbove(slots, k) <==> h in all && all[i] < h {
        assert h in all <==> IsUnpinned(slots, h);
      }
      assert UnpinnedAbove(slots, k) == Higher(all, k);
      if k in Expired(job, slots) {
        var j :| 0 <= j < |all| - job.keepLast && all[j] == k;
        assert i == j;
      }
    }
  }

  lemma {:induction false} RemovalsExact<S, M>(site: Site<S, M>, steps: seq<nat>)
    ensures ApplyAll(site, Removals(steps)) == site.(slots := site.slots - Elements(steps))
    decreases |steps|
  {
    if steps != [] {
      var k := steps[0];
      var es: seq<Effect<S, M>> := Removals(steps);
      var removed := Apply(Apply(site, Wreck(k)), Remove(k));
      assert es[1..][0] == Remove(k) && es[1..][1..] == Removals(steps[1..]);
      assert ApplyAll(site, es) == ApplyAll(removed, Removals(steps[1..]));
      assert removed == site.(slots := site.slots - {k});
      RemovalsExact(removed, steps[1..]);
      assert Elements(steps) == Elements(steps[1..]) + {k};
      assert site.slots - {k} - Elements(steps[1..]) == site.slots - Elements(steps);
    } else {
      assert site.slots - Elements(steps) == site.slots;
    }
  }

  /** What retention leaves: everything but the unpinned directories with keepLast or more above them. */
  ghost predicate Retained<S, M>(job: Job<S, M>, before: map<nat, Slot<S>>, after: map<nat, Slot<S>>) {
    && (forall k: nat :: k in after <==>
          k in before && !(IsUnpinned(before, k) && |UnpinnedAbove(before, k)| >= job.keepLast))
    && (forall k: nat | k in after :: after[k] == before[k])
    && |AllUnpinned(after)| == Min(job.keepLast, |AllUnpinned(before)|)
  }

  lemma SuffixElements(steps: seq<nat>, n: nat, k: nat)
    requires Ascending(steps) && n <= |steps|
    ensures k in steps[n..] <==> k in steps && k !in steps[..n]
  {
    if k in steps {
      var i :| 0 <= i < |steps| && steps[i] == k;
      if i < n {
        assert steps[..n][i] == k;
      } else {
        assert steps[n..][i - n] == k;
      }
    }
  }

  lemma AllUnpinnedListed<S, M>(job: Job<S, M>, slots: map<nat, Slot<S>>)
    requires WithinJob(job, slots)
    ensures AllUnpinned(slots) == Elements(Unpinned(slots, job.maxSteps + 1))
  {
    UnpinnedList(job, slots);
    forall k: nat ensures k in AllUnpinned(slots) <==> k in Unpinned(slots, job.maxSteps + 1) {
      assert k in Unpinned(slots, job.maxSteps + 1) <==> IsUnpinned(slots, k);
    }
  }

  lemma SurvivorsListed<S>(slots: map<nat, Slot<S>>, all: seq<nat>, n: nat)
    requires Ascending(all) && n <= |all| && AllUnpinned(slots) == Elements(all)
    ensures AllUnpinned(slots - Elements(all[..n])) == Elements(all[n..])
  {
    forall k: nat ensures k in AllUnpinned(slots - Elements(all[..n])) <==> k in all[n..] {
      SuffixElements(all, n, k);
      assert k in all <==> k in AllUnpinned(slots);
    }
  }

  lemma ExpiredIsPrefix<S, M>(job: Job<S, M>, slots: map<nat, Slot<S>>) returns (n: nat)
    ensures n == Max(0, |Unpinned(slots, job.maxSteps + 1)| - job.keepLast)
    ensures n <= |Unpinned(slots, job.maxSteps + 1)|
    ensures Expired(job, slots) == Unpinned(slots, job.maxSteps + 1)[..n]
  {
    n := Max(0, |Unpinned(slots, job.maxSteps + 1)| - job.keepLast);
  }

  lemma RemainingCount<S, M>(job: Job<S, M>, before: map<nat, Slot<S>>)
    requires ValidJob(job) && WithinJob(job, before)
    ensures |AllUnpinned(before - Elements(Expired(job, before)))| == Min(job.keepLast, |AllUnpinned(before)|)
  {
    var all := Unpinned(before, job.maxSteps + 1);
    var n := ExpiredIsPrefix(job, before);
    UnpinnedList(job, before);
    AllUnpinnedListed(job, before);
    SurvivorsListed(before, all, n);
    SuffixCount(all, n);
    AscendingCount(all);
  }

  /** Retention by itself. */
  lemma RetentionExact<S, M>(job: Job<S, M>, site: Site<S, M>)
    requires ValidJob(job) && WithinJob(job, site.slots)
    ensures var after := ApplyAll(site, Removals(Expired(job, site.slots)));
            after == site.(slots := after.slots) && Retained(job, site.slots, after.slots)
  {
    RemovalsExact(site, Expired(job, site.slots));
    RemainingCount(job, site.slots);
    var after := ApplyAll(site, Removals(Expired(job, site.slots)));
    forall k: nat ensures k in after.slots <==>
      k in site.slots && !(IsUnpinned(site.slots, k) && |UnpinnedAbove(site.slots, k)| >= job.keepLast)
    {
      ExpiredIff(job, site.slots, k);
    }
  }

  lemma SaveThenRetain<S, M>(job: Job<S, M>, site: Site<S, M>, step: nat, state: S, pinned: bool)
    ensures var slots := site.slots[step := Intact(state, pinned)];
            ApplyAll(site, SaveEffects(job, site, step, state, pinned))
            == ApplyAll(site.(slots := slots, latest := Some(step)), Removals(Expired(job, slots)))
  {
    var slots := site.slots[step := Intact(state, pinned)];
    var head: seq<Effect<S, M>> := [Publish(step, state, pinned), PointLatest(step)];
    ApplyConcat(site, head, Removals(Expired(job, slots)));
    assert head[1..] == [PointLatest(step)] && head[1..][1..] == [];
  }

  /** A completed save: its directory, LATEST, and then exactly what retention leaves. */
  lemma SaveRetains<S, M>(job: Job<S, M>, site: Site<S, M>, step: nat, state: S, pinned: bool)
    requires ValidJob(job) && WithinJob(job, site.slots) && step <= job.maxSteps
    ensures var slots := site.slots[step := Intact(state, pinned)];
            var after := ApplyAll(site, SaveEffects(job, site, step, state, pinned));
            && after == site.(slots := after.slots, latest := Some(step))
            && Retained(job, slots, after.slots)
  {
    var slots := site.slots[step := Intact(state, pinned)];
    SaveThenRetain(job, site, step, state, pinned);
    forall k: nat | IsIntact(slots, k) ensures k <= job.maxSteps {
      assert k == step || IsIntact(site.slots, k);
    }
    RetentionExact(job, site.(slots := slots, latest := Some(step)));
  }

  // ----- the directories of the uninterrupted run -----

  /** The save boundaries after one step and up to another. */
  ghost function Boundaries<S, M>(job: Job<S, M>, lo: nat, hi: nat): set<nat>
    requires ValidJob(job)
  {
    set k: nat | lo < k <= hi && Boundary(job, k)
  }

  /** The directories are those of the newest keepLast boundaries that were passed. */
  ghost predicate Newest<S, M>(job: Job<S, M>, slots: map<nat, Slot<S>>, step: nat)
    requires ValidJob(job)
  {
    && (forall k: nat :: k in slots <==>
          0 < k <= step && Boundary(job, k) && |Boundaries(job, k, step)| < job.keepLast)
    && (forall k: nat | k in slots :: IsUnpinned(slots, k))
  }

  lemma {:induction false} SubsetSize(a: set<nat>, b: set<nat>)
    requires a <= b
    ensures |a| <= |b|
    decreases a
  {
    if x :| x in a {
      SubsetSize(a - {x}, b - {x});
    }
  }

  /** Passing a step that is no boundary changes nothing. */
  lemma NoBoundary<S, M>(job: Job<S, M>, slots: map<nat, Slot<S>>, step: nat)
    requires ValidJob(job) && Newest(job, slots, step) && !Boundary(job, step + 1)
    ensures Newest(job, slots, step + 1)
  {
    forall k: nat ensures Boundaries(job, k, step) == Boundaries(job, k, step + 1) {
    }
  }

  /** Among the newest directories, what stands above one of them are the boundaries after it. */
  lemma AboveKept<S, M>(job: Job<S, M>, slots: map<nat, Slot<S>>, step: nat, state: S, k: nat)
    requires ValidJob(job) && Newest(job, slots, step) && Boundary(job, step + 1)
    requires k in slots
    ensures UnpinnedAbove(slots[step + 1 := Intact(state, false)], k) == Boundaries(job, k, step + 1)
  {
    var with := slots[step + 1 := Intact(state, false)];
    forall h: nat ensures h in UnpinnedAbove(with, k) <==> h in Boundaries(job, k, step + 1) {
      if h in slots {
        assert IsUnpinned(slots, h);
      }
      if h in Boundaries(job, k, step) {
        assert Boundaries(job, h, step) <= Boundaries(job, k, step);
        SubsetSize(Boundaries(job, h, step), Boundaries(job, k, step));
      }
    }
  }

  lemma BoundarySaved<S, M>(
    job: Job<S, M>, slots: map<nat, Slot<S>>, step: nat, state: S, after: map<nat, Slot<S>>)
    requires ValidJob(job) && Newest(job, slots, step) && Boundary(job, step + 1)
    requires Retained(job, slots[step + 1 := Intact(state, false)], after)
    ensures Newest(job, after, step + 1)
  {
    var with := slots[step + 1 := Intact(state, false)];
    forall k: nat ensures k in after <==>
      0 < k <= step + 1 && Boundary(job, k) && |Boundaries(job, k, step + 1)| < job.keepLast
    {
      if k == step + 1 {
        assert UnpinnedAbove(with, k) == {} && Boundaries(job, k, k) == {};
      } else if k in slots {
        AboveKept(job, slots, step, state, k);
        assert IsUnpinned(slots, k) && IsUnpinned(with, k);
      } else {
        assert Boundaries(job, k, step) <= Boundaries(job, k, step + 1);
        SubsetSize(Boundaries(job, k, step), Boundaries(job, k, step + 1));
      }
    }
    forall k: nat | k in after ensures IsUnpinned(after, k) {
      if k in slots {
        assert IsUnpinned(slots, k);
      }
    }
  }

  /** The last, pinned save removes nothing. */
  lemma LastSaved<S, M>(job: Job<S, M>, slots: map<nat, Slot<S>>, state: S, after: map<nat, Slot<S>>)
    requires ValidJob(job) && Newest(job, slots, job.maxSteps)
    requires Retained(job, slots[job.maxSteps := Intact(state, true)], after)
    ensures after == slots[job.maxSteps := Intact(state, true)]
  {
    var with := slots[job.maxSteps := Intact(state, true)];
    forall k: nat | k in with ensures k in after {
      if k in slots {
        forall h: nat | h in UnpinnedAbove(with, k) ensures h in Boundaries(job, k, job.maxSteps) {
          assert h in slots;
        }
        SubsetSize(UnpinnedAbove(with, k), Boundaries(job, k, job.maxSteps));
      }
    }
  }

  /** The directories after the last step: the newest boundaries, and the final one, which is pinned. */
  ghost predicate FinalDirectories<S, M>(job: Job<S, M>, slots: map<nat, Slot<S>>)
    requires ValidJob(job)
  {
    && (forall k: nat :: k in slots <==>
          || k == job.maxSteps
          || (k > 0 && Boundary(job, k) && |Boundaries(job, k, job.maxSteps)| < job.keepLast))
    && (forall k: nat | k in slots :: IsIntact(slots, k) && (slots[k].pinned <==> k == job.maxSteps))
  }

  lemma LastSaveIsFinal<S, M>(job: Job<S, M>, site: Site<S, M>, state: S)
    requires ValidJob(job) && Newest(job, site.slots, job.maxSteps) && WithinJob(job, site.slots)
    ensures FinalDirectories(job, ApplyAll(site, SaveEffects(job, site, job.maxSteps, state, true)).slots)
  {
    SaveRetains(job, site, job.maxSteps, state, true);
    LastSaved(job, site.slots, state, ApplyAll(site, SaveEffects(job, site, job.maxSteps, state, true)).slots);
    forall k: nat | k in site.slots ensures IsUnpinned(site.slots, k) && k != job.maxSteps {
      assert Boundary(job, k);
    }
  }

  lemma SoundIsWithin<S, M>(job: Job<S, M>, site: Site<S, M>)
    requires Sound(job, site)
    ensures WithinJob(job, site.slots)
  {
  }

  /** One undisturbed iteration: its save, if one is due, goes through and keeps the newest boundaries. */
  lemma IterationKeepsNewest<S, M>(job: Job<S, M>, site: Site<S, M>, step: nat, state: S)
    returns (saves: seq<Effect<S, M>>)
    requires ValidJob(job) && Ready(job, site, step, state) && step < job.maxSteps
    requires Newest(job, site.slots, step)
    ensures var emitted := Apply(site, Emit(Metric(step + 1, job.next(state).1)));
            && PeriodicSave(job, emitted, step + 1, job.next(state).0) == Some(saves)
            && Newest(job, ApplyAll(emitted, saves).slots, step + 1)
  {
    var after := job.next(state).0;
    var emitted := Apply(site, Emit(Metric(step + 1, job.next(state).1)));
    SoundIsWithin(job, site);
    assert step + 1 !in site.slots;
    saves := PeriodicSave(job, emitted, step + 1, after).value;
    if Boundary(job, step + 1) {
      SaveRetains(job, emitted, step + 1, after, false);
      BoundarySaved(job, site.slots, step, after, ApplyAll(emitted, saves).slots);
    } else {
      NoBoundary(job, site.slots, step);
    }
  }

  lemma {:induction false} LoopKeepsNewest<S, M>(job: Job<S, M>, site: Site<S, M>, step: nat, state: S)
    requires ValidJob(job) && Ready(job, site, step, state) && step <= job.maxSteps
    requires Newest(job, site.slots, step)
    ensures FinalDirectories(job, ApplyAll(site, Loop(job, site, step, state, None).effects).slots)
    decreases job.maxSteps - step
  {
    SoundIsWithin(job, site);
    if step == job.maxSteps {
      assert step !in site.slots;
      LastSaveIsFinal(job, site, state);
    } else {
      var (after, value) := job.next(state);
      var saves := IterationKeepsNewest(job, site, step, state);
      var done := [Emit(Metric(step + 1, value))] + saves;
      var saved := ApplyAll(site, done);
      IterationIsLegal(job, site, step, state, saves);
      LoopKeepsNewest(job, saved, step + 1, after);
      ApplyConcat(site, done, Loop(job, saved, step + 1, after, None).effects);
    }
  }

  /**
   The run that nobody interrupts leaves the checkpoints of the newest keepLast save boundaries, none of
   them pinned, the pinned one of its last step, and no other directory; each holds the state of its step.
   */
  lemma BaselineDirectories<S, M>(job: Job<S, M>)
    requires ValidJob(job)
    ensures FinalDirectories(job, Baseline(job).slots)
    ensures forall k: nat | k in Baseline(job).slots :: Baseline(job).slots[k].state == StateAt(job, k)
  {
    var begun: Site<S, M> := Apply(NewSite(), MakeSite);
    LoopKeepsNewest(job, begun, 0, job.init);
    var rest := Loop(job, begun, 0, job.init, None).effects;
    assert ([MakeSite] + rest)[1..] == rest;
    BaselineSucceeds(job);
    forall k: nat | k in Baseline(job).slots ensures Baseline(job).slots[k].state == StateAt(job, k) {
      assert IsIntact(Baseline(job).slots, k);
    }
  }
}
