/**
 The worker process and its checkpoint store, step by step.  `effectsLeft` is how many effects the
 process lives to complete; when it runs out the process is gone.
 */
module TrainingWorker {
  import opened Wrappers
  import opened TrainingSpec
  import opened TrainingTheorems

  ghost predicate Performed<S, M>(
    before: Site<S, M>, budget: nat, effects: seq<Effect<S, M>>, after: Site<S, M>, left: nat)
  {
    && after == ApplyAll(before, Cut(effects, budget))
    && left == if |effects| <= budget then budget - |effects| else 0
  }

  lemma NothingPerformed<S, M>(site: Site<S, M>, budget: nat)
    ensures Performed(site, budget, [], site, budget)
  {
  }

  lemma Chain<S, M>(
    s0: Site<S, M>, n0: nat, a: seq<Effect<S, M>>, s1: Site<S, M>, n1: nat,
    b: seq<Effect<S, M>>, s2: Site<S, M>, n2: nat)
    requires Performed(s0, n0, a, s1, n1) && |a| <= n0
    requires Performed(s1, n1, b, s2, n2)
    ensures Performed(s0, n0, a + b, s2, n2)
  {
    assert Cut(a + b, n0) == a + Cut(b, n1);
    ApplyConcat(s0, a, Cut(b, n1));
  }

  lemma Dead<S, M>(s0: Site<S, M>, n0: nat, a: seq<Effect<S, M>>, s1: Site<S, M>, n1: nat, b: seq<Effect<S, M>>)
    requires Performed(s0, n0, a, s1, n1) && |a| > n0
    ensures Performed(s0, n0, a + b, s1, n1) && |a + b| > n0
  {
    assert Cut(a + b, n0) == Cut(a, n0);
  }

  /** `done` of the session is performed and `rest` remains. */
  ghost predicate Pending<S, M>(
    s0: Site<S, M>, n0: nat, run: Session<S, M>, done: seq<Effect<S, M>>, rest: Session<S, M>,
    site: Site<S, M>, left: nat)
  {
    && Performed(s0, n0, done, site, left) && |done| <= n0
    && run == Session(done + rest.effects, rest.ending)
  }

  /** The session is over; no ending when the process died before its last effect. */
  ghost predicate Closed<S, M>(
    s0: Site<S, M>, n0: nat, run: Session<S, M>, ending: Option<Ending>, site: Site<S, M>, left: nat)
  {
    && Performed(s0, n0, run.effects, site, left)
    && ending == if |run.effects| <= n0 then Some(run.ending) else None
  }

  lemma ChainGoing<S, M>(
    s0: Site<S, M>, n0: nat, run: Session<S, M>, done: seq<Effect<S, M>>, left: Session<S, M>, s1: Site<S, M>, n1: nat,
    more: seq<Effect<S, M>>, rest: Session<S, M>, s2: Site<S, M>, n2: nat)
    requires Pending(s0, n0, run, done, left, s1, n1)
    requires Performed(s1, n1, more, s2, n2) && |more| <= n1
    requires left == Session(more + rest.effects, rest.ending)
    ensures Pending(s0, n0, run, done + more, rest, s2, n2)
  {
    Chain(s0, n0, done, s1, n1, more, s2, n2);
    assert done + left.effects == done + more + rest.effects;
  }

  lemma ChainClosed<S, M>(
    s0: Site<S, M>, n0: nat, run: Session<S, M>, done: seq<Effect<S, M>>, left: Session<S, M>, s1: Site<S, M>, n1: nat,
    ending: Option<Ending>, s2: Site<S, M>, n2: nat)
    requires Pending(s0, n0, run, done, left, s1, n1) && Closed(s1, n1, left, ending, s2, n2)
    ensures Closed(s0, n0, run, ending, s2, n2)
  {
    Chain(s0, n0, done, s1, n1, left.effects, s2, n2);
  }

  datatype SaveOutcome = Stored | Refused | Killed

  datatype Progress<S> = Going(state: S) | Ended(ending: Ending) | Gone

  class Worker<S, M> {
    const job: Job<S, M>
    var site: Site<S, M>
    var effectsLeft: nat

    constructor (job: Job<S, M>, site: Site<S, M>, effectsLeft: nat)
      requires ValidJob(job)
      ensures this.job == job && this.site == site && this.effectsLeft == effectsLeft
    {
      this.job, this.site, this.effectsLeft := job, site, effectsLeft;
    }

    method Perform(e: Effect<S, M>) returns (alive: bool)
      modifies this
      ensures alive == (old(effectsLeft) > 0)
      ensures alive ==> site == Apply(old(site), e)
      ensures Performed(old(site), old(effectsLeft), [e], site, effectsLeft)
    {
      alive := effectsLeft > 0;
      if alive {
        site := Apply(site, e);
        effectsLeft := effectsLeft - 1;
        assert Cut([e], old(effectsLeft))[1..] == [];
      }
    }

    /** The highest directory that validates; damaged ones above it are skipped. */
    method LatestValidStep() returns (found: Option<nat>)
      ensures found == LatestValid(site.slots, job.maxSteps + 1)
    {
      var bound: nat := job.maxSteps + 1;
      while bound > 0
        invariant LatestValid(site.slots, job.maxSteps + 1) == LatestValid(site.slots, bound)
      {
        if IsIntact(site.slots, bound - 1) {
          return Some(bound - 1);
        }
        bound := bound - 1;
      }
      return None;
    }

    method UnpinnedSteps() returns (steps: seq<nat>)
      ensures steps == Unpinned(site.slots, job.maxSteps + 1)
    {
      steps := [];
      for bound := 0 to job.maxSteps + 1
        invariant steps == Unpinned(site.slots, bound)
      {
        if IsIntact(site.slots, bound) && !site.slots[bound].pinned {
          steps := steps + [bound];
        }
      }
    }

    /** Remove all but the newest keepLast of the unpinned directories. */
    method ApplyRetention() returns (alive: bool)
      requires ValidJob(job)
      modifies this
      ensures Performed(old(site), old(effectsLeft), Removals(Expired(job, old(site.slots))), site, effectsLeft)
      ensures alive == (|Removals<S, M>(Expired(job, old(site.slots)))| <= old(effectsLeft))
    {
      var steps := UnpinnedSteps();
      var gone := if |steps| <= job.keepLast then [] else steps[..|steps| - job.keepLast];
      ghost var done: seq<Effect<S, M>> := [];
      NothingPerformed(site, effectsLeft);
      assert gone[0..] == gone;
      for i := 0 to |gone|
        invariant done + Removals(gone[i..]) == Removals(gone)
        invariant Performed(old(site), old(effectsLeft), done, site, effectsLeft) && |done| <= old(effectsLeft)
      {
        alive, done := RemoveNext(gone[i..], gone[i], old(site), old(effectsLeft), done);
        assert gone[i..][1..] == gone[i + 1..];
        if !alive {
          return;
        }
      }
      assert done + [] == done;
      alive := true;
    }

    method RemoveNext(
      ghost todo: seq<nat>, step: nat, ghost s0: Site<S, M>, ghost n0: nat, ghost done: seq<Effect<S, M>>)
      returns (alive: bool, ghost total: seq<Effect<S, M>>)
      requires todo != [] && todo[0] == step
      requires Performed(s0, n0, done, site, effectsLeft) && |done| <= n0
      modifies this
      ensures total + Removals(todo[1..]) == done + Removals(todo)
      ensures alive ==> |total| <= n0 && Performed(s0, n0, total, site, effectsLeft)
      ensures !alive ==> var all := done + Removals(todo);
                         |all| > n0 && Performed(s0, n0, all, site, effectsLeft)
    {
      ghost var pair: seq<Effect<S, M>> := [Wreck(step), Remove(step)];
      ghost var rest: seq<Effect<S, M>> := Removals(todo[1..]);
      alive := RemoveDirectory(step, s0, n0, done);
      total := done + pair;
      assert total + rest == done + (pair + rest);
      if !alive {
        Dead(s0, n0, total, site, effectsLeft, rest);
      }
    }

    /** Removing a directory is not atomic: it is incomplete before it is gone. */
    method RemoveDirectory(step: nat, ghost s0: Site<S, M>, ghost n0: nat, ghost done: seq<Effect<S, M>>)
      returns (alive: bool)
      requires Performed(s0, n0, done, site, effectsLeft) && |done| <= n0
      modifies this
      ensures Performed(s0, n0, done + [Wreck(step), Remove(step)], site, effectsLeft)
      ensures alive == (|done| + 2 <= n0)
    {
      ghost var s1, n1 := site, effectsLeft;
      alive := Perform(Wreck(step));
      Chain(s0, n0, done, s1, n1, [Wreck(step)], site, effectsLeft);
      assert done + [Wreck(step)] + [Remove(step)] == done + [Wreck(step), Remove(step)];
      if alive {
        ghost var s2, n2 := site, effectsLeft;
        alive := Perform(Remove(step));
        Chain(s0, n0, done + [Wreck(step)], s2, n2, [Remove(step)], site, effectsLeft);
      } else {
        Dead(s0, n0, done + [Wreck(step)], site, effectsLeft, [Remove(step)]);
      }
    }

    /** Publish a checkpoint under a free name, move LATEST, apply retention. */
    method Save(step: nat, state: S, pinned: bool) returns (outcome: SaveOutcome)
      requires ValidJob(job)
      modifies this
      ensures step in old(site.slots) ==>
                outcome == Refused && site == old(site) && effectsLeft == old(effectsLeft)
      ensures step !in old(site.slots) ==>
                var effects := SaveEffects(job, old(site), step, state, pinned);
                && Performed(old(site), old(effectsLeft), effects, site, effectsLeft)
                && outcome == if |effects| <= old(effectsLeft) then Stored else Killed
    {
      if step in site.slots {
        return Refused;
      }
      ghost var s0, n0 := site, effectsLeft;
      ghost var removals: seq<Effect<S, M>> :=
        Removals(Expired(job, site.slots[step := Intact(state, pinned)]));
      var alive := Perform(Publish(step, state, pinned));
      if !alive {
        Dead(s0, n0, [Publish(step, state, pinned)], site, effectsLeft, [PointLatest(step)] + removals);
        assert [Publish(step, state, pinned)] + ([PointLatest(step)] + removals)
               == SaveEffects(job, s0, step, state, pinned);
        return Killed;
      }
      ghost var s1, n1 := site, effectsLeft;
      alive := Perform(PointLatest(step));
      ghost var head: seq<Effect<S, M>> := [Publish(step, state, pinned), PointLatest(step)];
      Chain(s0, n0, [Publish(step, state, pinned)], s1, n1, [PointLatest(step)], site, effectsLeft);
      assert [Publish(step, state, pinned)] + [PointLatest(step)] == head;
      if !alive {
        Dead(s0, n0, head, site, effectsLeft, removals);
        return Killed;
      }
      ghost var s2, n2 := site, effectsLeft;
      assert s2.slots == s0.slots[step := Intact(state, pinned)];
      alive := ApplyRetention();
      Chain(s0, n0, head, s2, n2, removals, site, effectsLeft);
      outcome := if alive then Stored else Killed;
    }

    /** One pass of the loop: step, metric, periodic save, signal check. */
    method Iterate(step: nat, state: S, term: Option<nat>)
      returns (progress: Progress<S>, ghost done: seq<Effect<S, M>>)
      requires ValidJob(job) && step < job.maxSteps
      modifies this
      ensures var run := Loop(job, old(site), step, state, term);
              match progress
              case Going(after) =>
                var rest := Loop(job, site, step + 1, after, term);
                && |done| <= old(effectsLeft)
                && Performed(old(site), old(effectsLeft), done, site, effectsLeft)
                && run == Session(done + rest.effects, rest.ending)
              case Ended(ending) =>
                && |run.effects| <= old(effectsLeft) && ending == run.ending
                && Performed(old(site), old(effectsLeft), run.effects, site, effectsLeft)
              case Gone =>
                && |run.effects| > old(effectsLeft)
                && Performed(old(site), old(effectsLeft), run.effects, site, effectsLeft)
    {
      ghost var s0, n0 := site, effectsLeft;
      ghost var run := Loop(job, site, step, state, term);
      var (after, value) := job.next(state);
      var reached := step + 1;
      done := [Emit(Metric(reached, value))];
      var alive := Perform(Emit(Metric(reached, value)));
      ghost var emitted := Apply(s0, Emit(Metric(reached, value)));
      if !alive {
        assert run.effects == done + run.effects[1..];
        Dead(s0, n0, done, site, effectsLeft, run.effects[1..]);
        return Gone, done;
      }
      if Boundary(job, reached) {
        ghost var n1 := effectsLeft;
        var outcome := Save(reached, after, false);
        if outcome == Refused {
          return Ended(SaveRefused), done;
        }
        ghost var saves := SaveEffects(job, emitted, reached, after, false);
        Chain(s0, n0, done, emitted, n1, saves, site, effectsLeft);
        done := done + saves;
        if outcome == Killed {
          assert run.effects == done + run.effects[|done|..];
          Dead(s0, n0, done, site, effectsLeft, run.effects[|done|..]);
          return Gone, done;
        }
        assert Cut(saves, n1) == saves;
      } else {
        assert done + [] == done;
      }
      if term.Some? && term.value <= reached {
        ghost var s1, n1 := site, effectsLeft;
        var outcome := Save(reached, after, true);
        if outcome == Refused {
          return Ended(SaveRefused), done;
        }
        Chain(s0, n0, done, s1, n1, SaveEffects(job, s1, reached, after, true), site, effectsLeft);
        progress := if outcome == Killed then Gone else Ended(Terminated);
      } else {
        progress := Going(after);
      }
    }

    /** One pass, on the account of the whole session. */
    method Advance(step: nat, state: S, term: Option<nat>, ghost s0: Site<S, M>, ghost n0: nat,
                   ghost run: Session<S, M>, ghost done: seq<Effect<S, M>>)
      returns (progress: Progress<S>, ghost total: seq<Effect<S, M>>)
      requires ValidJob(job) && step < job.maxSteps
      requires Pending(s0, n0, run, done, Loop(job, site, step, state, term), site, effectsLeft)
      modifies this
      ensures progress.Going? ==>
                Pending(s0, n0, run, total, Loop(job, site, step + 1, progress.state, term), site, effectsLeft)
      ensures progress.Ended? ==> Closed(s0, n0, run, Some(progress.ending), site, effectsLeft)
      ensures progress.Gone? ==> Closed(s0, n0, run, None, site, effectsLeft)
    {
      ghost var s1, n1, left := site, effectsLeft, Loop(job, site, step, state, term);
      ghost var more;
      progress, more := Iterate(step, state, term);
      total := done + more;
      match progress
      case Going(after) =>
        ghost var rest := Loop(job, site, step + 1, after, term);
        ChainGoing(s0, n0, run, done, left, s1, n1, more, rest, site, effectsLeft);
      case Ended(ending) => ChainClosed(s0, n0, run, done, left, s1, n1, Some(ending), site, effectsLeft);
      case Gone => ChainClosed(s0, n0, run, done, left, s1, n1, None, site, effectsLeft);
    }

    /** The worker loop from a started trainer; None means that the process was killed. */
    method TrainFrom(start: nat, startState: S, term: Option<nat>) returns (ending: Option<Ending>)
      requires ValidJob(job)
      modifies this
      ensures Closed(
                old(site), old(effectsLeft), Loop(job, old(site), start, startState, term), ending, site, effectsLeft)
    {
      ghost var s0, n0, run := site, effectsLeft, Loop(job, site, start, startState, term);
      ghost var done: seq<Effect<S, M>> := [];
      var step, state := start, startState;
      assert [] + run.effects == run.effects;
      while step < job.maxSteps
        invariant Pending(s0, n0, run, done, Loop(job, site, step, state, term), site, effectsLeft)
        decreases job.maxSteps - step
      {
        var progress;
        progress, done := Advance(step, state, term, s0, n0, run, done);
        match progress
        case Going(after) => step, state := step + 1, after;
        case Ended(how) => return Some(how);
        case Gone => return None;
      }
      ghost var s1, n1 := site, effectsLeft;
      ghost var last := Loop(job, site, step, state, term);
      ending := Finish(step, state, term);
      ChainClosed(s0, n0, run, done, last, s1, n1, ending, site, effectsLeft);
    }

    /** The final checkpoint. */
    method Finish(step: nat, state: S, ghost term: Option<nat>) returns (ending: Option<Ending>)
      requires ValidJob(job) && step >= job.maxSteps
      modifies this
      ensures var run := Loop(job, old(site), step, state, term);
              Closed(old(site), old(effectsLeft), run, ending, site, effectsLeft)
    {
      NothingPerformed(site, effectsLeft);
      var outcome := Save(step, state, true);
      ending := match outcome
        case Stored => Some(Succeeded)
        case Refused => Some(SaveRefused)
        case Killed => None;
    }

    /** One worker process from its command line to its exit. */
    method Run(launch: Launch, term: Option<nat>) returns (ending: Option<Ending>)
      requires ValidJob(job)
      modifies this
      ensures var run := Work(job, old(site), launch, term);
              Closed(old(site), old(effectsLeft), run, ending, site, effectsLeft)
    {
      ghost var s0, n0, run := site, effectsLeft, Work(job, site, launch, term);
      var first: Effect<S, M>;
      var start, state := 0, job.init;
      if launch.Fresh? {
        if site.created {
          return Some(NotStarted);
        }
        first := MakeSite;
      } else {
        var found := LatestValidStep();
        if found.None? {
          return Some(NotStarted);
        }
        start, state := found.value, site.slots[found.value].state;
        first := Resumed(start);
      }
      var alive := Perform(first);
      assert run.effects == [first] + run.effects[1..];
      if !alive {
        Dead(s0, n0, [first], site, effectsLeft, run.effects[1..]);
        return None;
      }
      ghost var s1, n1 := site, effectsLeft;
      ending := TrainFrom(start, state, term);
      Chain(s0, n0, [first], s1, n1, run.effects[1..], site, effectsLeft);
    }
  }
}
