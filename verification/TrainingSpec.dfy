/**
 Interrupted training: what one worker process emits and publishes, effect by effect.

 A training step is any deterministic function.  A checkpoint directory is intact or damaged; damage
 is always noticed, because every file is hashed.  A SIGKILL leaves a prefix of the effects of the
 session; a SIGTERM is noticed at the end of the step during which, or before which, it arrived.
 */
module TrainingSpec {
  import opened Wrappers

  datatype Job<!S, !M> = Job(
    init: S,
    next: S -> (S, M),
    maxSteps: nat,
    saveSteps: nat,
    keepLast: nat)

  predicate ValidJob<S, M>(job: Job<S, M>) {
    job.maxSteps > 0 && job.saveSteps > 0 && job.keepLast > 0
  }

  /** The trainer after k uninterrupted steps, and the value the k-th step reports. */
  function StateAt<S, M>(job: Job<S, M>, k: nat): S {
    if k == 0 then job.init else job.next(StateAt(job, k - 1)).0
  }

  function ValueAt<S, M>(job: Job<S, M>, k: nat): M
    requires k > 0
  {
    job.next(StateAt(job, k - 1)).1
  }

  datatype Metric<M> = Metric(step: nat, value: M)

  datatype Slot<S> = Intact(state: S, pinned: bool) | Damaged

  /** One artifact directory and the metrics its controller holds for it. */
  datatype Site<S, M> = Site(
    created: bool,
    slots: map<nat, Slot<S>>,
    latest: Option<nat>,
    merged: seq<Metric<M>>)

  datatype Effect<S, M> =
    | MakeSite
    | Resumed(step: nat)
    | Emit(metric: Metric<M>)
    | Publish(step: nat, state: S, pinned: bool)
    | PointLatest(step: nat)
    | Wreck(step: nat)      // removal has begun: the directory is incomplete
    | Remove(step: nat)

  function Apply<S, M>(site: Site<S, M>, e: Effect<S, M>): Site<S, M> {
    match e
    case MakeSite => site.(created := true)
    case Resumed(step) => site.(merged := UpTo(site.merged, step))
    case Emit(metric) => site.(merged := site.merged + [metric])
    case Publish(step, state, pinned) => site.(slots := site.slots[step := Intact(state, pinned)])
    case PointLatest(step) => site.(latest := Some(step))
    case Wreck(step) => if step in site.slots then site.(slots := site.slots[step := Damaged]) else site
    case Remove(step) => site.(slots := site.slots - {step})
  }

  /** The metrics of an interrupted run that the resumed run does not repeat. */
  function UpTo<M>(metrics: seq<Metric<M>>, step: nat): seq<Metric<M>> {
    if metrics == [] then []
    else
      var last := metrics[|metrics| - 1];
      UpTo(metrics[..|metrics| - 1], step) + if last.step <= step then [last] else []
  }

  function ApplyAll<S, M>(site: Site<S, M>, es: seq<Effect<S, M>>): Site<S, M>
    decreases |es|
  {
    if es == [] then site else ApplyAll(Apply(site, es[0]), es[1..])
  }

  function Cut<T>(es: seq<T>, survived: nat): seq<T> {
    if survived < |es| then es[..survived] else es
  }

  // ----- the checkpoint store -----

  predicate IsIntact<S>(slots: map<nat, Slot<S>>, step: nat) {
    step in slots && slots[step].Intact?
  }

  /** Automatic resume picks the highest intact directory and skips damaged ones above it. */
  function LatestValid<S>(slots: map<nat, Slot<S>>, bound: nat): (r: Option<nat>)
    ensures r.None? ==> forall k: nat | k < bound :: !IsIntact(slots, k)
    ensures r.Some? ==> r.value < bound && IsIntact(slots, r.value)
    ensures r.Some? ==> forall k: nat | k < bound && IsIntact(slots, k) :: k <= r.value
  {
    if bound == 0 then None
    else if IsIntact(slots, bound - 1) then Some(bound - 1)
    else LatestValid(slots, bound - 1)
  }

  /** The unpinned intact steps below a bound, in ascending order. */
  function Unpinned<S>(slots: map<nat, Slot<S>>, bound: nat): seq<nat> {
    if bound == 0 then []
    else
      Unpinned(slots, bound - 1) +
      if IsIntact(slots, bound - 1) && !slots[bound - 1].pinned then [bound - 1] else []
  }

  /** All but the newest keepLast of the unpinned checkpoints. */
  function Expired<S, M>(job: Job<S, M>, slots: map<nat, Slot<S>>): seq<nat> {
    var all := Unpinned(slots, job.maxSteps + 1);
    if |all| <= job.keepLast then [] else all[..|all| - job.keepLast]
  }

  function Removals<S, M>(steps: seq<nat>): seq<Effect<S, M>> {
    if steps == [] then [] else [Wreck(steps[0]), Remove(steps[0])] + Removals(steps[1..])
  }

  /** A save that found its directory free: publish, move LATEST, apply retention. */
  function SaveEffects<S, M>(job: Job<S, M>, site: Site<S, M>, step: nat, state: S, pinned: bool): seq<Effect<S, M>> {
    [Publish(step, state, pinned), PointLatest(step)]
    + Removals(Expired(job, site.slots[step := Intact(state, pinned)]))
  }

  // ----- one worker process -----

  datatype Launch = Fresh | Resume

  datatype Ending = Succeeded | Terminated | SaveRefused | NotStarted

  datatype Session<S, M> = Session(effects: seq<Effect<S, M>>, ending: Ending)

  predicate Boundary<S, M>(job: Job<S, M>, step: nat)
    requires ValidJob(job)
  {
    step % job.saveSteps == 0 && step < job.maxSteps
  }

  /** Periodic checkpoint after a step, if one is due; None when its directory is taken. */
  function PeriodicSave<S, M>(job: Job<S, M>, site: Site<S, M>, step: nat, state: S): Option<seq<Effect<S, M>>>
    requires ValidJob(job)
  {
    if !Boundary(job, step) then Some([])
    else if step in site.slots then None
    else Some(SaveEffects(job, site, step, state, false))
  }

  /** The worker loop from a trainer at `step`; the flag is up from the end of step `term` on. */
  function Loop<S, M>(job: Job<S, M>, site: Site<S, M>, step: nat, state: S, term: Option<nat>): Session<S, M>
    requires ValidJob(job)
    decreases job.maxSteps - step
  {
    if step >= job.maxSteps then
      if step in site.slots then Session([], SaveRefused)
      else Session(SaveEffects(job, site, step, state, true), Succeeded)
    else
      var (after, value) := job.next(state);
      var reached := step + 1;
      var emitted := Apply(site, Emit(Metric(reached, value)));
      match PeriodicSave(job, emitted, reached, after)
      case None => Session([Emit(Metric(reached, value))], SaveRefused)
      case Some(saves) =>
        var done := [Emit(Metric(reached, value))] + saves;
        var saved := ApplyAll(emitted, saves);
        if term.Some? && term.value <= reached then
          if reached in saved.slots then Session(done, SaveRefused)
          else Session(done + SaveEffects(job, saved, reached, after, true), Terminated)
        else
          var rest := Loop(job, saved, reached, after, term);
          Session(done + rest.effects, rest.ending)
  }

  function Work<S, M>(job: Job<S, M>, site: Site<S, M>, launch: Launch, term: Option<nat>): Session<S, M>
    requires ValidJob(job)
  {
    match launch
    case Fresh =>
      if site.created then Session([], NotStarted)
      else
        var rest := Loop(job, Apply(site, MakeSite), 0, job.init, term);
        Session([MakeSite] + rest.effects, rest.ending)
    case Resume =>
      match LatestValid(site.slots, job.maxSteps + 1)
      case None => Session([], NotStarted)
      case Some(step) =>
        var rest := Loop(job, Apply(site, Resumed(step)), step, site.slots[step].state, term);
        Session([Resumed(step)] + rest.effects, rest.ending)
  }

  // ----- histories -----

  datatype Turn =
    | Attempt(launch: Launch, term: Option<nat>, survived: nat)
    | Corrupt(step: nat)

  function Happened<S, M>(job: Job<S, M>, site: Site<S, M>, turn: Turn): Site<S, M>
    requires ValidJob(job)
  {
    match turn
    case Attempt(launch, term, survived) => ApplyAll(site, Cut(Work(job, site, launch, term).effects, survived))
    case Corrupt(step) => Apply(site, Wreck(step))
  }

  function After<S, M>(job: Job<S, M>, site: Site<S, M>, turns: seq<Turn>): Site<S, M>
    requires ValidJob(job)
    decreases |turns|
  {
    if turns == [] then site else After(job, Happened(job, site, turns[0]), turns[1..])
  }

  function NewSite<S, M>(): Site<S, M> {
    Site(false, map[], None, [])
  }
}
