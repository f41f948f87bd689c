/** Interleaved shards of a task list: the split, the records of each shard, and the reassembly. */
module Sharding {
  import opened Wrappers

  datatype Context<T> = Context(id: string, body: T)

  predicate DistinctIds<T>(all: seq<Context<T>>) {
    forall i, j | 0 <= i < j < |all| :: all[i].id != all[j].id
  }

  const SEED_RANGE := 0x1_0000_0000

  /** The seed of a task depends on its place in the whole list only. */
  function StageSeed(base: nat, index: nat): nat {
    (base + index) % SEED_RANGE
  }

  // ----- the split -----

  /** Which shard takes a place of the whole list. */
  type Assignment = nat -> nat

  function Interleaved(k: nat): Assignment
    requires k > 0
  {
    (i: nat) => i % k
  }

  /** The places below n that shard j takes. */
  function Places(n: nat, assign: Assignment, j: nat): seq<nat> {
    if n == 0 then [] else Places(n - 1, assign, j) + if assign(n - 1) == j then [n - 1] else []
  }

  /** The places of the first m shards, shard after shard. */
  function Merged(n: nat, assign: Assignment, m: nat): seq<nat> {
    if m == 0 then [] else Merged(n, assign, m - 1) + Places(n, assign, m - 1)
  }

  lemma {:induction false} PlacesExact(n: nat, assign: Assignment, j: nat)
    ensures forall i: nat :: i in Places(n, assign, j) <==> i < n && assign(i) == j
    ensures forall a, b | 0 <= a < b < |Places(n, assign, j)| :: Places(n, assign, j)[a] < Places(n, assign, j)[b]
  {
    if n > 0 {
      var before := Places(n - 1, assign, j);
      PlacesExact(n - 1, assign, j);
      forall a | 0 <= a < |before| ensures before[a] < n - 1 {
        assert before[a] in before;
      }
    }
  }

  /** The refusal of empty shards is exactly the refusal of more shards than tasks. */
  lemma NoShardIsEmptyIff(n: nat, k: nat)
    requires k > 0
    ensures (forall j: nat | j < k :: Places(n, Interleaved(k), j) != []) <==> k <= n
  {
    if k <= n {
      forall j: nat | j < k ensures Places(n, Interleaved(k), j) != [] {
        PlacesExact(n, Interleaved(k), j);
        SmallRemainder(j, k);
        assert Interleaved(k)(j) == j;
      }
    } else {
      BeyondIsEmpty(n, n, k);
      assert Places(n, Interleaved(k), n) == [];
    }
  }

  lemma SmallRemainder(j: nat, k: nat)
    requires j < k
    ensures j % k == j
  {
  }

  lemma {:induction false} BeyondIsEmpty(n: nat, j: nat, k: nat)
    requires n <= j < k
    ensures Places(n, Interleaved(k), j) == []
  {
    if n > 0 {
      SmallRemainder(n - 1, k);
      BeyondIsEmpty(n - 1, j, k);
    }
  }

  // ----- nothing is lost, repeated or changed by the number of shards -----

  /** How often x is among what is produced at the given places. */
  ghost function Times<R>(produce: nat -> seq<R>, places: seq<nat>, x: R): nat {
    if places == [] then 0
    else Times(produce, places[..|places| - 1], x) + multiset(produce(places[|places| - 1]))[x]
  }

  lemma {:induction false} TimesConcat<R>(produce: nat -> seq<R>, a: seq<nat>, b: seq<nat>, x: R)
    ensures Times(produce, a + b, x) == Times(produce, a, x) + Times(produce, b, x)
    decreases |b|
  {
    if b == [] {
      assert a + b == a;
    } else {
      var c := b[..|b| - 1];
      assert (a + b)[..|a + b| - 1] == a + c;
      TimesConcat(produce, a, c, x);
    }
  }

  lemma OneMorePlace<R>(produce: nat -> seq<R>, n: nat, assign: Assignment, j: nat, x: R)
    ensures Times(produce, Places(n + 1, assign, j), x) ==
            Times(produce, Places(n, assign, j), x) + if assign(n) == j then multiset(produce(n))[x] else 0
  {
    var before := Places(n, assign, j);
    if assign(n) == j {
      assert Places(n + 1, assign, j) == before + [n];
      assert (before + [n])[..|before|] == before;
    } else {
      assert Places(n + 1, assign, j) == before;
    }
  }

  ghost function Sum(share: nat -> nat, m: nat): nat {
    if m == 0 then 0 else Sum(share, m - 1) + share(m - 1)
  }

  /** How often x is produced by each shard. */
  ghost function Shares<R>(produce: nat -> seq<R>, n: nat, assign: Assignment, x: R): nat -> nat {
    (j: nat) => Times(produce, Places(n, assign, j), x)
  }

  lemma MergedUnfolds(n: nat, assign: Assignment, m: nat)
    requires m > 0
    ensures Merged(n, assign, m) == Merged(n, assign, m - 1) + Places(n, assign, m - 1)
  {
  }

  /** A count that adds up over concatenation adds up over the shards. */
  lemma {:induction false} CountOfMerged(count: seq<nat> -> nat, n: nat, assign: Assignment, m: nat)
    requires count([]) == 0 && forall a, b :: count(a + b) == count(a) + count(b)
    ensures count(Merged(n, assign, m)) == Sum((j: nat) => count(Places(n, assign, j)), m)
    decreases m
  {
    if m > 0 {
      CountOfMerged(count, n, assign, m - 1);
      MergedUnfolds(n, assign, m);
    }
  }

  lemma {:induction false} SameSum(f: nat -> nat, g: nat -> nat, m: nat)
    requires forall j: nat :: f(j) == g(j)
    ensures Sum(f, m) == Sum(g, m)
  {
    if m > 0 {
      SameSum(f, g, m - 1);
    }
  }

  lemma MergedIsSum<R>(produce: nat -> seq<R>, n: nat, assign: Assignment, m: nat, x: R)
    ensures Times(produce, Merged(n, assign, m), x) == Sum(Shares(produce, n, assign, x), m)
  {
    var count: seq<nat> -> nat := (places: seq<nat>) => Times(produce, places, x);
    forall a, b ensures count(a + b) == count(a) + count(b) {
      TimesConcat(produce, a, b, x);
    }
    CountOfMerged(count, n, assign, m);
    SameSum((j: nat) => count(Places(n, assign, j)), Shares(produce, n, assign, x), m);
  }

  lemma {:induction false} OneShareGrows(before: nat -> nat, after: nat -> nat, at: nat, growth: nat, m: nat)
    requires forall j: nat :: after(j) == before(j) + if j == at then growth else 0
    ensures Sum(after, m) == Sum(before, m) + if at < m then growth else 0
  {
    if m > 0 {
      OneShareGrows(before, after, at, growth, m - 1);
    }
  }

  lemma {:induction false} NoShares<R>(produce: nat -> seq<R>, assign: Assignment, m: nat, x: R)
    ensures Sum(Shares(produce, 0, assign, x), m) == 0
  {
    if m > 0 {
      NoShares(produce, assign, m - 1, x);
    }
  }

  /** How often x is produced when the tasks run one by one, without shards. */
  ghost function TimesUnsharded<R>(produce: nat -> seq<R>, n: nat, x: R): nat {
    if n == 0 then 0 else TimesUnsharded(produce, n - 1, x) + multiset(produce(n - 1))[x]
  }

  /** One more task adds its own output once, to the shard that takes it. */
  lemma {:induction false} SharesAddUp<R>(produce: nat -> seq<R>, n: nat, assign: Assignment, k: nat, x: R)
    requires forall i: nat | i < n :: assign(i) < k
    ensures Sum(Shares(produce, n, assign, x), k) == TimesUnsharded(produce, n, x)
  {
    if n == 0 {
      NoShares(produce, assign, k, x);
    } else {
      var last := n - 1;
      SharesAddUp(produce, last, assign, k, x);
      forall j: nat
        ensures Shares(produce, last + 1, assign, x)(j) ==
                Shares(produce, last, assign, x)(j) + if j == assign(last) then multiset(produce(last))[x] else 0
      {
        OneMorePlace(produce, last, assign, j, x);
      }
      OneShareGrows(Shares(produce, last, assign, x), Shares(produce, n, assign, x), assign(last),
                    multiset(produce(last))[x], k);
    }
  }

  /** All shards together produce what the tasks produce one by one, whoever takes which task. */
  lemma ShardingKeepsAll<R>(produce: nat -> seq<R>, n: nat, assign: Assignment, k: nat, x: R)
    requires forall i: nat | i < n :: assign(i) < k
    ensures Times(produce, Merged(n, assign, k), x) == TimesUnsharded(produce, n, x)
  {
    MergedIsSum(produce, n, assign, k, x);
    SharesAddUp(produce, n, assign, k, x);
  }

  datatype Stage = Solver | Compressor

  datatype Produced<R> = Produced(task: string, stage: Stage, seed: nat, record: R)

  /** A pure generator: every task is solved, and a verified solution is compressed under a seed of its own. */
  datatype Generator<!T, !R> = Generator(
    solverBase: nat,
    compressorBase: nat,
    solve: (Context<T>, nat) -> R,
    verified: (Context<T>, R) -> bool,
    compress: (Context<T>, R, nat) -> R)

  function TaskRecords<T, R>(g: Generator<T, R>, context: Context<T>, index: nat): seq<Produced<R>> {
    var seed, again := StageSeed(g.solverBase, index), StageSeed(g.compressorBase, index);
    var solution := g.solve(context, seed);
    [Produced(context.id, Solver, seed, solution)]
    + if g.verified(context, solution)
      then [Produced(context.id, Compressor, again, g.compress(context, solution, again))] else []
  }

  /** What is made of the task at a place of the whole list. */
  function RecordsAt<T, R>(all: seq<Context<T>>, g: Generator<T, R>): nat -> seq<Produced<R>> {
    (i: nat) => if i < |all| then TaskRecords(g, all[i], i) else []
  }

  /** The records of the given places, in their order. */
  function Flatten<R>(produce: nat -> seq<R>, places: seq<nat>): seq<R> {
    if places == [] then []
    else Flatten(produce, places[..|places| - 1]) + produce(places[|places| - 1])
  }

  lemma {:induction false} TimesOfFlattened<R>(produce: nat -> seq<R>, places: seq<nat>, x: R)
    ensures multiset(Flatten(produce, places))[x] == Times(produce, places, x)
  {
    if places != [] {
      TimesOfFlattened(produce, places[..|places| - 1], x);
    }
  }

  /** The tasks, their seeds and their records do not depend on the number of shards. */
  lemma RecordsDoNotDependOnShards<T, R(!new)>(
    all: seq<Context<T>>, g: Generator<T, R>, k: nat, l: nat)
    requires k > 0 && l > 0
    ensures multiset(Flatten(RecordsAt(all, g), Merged(|all|, Interleaved(k), k)))
            == multiset(Flatten(RecordsAt(all, g), Merged(|all|, Interleaved(l), l)))
  {
    var produce := RecordsAt(all, g);
    var a, b := Merged(|all|, Interleaved(k), k), Merged(|all|, Interleaved(l), l);
    forall x: Produced<R> ensures multiset(Flatten(produce, a))[x] == multiset(Flatten(produce, b))[x] {
      TimesOfFlattened(produce, a, x);
      TimesOfFlattened(produce, b, x);
      ShardingKeepsAll(produce, |all|, Interleaved(k), k, x);
      ShardingKeepsAll(produce, |all|, Interleaved(l), l, x);
    }
  }

  /** Every place is in exactly one shard, once. */
  lemma EveryPlaceOnce(n: nat, k: nat, i: nat)
    requires k > 0
    ensures multiset(Merged(n, Interleaved(k), k))[i] == if i < n then 1 else 0
  {
    ShardingKeepsAll(p => [p], n, Interleaved(k), k, i);
    TimesOfSelf(Merged(n, Interleaved(k), k), i);
    RangeOnce(n, i);
  }

  // ----- what the merged shards hold -----

  /** Tasks at different places of a list of fewer than 2^32 have different seeds in the same stage. */
  lemma SeedsDiffer(base: nat, i: nat, j: nat)
    requires i < j < i + 0x1_0000_0000
    ensures StageSeed(base, i) != StageSeed(base, j)
    ensures StageSeed(base, i) < 0x1_0000_0000 && (base + i - StageSeed(base, i)) % 0x1_0000_0000 == 0
  {
  }

  lemma {:induction false} FlattenMembers<R>(produce: nat -> seq<R>, places: seq<nat>, x: R)
    ensures x in Flatten(produce, places) <==> exists p :: p in places && x in produce(p)
    decreases |places|
  {
    if places != [] {
      var n := |places| - 1;
      FlattenMembers(produce, places[..n], x);
      assert forall p :: p in places <==> p in places[..n] || p == places[n];
    }
  }

  /** A record of the task at a place, with nothing of the loops that make it. */
  ghost predicate RecordOf<T, R>(all: seq<Context<T>>, g: Generator<T, R>, i: nat, r: Produced<R>)
    requires i < |all|
  {
    var seed, again := (g.solverBase + i) % 0x1_0000_0000, (g.compressorBase + i) % 0x1_0000_0000;
    var solution := g.solve(all[i], seed);
    && r.task == all[i].id
    && match r.stage
       case Solver => r.seed == seed && r.record == solution
       case Compressor => g.verified(all[i], solution) && r.seed == again
                          && r.record == g.compress(all[i], solution, again)
  }

  /** All shards together hold exactly the records of the tasks, each stage under its own seed. */
  lemma MergedRecordsExact<T, R>(all: seq<Context<T>>, g: Generator<T, R>, k: nat, r: Produced<R>)
    requires k > 0
    ensures r in Flatten(RecordsAt(all, g), Merged(|all|, Interleaved(k), k))
       <==> exists i :: 0 <= i < |all| && RecordOf(all, g, i, r)
  {
    var places := Merged(|all|, Interleaved(k), k);
    FlattenMembers(RecordsAt(all, g), places, r);
    forall i: nat ensures i in places <==> i < |all| {
      EveryPlaceOnce(|all|, k, i);
      assert i in places <==> i in multiset(places);
    }
    forall i: nat | i < |all| ensures r in RecordsAt(all, g)(i) <==> RecordOf(all, g, i, r) {
      TaskRecordsExact(all, g, i, r);
    }
  }

  lemma TaskRecordsExact<T, R>(all: seq<Context<T>>, g: Generator<T, R>, i: nat, r: Produced<R>)
    requires i < |all|
    ensures r in RecordsAt(all, g)(i) <==> RecordOf(all, g, i, r)
  {
    assert RecordsAt(all, g)(i) == TaskRecords(g, all[i], i);
  }

  lemma {:induction false} TimesOfSelf(places: seq<nat>, i: nat)
    ensures Times(p => [p], places, i) == multiset(places)[i]
  {
    if places != [] {
      TimesOfSelf(places[..|places| - 1], i);
      assert places == places[..|places| - 1] + [places[|places| - 1]];
    }
  }

  lemma {:induction false} RangeOnce(n: nat, i: nat)
    ensures TimesUnsharded(p => [p], n, i) == if i < n then 1 else 0
  {
    if n > 0 {
      RangeOnce(n - 1, i);
    }
  }

  // ----- the worker of one shard -----

  /** {context.task.id: index}: a later index would replace an earlier one. */
  function GlobalIndex<T>(all: seq<Context<T>>): map<string, nat> {
    if all == [] then map[]
    else GlobalIndex(all[..|all| - 1])[all[|all| - 1].id := |all| - 1]
  }

  lemma {:induction false} IndexIsPlace<T>(all: seq<Context<T>>, i: nat)
    requires DistinctIds(all) && i < |all|
    ensures all[i].id in GlobalIndex(all) && GlobalIndex(all)[all[i].id] == i
  {
    if i < |all| - 1 {
      IndexIsPlace(all[..|all| - 1], i);
      assert all[i].id != all[|all| - 1].id;
    }
  }

  function Pick<T>(all: seq<T>, places: seq<nat>): seq<T>
    requires forall p | p in places :: p < |all|
  {
    seq(|places|, i requires 0 <= i < |places| => assert places[i] in places; all[places[i]])
  }

  /** The contexts of one shard. */
  function ShardContexts<T>(all: seq<Context<T>>, k: nat, j: nat): seq<Context<T>>
    requires k > 0
  {
    PlacesExact(|all|, Interleaved(k), j);
    Pick(all, Places(|all|, Interleaved(k), j))
  }

  lemma PrefixGrows(places: seq<nat>, i: nat)
    requires i < |places|
    ensures places[..i + 1][..i] == places[..i] && places[..i + 1][i] == places[i]
  {
  }

  /** The solver of one task and, behind a verified solution, its compressor. */
  method RunTask<T, R>(context: Context<T>, index: nat, g: Generator<T, R>, done: seq<Produced<R>>)
    returns (records: seq<Produced<R>>)
    ensures records == done + TaskRecords(g, context, index)
  {
    var seed := StageSeed(g.solverBase, index);
    var solution := g.solve(context, seed);
    records := done + [Produced(context.id, Solver, seed, solution)];
    if g.verified(context, solution) {
      var again := StageSeed(g.compressorBase, index);
      records := records + [Produced(context.id, Compressor, again, g.compress(context, solution, again))];
    }
  }

  /** One worker; None is its refusal of an empty shard. */
  method RunShard<T, R>(all: seq<Context<T>>, k: nat, j: nat, g: Generator<T, R>)
    returns (records: Option<seq<Produced<R>>>)
    requires DistinctIds(all) && j < k
    ensures records == if Places(|all|, Interleaved(k), j) == [] then None
                       else Some(Flatten(RecordsAt(all, g), Places(|all|, Interleaved(k), j)))
  {
    ghost var places := Places(|all|, Interleaved(k), j);
    var contexts := ShardContexts(all, k, j);
    if contexts == [] {
      return None;
    }
    var globalIndex := GlobalIndex(all);
    var done: seq<Produced<R>> := [];
    PlacesExact(|all|, Interleaved(k), j);
    for i := 0 to |contexts|
      invariant done == Flatten(RecordsAt(all, g), places[..i])
    {
      assert places[i] in places;
      IndexIsPlace(all, places[i]);
      PrefixGrows(places, i);
      var index := globalIndex[contexts[i].id];
      done := RunTask(contexts[i], index, g, done);
    }
    assert places[..|places|] == places;
    return Some(done);
  }

  // ----- the reassembly -----

  /** {context.task.id: context}: a later context would replace an earlier one. */
  function ById<T>(contexts: seq<Context<T>>): map<string, Context<T>> {
    if contexts == [] then map[]
    else ById(contexts[..|contexts| - 1])[contexts[|contexts| - 1].id := contexts[|contexts| - 1]]
  }

  lemma {:induction false} ByIdFinds<T>(all: seq<Context<T>>, places: seq<nat>, i: nat)
    requires DistinctIds(all) && (forall p | p in places :: p < |all|) && i in places
    ensures var found := ById(Pick(all, places));
            all[i].id in found && found[all[i].id] == all[i]
    decreases |places|
  {
    var last := |places| - 1;
    assert places[last] in places && forall p | p in places[..last] :: p in places;
    assert Pick(all, places)[..last] == Pick(all, places[..last]);
    if places[last] != i {
      assert i in places[..last];
      ByIdFinds(all, places[..last], i);
      assert all[i].id != all[places[last]].id;
    }
  }

  /** The contexts in canonical order; None where a task has no context. */
  function Reassemble<T>(canonical: seq<Context<T>>, found: map<string, Context<T>>): Option<seq<Context<T>>> {
    if forall i | 0 <= i < |canonical| :: canonical[i].id in found
    then Some(seq(|canonical|, i requires 0 <= i < |canonical| => found[canonical[i].id]))
    else None
  }

  lemma MergedHolds(n: nat, k: nat, i: nat)
    requires k > 0
    ensures i in Merged(n, Interleaved(k), k) <==> i < n
  {
    EveryPlaceOnce(n, k, i);
  }

  /** Interleaved shards come back as the original list, whatever their number. */
  lemma ReassemblyIsIdentity<T>(all: seq<Context<T>>, k: nat)
    requires DistinctIds(all) && k > 0
    ensures forall p | p in Merged(|all|, Interleaved(k), k) :: p < |all|
    ensures Reassemble(all, ById(Pick(all, Merged(|all|, Interleaved(k), k)))) == Some(all)
  {
    var places := Merged(|all|, Interleaved(k), k);
    forall p | p in places ensures p < |all| {
      MergedHolds(|all|, k, p);
    }
    var found := ById(Pick(all, places));
    forall i: nat | i < |all| ensures all[i].id in found && found[all[i].id] == all[i] {
      MergedHolds(|all|, k, i);
      ByIdFinds(all, places, i);
    }
    assert seq(|all|, i requires 0 <= i < |all| => found[all[i].id]) == all;
  }

  // ----- what the finalizer's coverage checks admit -----

  function Elements(ids: seq<string>): set<string> {
    set x | x in ids
  }

  lemma {:induction false} AtMostOnce(ids: seq<string>)
    ensures |Elements(ids)| <= |ids|
    ensures |Elements(ids)| == |ids| ==> forall x :: multiset(ids)[x] == if x in ids then 1 else 0
  {
    if ids != [] {
      var front, last := ids[..|ids| - 1], ids[|ids| - 1];
      AtMostOnce(front);
      assert ids == front + [last];
      assert Elements(ids) == Elements(front) + {last};
      if last in front {
        assert Elements(ids) == Elements(front);
      } else {
        assert |Elements(ids)| == |Elements(front)| + 1;
      }
    }
  }

  datatype Generation = Generation(task: string, stage: Stage)

  /** One shard file, as far as its accounting goes. */
  datatype Artifact = Artifact(taskIds: seq<string>, generations: seq<Generation>)

  function SolverIds(gs: seq<Generation>): seq<string> {
    if gs == [] then []
    else SolverIds(gs[..|gs| - 1]) + if gs[|gs| - 1].stage.Solver? then [gs[|gs| - 1].task] else []
  }

  /** The rule under which an artifact loads: its solver records are those of its tasks, in order. */
  predicate ValidArtifact(a: Artifact) {
    |Elements(a.taskIds)| == |a.taskIds| && SolverIds(a.generations) == a.taskIds
  }

  function MergedIds(shards: seq<Artifact>): seq<string> {
    if shards == [] then [] else MergedIds(shards[..|shards| - 1]) + shards[|shards| - 1].taskIds
  }

  function Generations(shards: seq<Artifact>): seq<Generation> {
    if shards == [] then [] else Generations(shards[..|shards| - 1]) + shards[|shards| - 1].generations
  }

  lemma {:induction false} SolverIdsConcat(a: seq<Generation>, b: seq<Generation>)
    ensures SolverIds(a + b) == SolverIds(a) + SolverIds(b)
    decreases |b|
  {
    if b == [] {
      assert a + b == a;
    } else {
      var last := |b| - 1;
      assert (a + b)[..|a + b| - 1] == a + b[..last];
      SolverIdsConcat(a, b[..last]);
    }
  }

  lemma {:induction false} SolversAreMerged(shards: seq<Artifact>)
    requires forall i | 0 <= i < |shards| :: ValidArtifact(shards[i])
    ensures SolverIds(Generations(shards)) == MergedIds(shards)
  {
    if shards != [] {
      var front, last := shards[..|shards| - 1], shards[|shards| - 1];
      SolversAreMerged(front);
      SolverIdsConcat(Generations(front), last.generations);
      assert ValidArtifact(shards[|shards| - 1]);
    }
  }

  /** The finalizer's checks on ids and on solver records, for a source of n tasks. */
  predicate Accepted(shards: seq<Artifact>, expected: seq<string>, n: nat) {
    && |Elements(MergedIds(shards))| == n
    && Elements(MergedIds(shards)) == Elements(expected)
    && |SolverIds(Generations(shards))| == n
  }

  /** Artifacts that load and pass the checks hold every expected task exactly once, and nothing else. */
  lemma AcceptedShardsArePermutation(shards: seq<Artifact>, expected: seq<string>, n: nat)
    requires forall i | 0 <= i < |shards| :: ValidArtifact(shards[i])
    requires Accepted(shards, expected, n)
    ensures forall x :: multiset(MergedIds(shards))[x] == if x in expected then 1 else 0
  {
    SolversAreMerged(shards);
    AtMostOnce(MergedIds(shards));
    forall x ensures x in MergedIds(shards) <==> x in expected {
      assert x in MergedIds(shards) <==> x in Elements(MergedIds(shards));
      assert x in expected <==> x in Elements(expected);
    }
  }
}
