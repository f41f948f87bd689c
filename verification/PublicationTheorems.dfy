/** What a reader can see of a publication that is cut after any step. */
module PublicationTheorems {
  import opened Wrappers
  import opened AgentSchema
  import opened PublicationSpec

  /** A step that can change nothing but one name. */
  predicate Within(step: Step, name: string) {
    match step
    case OpenNew(n) => n == name
    case Append(n, _) => n == name
    case Unlink(n) => n == name
    case MkDir(n) => n == name
    case Create(n, _) => n == name
    case Extend(n, _, _) => n == name
    case Drop(n, _) => n == name
    case RmDir(n) => n == name
    case Rename(_, _) => false
  }

  predicate AllWithin(steps: seq<Step>, name: string) {
    forall i | 0 <= i < |steps| :: Within(steps[i], name)
  }

  ghost predicate SameExcept(a: Tree, b: Tree, names: set<string>) {
    forall n | n !in names :: Lookup(a, n) == Lookup(b, n)
  }

  lemma {:induction false} StaysWithin(tree: Tree, steps: seq<Step>, name: string)
    requires AllWithin(steps, name)
    ensures SameExcept(tree, TakeAll(tree, steps), {name})
    decreases |steps|
  {
    if steps != [] {
      assert Within(steps[0], name);
      StaysWithin(Take(tree, steps[0]), steps[1..], name);
    }
  }

  lemma {:induction false} TakeConcat(tree: Tree, a: seq<Step>, b: seq<Step>)
    ensures TakeAll(tree, a + b) == TakeAll(TakeAll(tree, a), b)
    decreases |a|
  {
    if a == [] {
      assert a + b == b;
    } else {
      assert (a + b)[1..] == a[1..] + b;
      TakeConcat(Take(tree, a[0]), a[1..], b);
    }
  }

  /** Quiet steps before a final rename: cut anywhere, the target has its old node or the built one. */
  lemma CutBeforeRename(tree: Tree, quiet: seq<Step>, source: string, target: string, survived: nat)
    requires AllWithin(quiet, source) && source != target
    requires source in TakeAll(tree, quiet)
    ensures var after := TakeAll(tree, Cut(quiet + [Rename(source, target)], survived));
            && SameExcept(tree, after, {source, target})
            && Lookup(after, target) ==
               (if survived > |quiet| then Some(TakeAll(tree, quiet)[source]) else Lookup(tree, target))
            && (survived > |quiet| ==> source !in after)
  {
    var all := quiet + [Rename(source, target)];
    if survived <= |quiet| {
      assert Cut(all, survived) == quiet[..survived];
      StaysWithin(tree, quiet[..survived], source);
    } else {
      assert Cut(all, survived) == all;
      TakeConcat(tree, quiet, [Rename(source, target)]);
      StaysWithin(tree, quiet, source);
      assert [Rename(source, target)][1..] == [];
    }
  }

  lemma {:induction false} AppendsBuild(tree: Tree, name: string, written: Bytes, payload: Bytes)
    requires Lookup(tree, name) == Some(File(written))
    ensures Lookup(TakeAll(tree, Appends(name, payload)), name) == Some(File(written + payload))
    decreases |payload|
  {
    if payload == [] {
      assert written + payload == written;
    } else {
      var next := Take(tree, Append(name, payload[0]));
      assert Appends(name, payload)[1..] == Appends(name, payload[1..]);
      AppendsBuild(next, name, written + [payload[0]], payload[1..]);
      assert written + [payload[0]] + payload[1..] == written + payload;
    }
  }

  /** A reader of the name sees exactly the old or exactly the new bytes; the new ones once all is done. */
  lemma ReplaceIsAtomic(tree: Tree, name: string, unique: string, payload: Bytes, failAt: nat, survived: nat)
    ensures var plan := ReplacePlan(tree, name, unique, payload, failAt);
            var after := TakeAll(tree, Cut(plan.steps, survived));
            && Lookup(after, name) == (if plan.reply.Published? && survived >= |plan.steps|
                                       then Some(File(payload)) else Lookup(tree, name))
            && SameExcept(tree, after, {name, TemporaryName(name, unique)})
            && (survived >= |plan.steps| ==> TemporaryName(name, unique) !in after)
  {
    var temporary := TemporaryName(name, unique);
    assert |temporary| > |name|;
    var plan := ReplacePlan(tree, name, unique, payload, failAt);
    var quiet := [OpenNew(temporary)] + Appends(temporary, payload);
    if plan.reply.Published? {
      var started := Take(tree, OpenNew(temporary));
      assert quiet[1..] == Appends(temporary, payload);
      AppendsBuild(started, temporary, [], payload);
      assert [] + payload == payload;
      CutBeforeRename(tree, quiet, temporary, name, survived);
      assert plan.steps == quiet + [Rename(temporary, name)];
    } else {
      var kept := if temporary in tree then [] else quiet[..failAt];
      assert plan.steps == kept + [Unlink(temporary)];
      assert AllWithin(plan.steps, temporary);
      StaysWithin(tree, Cut(plan.steps, survived), temporary);
      TakeConcat(tree, kept, [Unlink(temporary)]);
      assert [Unlink(temporary)][1..] == [];
    }
  }

  // ----- the approval directory -----

  lemma {:induction false} ExtendsBuild(
    tree: Tree, dir: string, files: map<string, Bytes>, file: string, written: Bytes, payload: Bytes)
    requires Lookup(tree, dir) == Some(Dir(files[file := written]))
    ensures Lookup(TakeAll(tree, Extends(dir, file, payload)), dir) == Some(Dir(files[file := written + payload]))
    decreases |payload|
  {
    if payload == [] {
      assert written + payload == written;
    } else {
      var next := Take(tree, Extend(dir, file, payload[0]));
      assert Extends(dir, file, payload)[1..] == Extends(dir, file, payload[1..]);
      assert files[file := written][file := written + [payload[0]]] == files[file := written + [payload[0]]];
      ExtendsBuild(next, dir, files, file, written + [payload[0]], payload[1..]);
      assert written + [payload[0]] + payload[1..] == written + payload;
    }
  }

  lemma FileIsWritten(tree: Tree, dir: string, files: map<string, Bytes>, file: string, payload: Bytes)
    requires Lookup(tree, dir) == Some(Dir(files))
    ensures Lookup(TakeAll(tree, WriteFile(dir, file, payload)), dir) == Some(Dir(files[file := payload]))
    ensures AllWithin(WriteFile(dir, file, payload), dir)
  {
    var next := Take(tree, Create(dir, file));
    assert WriteFile(dir, file, payload)[1..] == Extends(dir, file, payload);
    ExtendsBuild(next, dir, files, file, [], payload);
    assert [] + payload == payload;
  }

  function WithFiles(files: map<string, Bytes>, payloads: seq<Payload>): map<string, Bytes>
    decreases |payloads|
  {
    if payloads == [] then files
    else WithFiles(files[payloads[0].file := payloads[0].content], payloads[1..])
  }

  lemma {:induction false} FilesAreWritten(tree: Tree, dir: string, files: map<string, Bytes>, payloads: seq<Payload>)
    requires Lookup(tree, dir) == Some(Dir(files))
    ensures Lookup(TakeAll(tree, WriteFiles(dir, payloads)), dir) == Some(Dir(WithFiles(files, payloads)))
    ensures AllWithin(WriteFiles(dir, payloads), dir)
    decreases |payloads|
  {
    if payloads != [] {
      var p := payloads[0];
      var first := WriteFile(dir, p.file, p.content);
      FileIsWritten(tree, dir, files, p.file, p.content);
      FilesAreWritten(TakeAll(tree, first), dir, files[p.file := p.content], payloads[1..]);
      TakeConcat(tree, first, WriteFiles(dir, payloads[1..]));
    }
  }

  lemma PayloadsAreExpected(a: Approval, render: Render)
    ensures WithFiles(map[], Payloads(a, render)) == Expected(a, render)
  {
    var ps := Payloads(a, render);
    var m1: map<string, Bytes> := map[ps[0].file := ps[0].content];
    var m2 := m1[ps[1].file := ps[1].content];
    assert WithFiles(map[], ps) == WithFiles(m1, ps[1..]);
    assert WithFiles(m1, ps[1..]) == WithFiles(m2, ps[1..][1..]);
    assert WithFiles(m2, ps[1..][1..]) == m2[ps[2].file := ps[2].content];
  }

  lemma StagingIsBuilt(tree: Tree, staging: string, a: Approval, render: Render)
    ensures AllWithin(StagingSteps(staging, a, render), staging)
    ensures Lookup(TakeAll(tree, StagingSteps(staging, a, render)), staging) == Some(Dir(Expected(a, render)))
  {
    var made := Take(tree, MkDir(staging));
    var writes := WriteFiles(staging, Payloads(a, render));
    FilesAreWritten(made, staging, map[], Payloads(a, render));
    PayloadsAreExpected(a, render);
    assert StagingSteps(staging, a, render)[1..] == writes;
  }

  /** A reader sees no directory or all three files; other names are never touched. */
  lemma CommitIsAtomic(
    tree: Tree, path: string, unique: string, a: Approval, render: Render, failAt: nat, survived: nat)
    ensures var plan := CommitPlan(tree, path, unique, a, render, failAt);
            var after := TakeAll(tree, Cut(plan.steps, survived));
            && Lookup(after, path) == (if plan.reply.Published? && survived >= |plan.steps|
                                       then Some(Dir(Expected(a, render))) else Lookup(tree, path))
            && SameExcept(tree, after, {path, StagingName(path, unique)})
            && (survived >= |plan.steps| && plan.reply.Published? ==> StagingName(path, unique) !in after)
  {
    var staging := StagingName(path, unique);
    assert |staging| > |path|;
    var plan := CommitPlan(tree, path, unique, a, render, failAt);
    var quiet := StagingSteps(staging, a, render);
    StagingIsBuilt(tree, staging, a, render);
    if plan.reply.Published? {
      CutBeforeRename(tree, quiet, staging, path, survived);
    } else if plan.steps != [] {
      var all := quiet + [Rename(staging, path)];
      assert all[..failAt] == quiet[..failAt];
      assert AllWithin(Cleanup(staging), staging);
      assert AllWithin(plan.steps, staging);
      StaysWithin(tree, Cut(plan.steps, survived), staging);
    }
  }

  lemma CleanupRemoves(tree: Tree, staging: string)
    ensures staging !in TakeAll(tree, Cleanup(staging))
  {
    var c := Cleanup(staging);
    TakeConcat(tree, c[..3], c[3..]);
    assert c == c[..3] + c[3..] && c[3..] == [RmDir(staging)] && c[3..][1..] == [];
    var mid := TakeAll(tree, c[..3]);
    assert TakeAll(Take(mid, RmDir(staging)), c[3..][1..]) == Take(mid, RmDir(staging));
  }

  /** An I/O error leaves no staging directory behind, unless the process also dies. */
  lemma FailureCleansUp(tree: Tree, path: string, unique: string, a: Approval, render: Render, failAt: nat)
    requires path !in tree && StagingName(path, unique) !in tree
    requires CommitPlan(tree, path, unique, a, render, failAt).reply.WriteFailed?
    ensures StagingName(path, unique) !in TakeAll(tree, CommitPlan(tree, path, unique, a, render, failAt).steps)
  {
    var staging := StagingName(path, unique);
    var all := StagingSteps(staging, a, render) + [Rename(staging, path)];
    if failAt > 0 {
      TakeConcat(tree, all[..failAt], Cleanup(staging));
      CleanupRemoves(TakeAll(tree, all[..failAt]), staging);
    } else {
      assert all[..0] + [] == [];
    }
  }

  /** The answer of a replacement: it publishes exactly when its name is free and no step fails. */
  lemma ReplaceOutcome(tree: Tree, name: string, unique: string, payload: Bytes, failAt: nat)
    ensures ReplacePlan(tree, name, unique, payload, failAt).reply ==
            if TemporaryName(name, unique) !in tree && failAt >= |payload| + 2 then Published else WriteFailed
    ensures ReplacePlan(tree, name, unique, payload, failAt).reply.Published? ==>
              |ReplacePlan(tree, name, unique, payload, failAt).steps| == |payload| + 2
  {
  }

  lemma {:induction false} WriteFilesLength(dir: string, payloads: seq<Payload>)
    ensures |WriteFiles(dir, payloads)| == |payloads| + TotalLength(payloads)
    decreases |payloads|
  {
    if payloads != [] {
      WriteFilesLength(dir, payloads[1..]);
    }
  }

  function TotalLength(payloads: seq<Payload>): nat {
    if payloads == [] then 0 else |payloads[0].content| + TotalLength(payloads[1..])
  }

  /** The steps of a whole commit: the directory, three files byte by byte, and the rename. */
  function CommitLength(a: Approval, render: Render): nat {
    5 + |a.approval| + |a.manifest| + |render(Sha256(a.approval), Sha256(a.manifest))|
  }

  /**
   The answer of a commit: over a free name and with a free staging name it publishes exactly when no
   step fails; over a taken name it is a repetition exactly when that is a directory with these files.
   */
  lemma CommitOutcome(tree: Tree, path: string, unique: string, a: Approval, render: Render, failAt: nat)
    ensures var plan := CommitPlan(tree, path, unique, a, render, failAt);
            if path !in tree then
              && plan.reply == (if StagingName(path, unique) !in tree && failAt >= CommitLength(a, render)
                                then Published else WriteFailed)
              && (plan.reply.Published? ==> |plan.steps| == CommitLength(a, render))
            else
              && plan.steps == []
              && plan.reply == (if tree[path].Dir?
                                   && Lookup(tree[path].files, APPROVAL) == Some(a.approval)
                                   && Lookup(tree[path].files, MANIFEST) == Some(a.manifest)
                                   && Lookup(tree[path].files, COMMITTED)
                                        == Some(render(Sha256(a.approval), Sha256(a.manifest)))
                                then AlreadyThere else Differs)
  {
    var ps := Payloads(a, render);
    WriteFilesLength(StagingName(path, unique), ps);
    var last := ps[1..][1..];
    assert last == [ps[2]] && last[1..] == [] && TotalLength(last) == |ps[2].content|;
    assert TotalLength(ps[1..]) == |ps[1].content| + TotalLength(last);
    if path in tree && tree[path].Dir? {
      var want := Expected(a, render);
      assert want[APPROVAL] == a.approval && want[MANIFEST] == a.manifest;
    }
  }

  // ----- any number of attempts -----

  datatype Attempt = Attempt(unique: string, approval: Approval, failAt: nat, survived: nat)

  function AfterAttempt(tree: Tree, path: string, render: Render, t: Attempt): Tree {
    TakeAll(tree, Cut(CommitPlan(tree, path, t.unique, t.approval, render, t.failAt).steps, t.survived))
  }

  function AfterAttempts(tree: Tree, path: string, render: Render, ts: seq<Attempt>): Tree
    decreases |ts|
  {
    if ts == [] then tree else AfterAttempts(AfterAttempt(tree, path, render, ts[0]), path, render, ts[1..])
  }

  lemma {:induction false} PublishedIsForever(tree: Tree, path: string, render: Render, ts: seq<Attempt>)
    requires path in tree
    ensures Lookup(AfterAttempts(tree, path, render, ts), path) == Lookup(tree, path)
    decreases |ts|
  {
    if ts != [] {
      var t := ts[0];
      CommitIsAtomic(tree, path, t.unique, t.approval, render, t.failAt, t.survived);
      PublishedIsForever(AfterAttempt(tree, path, render, t), path, render, ts[1..]);
    }
  }

  /** After any attempts, the directory is absent or is exactly what the first to finish published. */
  lemma {:induction false} AbsentOrComplete(tree: Tree, path: string, render: Render, ts: seq<Attempt>)
    requires path !in tree
    ensures var after := AfterAttempts(tree, path, render, ts);
            path in after ==> exists t :: t in ts && after[path] == Dir(Expected(t.approval, render))
    decreases |ts|
  {
    if ts != [] {
      var t := ts[0];
      var next := AfterAttempt(tree, path, render, t);
      CommitIsAtomic(tree, path, t.unique, t.approval, render, t.failAt, t.survived);
      if path in next {
        PublishedIsForever(next, path, render, ts[1..]);
        assert t in ts && next[path] == Dir(Expected(t.approval, render));
      } else {
        AbsentOrComplete(next, path, render, ts[1..]);
      }
    }
  }

  /** Over a published approval, an equal one is a no-op, another one is refused, and nothing is written. */
  lemma RepeatedCommit(
    tree: Tree, path: string, unique: string, first: Approval, a: Approval, render: Render, failAt: nat)
    requires Lookup(tree, path) == Some(Dir(Expected(first, render)))
    ensures CommitPlan(tree, path, unique, a, render, failAt)
            == Plan([], if a == first then AlreadyThere else Differs)
  {
    var have, want := Expected(first, render), Expected(a, render);
    if a != first {
      assert want[APPROVAL] == a.approval && have[APPROVAL] == first.approval;
      assert want[MANIFEST] == a.manifest && have[MANIFEST] == first.manifest;
    }
  }
}
