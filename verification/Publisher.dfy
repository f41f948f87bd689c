/** The publishing code, step by step, on a file system that may fail or lose its process. */
module Publisher {
  import opened Wrappers
  import opened PublicationSpec
  import opened PublicationTheorems

  datatype Status = Alive | Error | Killed

  /** What happens to a list of steps with stepsLeft until death and errorIn until an I/O error. */
  ghost predicate Ran(
    t0: Tree, n0: nat, e0: nat, steps: seq<Step>, t1: Tree, n1: nat, e1: nat, status: Status)
  {
    match status
    case Alive => |steps| <= n0 && |steps| <= e0 && t1 == TakeAll(t0, steps) && n1 == n0 - |steps| && e1 == e0 - |steps|
    case Error => e0 < |steps| && e0 <= n0 && t1 == TakeAll(t0, steps[..e0]) && n1 == n0 - e0
    case Killed => n0 < |steps| && n0 < e0 && t1 == TakeAll(t0, steps[..n0])
  }

  lemma Chain(
    t0: Tree, n0: nat, e0: nat, a: seq<Step>, t1: Tree, n1: nat, e1: nat,
    b: seq<Step>, t2: Tree, n2: nat, e2: nat, status: Status)
    requires Ran(t0, n0, e0, a, t1, n1, e1, Alive) && Ran(t1, n1, e1, b, t2, n2, e2, status)
    ensures Ran(t0, n0, e0, a + b, t2, n2, e2, status)
  {
    var done := if status.Alive? then b else if status.Error? then b[..e1] else b[..n1];
    assert (a + b)[..|a| + |done|] == a + done;
    TakeConcat(t0, a, done);
    assert (a + b)[..|a + b|] == a + b;
  }

  lemma Stopped(
    t0: Tree, n0: nat, e0: nat, a: seq<Step>, t1: Tree, n1: nat, e1: nat, status: Status, b: seq<Step>)
    requires Ran(t0, n0, e0, a, t1, n1, e1, status) && !status.Alive?
    ensures Ran(t0, n0, e0, a + b, t1, n1, e1, status)
  {
    var k := if status.Error? then e0 else n0;
    assert (a + b)[..k] == a[..k];
  }

  class FileSystem {
    var tree: Tree
    var stepsLeft: nat
    var errorIn: nat

    constructor (tree: Tree, stepsLeft: nat, errorIn: nat)
      ensures this.tree == tree && this.stepsLeft == stepsLeft && this.errorIn == errorIn
    {
      this.tree, this.stepsLeft, this.errorIn := tree, stepsLeft, errorIn;
    }

    method Perform(step: Step) returns (status: Status)
      modifies this
      ensures Ran(old(tree), old(stepsLeft), old(errorIn), [step], tree, stepsLeft, errorIn, status)
    {
      if errorIn == 0 {
        return Error;
      }
      if stepsLeft == 0 {
        return Killed;
      }
      tree := Take(tree, step);
      stepsLeft, errorIn := stepsLeft - 1, errorIn - 1;
      assert [step][1..] == [];
      return Alive;
    }

    /** Perform a next step after `done`, on the account of the whole list. */
    method Continue(
      step: Step, ghost t0: Tree, ghost n0: nat, ghost e0: nat, ghost done: seq<Step>, ghost rest: seq<Step>)
      returns (status: Status)
      requires Ran(t0, n0, e0, done, tree, stepsLeft, errorIn, Alive)
      modifies this
      ensures status.Alive? ==> Ran(t0, n0, e0, done + [step], tree, stepsLeft, errorIn, Alive)
      ensures !status.Alive? ==> Ran(t0, n0, e0, done + [step] + rest, tree, stepsLeft, errorIn, status)
    {
      ghost var t1, n1, e1 := tree, stepsLeft, errorIn;
      status := Perform(step);
      Chain(t0, n0, e0, done, t1, n1, e1, [step], tree, stepsLeft, errorIn, status);
      if !status.Alive? {
        Stopped(t0, n0, e0, done + [step], tree, stepsLeft, errorIn, status, rest);
      }
    }

    /** Write the bytes of a new temporary file. */
    method WriteTemporary(name: string, payload: Bytes) returns (status: Status)
      modifies this
      ensures Ran(old(tree), old(stepsLeft), old(errorIn), [OpenNew(name)] + Appends(name, payload),
                  tree, stepsLeft, errorIn, status)
    {
      ghost var t0, n0, e0 := tree, stepsLeft, errorIn;
      ghost var all := [OpenNew(name)] + Appends(name, payload);
      status := Continue(OpenNew(name), t0, n0, e0, [], all[1..]);
      assert [] + [OpenNew(name)] == all[..1] && all[..1] + all[1..] == all;
      if !status.Alive? {
        return;
      }
      for i := 0 to |payload|
        invariant status.Alive? && Ran(t0, n0, e0, all[..i + 1], tree, stepsLeft, errorIn, Alive)
      {
        status := Continue(Append(name, payload[i]), t0, n0, e0, all[..i + 1], all[i + 2..]);
        assert all[..i + 1] + [Append(name, payload[i])] == all[..i + 2];
        assert all[..i + 2] + all[i + 2..] == all;
        if !status.Alive? {
          return;
        }
      }
      assert all[..|payload| + 1] == all;
    }

    /** Write one file of the staging directory. */
    method WriteStaged(dir: string, file: string, payload: Bytes) returns (status: Status)
      modifies this
      ensures Ran(old(tree), old(stepsLeft), old(errorIn), WriteFile(dir, file, payload),
                  tree, stepsLeft, errorIn, status)
    {
      ghost var t0, n0, e0 := tree, stepsLeft, errorIn;
      ghost var all := WriteFile(dir, file, payload);
      status := Continue(Create(dir, file), t0, n0, e0, [], all[1..]);
      assert [] + [Create(dir, file)] == all[..1] && all[..1] + all[1..] == all;
      if !status.Alive? {
        return;
      }
      for i := 0 to |payload|
        invariant status.Alive? && Ran(t0, n0, e0, all[..i + 1], tree, stepsLeft, errorIn, Alive)
      {
        status := Continue(Extend(dir, file, payload[i]), t0, n0, e0, all[..i + 1], all[i + 2..]);
        assert all[..i + 1] + [Extend(dir, file, payload[i])] == all[..i + 2];
        assert all[..i + 2] + all[i + 2..] == all;
        if !status.Alive? {
          return;
        }
      }
      assert all[..|payload| + 1] == all;
    }

    /** Clean-up steps: only a crash stops them. */
    method Discard(steps: seq<Step>) returns (alive: bool)
      modifies this
      ensures tree == TakeAll(old(tree), Cut(steps, old(stepsLeft)))
      ensures alive == (|steps| <= old(stepsLeft))
    {
      ghost var t0, n0 := tree, stepsLeft;
      assert steps[..0] == [];
      for i := 0 to |steps|
        invariant i <= n0 && stepsLeft == n0 - i && tree == TakeAll(t0, steps[..i])
      {
        if stepsLeft == 0 {
          return false;
        }
        TakeConcat(t0, steps[..i], [steps[i]]);
        assert steps[..i] + [steps[i]] == steps[..i + 1];
        assert [steps[i]][1..] == [];
        tree, stepsLeft := Take(tree, steps[i]), stepsLeft - 1;
      }
      assert steps[..|steps|] == steps;
      alive := true;
    }

    /** How a try block with its clean-up ends, on the account of the whole plan. */
    ghost predicate Carried(t0: Tree, n0: nat, plan: Plan, reply: Option<Reply>)
      reads this
    {
      && tree == TakeAll(t0, Cut(plan.steps, n0))
      && reply == if |plan.steps| <= n0 then Some(plan.reply) else None
    }

    /** Settle a try block that ran `all`: clean up after an I/O error. */
    method Settle(
      status: Status, cleanup: seq<Step>, ghost t0: Tree, ghost n0: nat, ghost e0: nat, ghost all: seq<Step>)
      returns (reply: Option<Reply>)
      requires Ran(t0, n0, e0, all, tree, stepsLeft, errorIn, status)
      modifies this
      ensures Carried(
                t0, n0, if e0 < |all| then Plan(all[..e0] + cleanup, WriteFailed) else Plan(all, Published), reply)
    {
      match status
      case Alive => reply := Some(Published);
      case Killed =>
        reply := None;
        if e0 < |all| {
          assert Cut(all[..e0] + cleanup, n0) == all[..n0];
        }
      case Error =>
        ghost var t1, n1 := tree, stepsLeft;
        var alive := Discard(cleanup);
        TakeConcat(t0, all[..e0], Cut(cleanup, n1));
        assert Cut(all[..e0] + cleanup, n0) == all[..e0] + Cut(cleanup, n1);
        reply := if alive then Some(WriteFailed) else None;
    }

    /** Replace a file by way of a temporary one beside it. */
    method AtomicReplace(name: string, unique: string, payload: Bytes) returns (reply: Option<Reply>)
      modifies this
      ensures Carried(old(tree), old(stepsLeft), ReplacePlan(old(tree), name, unique, payload, old(errorIn)), reply)
    {
      ghost var t0, n0, e0 := tree, stepsLeft, errorIn;
      var temporary := TemporaryName(name, unique);
      if temporary in tree {
        var alive := Discard([Unlink(temporary)]);
        return if alive then Some(WriteFailed) else None;
      }
      ghost var quiet := [OpenNew(temporary)] + Appends(temporary, payload);
      ghost var all := quiet + [Rename(temporary, name)];
      var status := WriteTemporary(temporary, payload);
      if status.Alive? {
        status := Continue(Rename(temporary, name), t0, n0, e0, quiet, []);
        assert all + [] == all;
      } else {
        Stopped(t0, n0, e0, quiet, tree, stepsLeft, errorIn, status, [Rename(temporary, name)]);
      }
      reply := Settle(status, [Unlink(temporary)], t0, n0, e0, all);
    }

    /** Fill a staging directory and rename it into place. */
    method CommitApprovalDir(path: string, unique: string, a: Approval, render: Render) returns (reply: Option<Reply>)
      modifies this
      ensures Carried(old(tree), old(stepsLeft), CommitPlan(old(tree), path, unique, a, render, old(errorIn)), reply)
    {
      ghost var t0, n0, e0 := tree, stepsLeft, errorIn;
      var staging := StagingName(path, unique);
      if path in tree {
        var same := tree[path].Dir? && Holds(tree[path].files, Expected(a, render));
        return Some(if same then AlreadyThere else Differs);
      }
      if staging in tree {
        return Some(WriteFailed);
      }
      ghost var quiet := StagingSteps(staging, a, render);
      ghost var all := quiet + [Rename(staging, path)];
      var status := Perform(MkDir(staging));
      if status.Error? {
        return Some(WriteFailed);
      }
      if status.Alive? {
        status := FillStaging(staging, a, render, t0, n0, e0);
      } else {
        assert [MkDir(staging)] + quiet[1..] == quiet;
        Stopped(t0, n0, e0, [MkDir(staging)], tree, stepsLeft, errorIn, status, quiet[1..]);
      }
      if status.Alive? {
        status := Continue(Rename(staging, path), t0, n0, e0, quiet, []);
        assert all + [] == all;
      } else {
        Stopped(t0, n0, e0, quiet, tree, stepsLeft, errorIn, status, [Rename(staging, path)]);
      }
      reply := Settle(status, Cleanup(staging), t0, n0, e0, all);
    }

    /** The three files, in their order. */
    method FillStaging(staging: string, a: Approval, render: Render, ghost t0: Tree, ghost n0: nat, ghost e0: nat)
      returns (status: Status)
      requires Ran(t0, n0, e0, [MkDir(staging)], tree, stepsLeft, errorIn, Alive)
      modifies this
      ensures Ran(t0, n0, e0, StagingSteps(staging, a, render), tree, stepsLeft, errorIn, status)
    {
      var payloads := Payloads(a, render);
      ghost var done := [MkDir(staging)];
      ghost var all := StagingSteps(staging, a, render);
      assert payloads[0..] == payloads;
      for i := 0 to |payloads|
        invariant Ran(t0, n0, e0, done, tree, stepsLeft, errorIn, Alive)
        invariant done + WriteFiles(staging, payloads[i..]) == all
      {
        status, done := StageNext(staging, payloads[i], payloads[i..], t0, n0, e0, done);
        assert payloads[i..][1..] == payloads[i + 1..];
        if !status.Alive? {
          return;
        }
      }
      assert done + [] == done;
      status := Alive;
    }

    method StageNext(
      staging: string, p: Payload, ghost todo: seq<Payload>,
      ghost t0: Tree, ghost n0: nat, ghost e0: nat, ghost done: seq<Step>)
      returns (status: Status, ghost total: seq<Step>)
      requires todo != [] && todo[0] == p
      requires Ran(t0, n0, e0, done, tree, stepsLeft, errorIn, Alive)
      modifies this
      ensures total + WriteFiles(staging, todo[1..]) == done + WriteFiles(staging, todo)
      ensures status.Alive? ==> Ran(t0, n0, e0, total, tree, stepsLeft, errorIn, Alive)
      ensures !status.Alive? ==>
                Ran(t0, n0, e0, done + WriteFiles(staging, todo), tree, stepsLeft, errorIn, status)
    {
      ghost var t1, n1, e1 := tree, stepsLeft, errorIn;
      ghost var next, rest := WriteFile(staging, p.file, p.content), WriteFiles(staging, todo[1..]);
      status := WriteStaged(staging, p.file, p.content);
      total := done + next;
      Chain(t0, n0, e0, done, t1, n1, e1, next, tree, stepsLeft, errorIn, status);
      assert total + rest == done + (next + rest);
      if !status.Alive? {
        Stopped(t0, n0, e0, total, tree, stepsLeft, errorIn, status, rest);
      }
    }
  }
}
