/**
 Publishing by rename: single files through a temporary name, and a directory through a staging
 directory.  Every byte written, name created, rename and removal is one step; an I/O error makes
 the writer clean up, and a crash may come after any step, clean-up included.
 */
module PublicationSpec {
  import opened Wrappers
  import opened AgentSchema

  type Bytes = seq<bv8>

  datatype Node = File(content: Bytes) | Dir(files: map<string, Bytes>)

  type Tree = map<string, Node>

  datatype Step =
    | OpenNew(name: string)
    | Append(name: string, byte: bv8)
    | Unlink(name: string)
    | MkDir(name: string)
    | Create(dir: string, file: string)
    | Extend(dir: string, file: string, byte: bv8)
    | Drop(dir: string, file: string)
    | RmDir(name: string)
    | Rename(source: string, target: string)

  function Take(tree: Tree, step: Step): Tree {
    match step
    case OpenNew(name) => tree[name := File([])]
    case Append(name, byte) =>
      if name in tree && tree[name].File? then tree[name := File(tree[name].content + [byte])] else tree
    case Unlink(name) => tree - {name}
    case MkDir(name) => tree[name := Dir(map[])]
    case Create(dir, file) =>
      if dir in tree && tree[dir].Dir? then tree[dir := Dir(tree[dir].files[file := []])] else tree
    case Extend(dir, file, byte) =>
      if dir in tree && tree[dir].Dir? && file in tree[dir].files
      then tree[dir := Dir(tree[dir].files[file := tree[dir].files[file] + [byte]])]
      else tree
    case Drop(dir, file) =>
      if dir in tree && tree[dir].Dir? then tree[dir := Dir(tree[dir].files - {file})] else tree
    case RmDir(name) => tree - {name}
    case Rename(source, target) =>
      if source in tree then (tree - {source})[target := tree[source]] else tree
  }

  function TakeAll(tree: Tree, steps: seq<Step>): Tree
    decreases |steps|
  {
    if steps == [] then tree else TakeAll(Take(tree, steps[0]), steps[1..])
  }

  /** What is under a name, if anything is. */
  function Lookup<T>(names: map<string, T>, name: string): Option<T> {
    if name in names then Some(names[name]) else None
  }

  // ----- _atomic_new and _atomic_replace: the same steps -----

  function TemporaryName(name: string, unique: string): string {
    "." + name + ".tmp-" + unique
  }

  function Appends(name: string, payload: Bytes): seq<Step> {
    seq(|payload|, i requires 0 <= i < |payload| => Append(name, payload[i]))
  }

  function ReplaceSteps(name: string, unique: string, payload: Bytes): seq<Step> {
    var temporary := TemporaryName(name, unique);
    [OpenNew(temporary)] + Appends(temporary, payload) + [Rename(temporary, name)]
  }

  datatype Reply = Published | AlreadyThere | Differs | WriteFailed

  datatype Plan = Plan(steps: seq<Step>, reply: Reply)

  /** A replacement whose step number failAt, if it has that many, raises an I/O error. */
  function ReplacePlan(tree: Tree, name: string, unique: string, payload: Bytes, failAt: nat): Plan {
    var temporary := TemporaryName(name, unique);
    var all := ReplaceSteps(name, unique, payload);
    if temporary in tree then Plan([Unlink(temporary)], WriteFailed)
    else if failAt < |all| then Plan(all[..failAt] + [Unlink(temporary)], WriteFailed)
    else Plan(all, Published)
  }

  // ----- _commit_approval_dir -----

  datatype Approval = Approval(approval: Bytes, manifest: Bytes)

  const APPROVAL := "approval.json"
  const MANIFEST := "approved-manifest.json"
  const COMMITTED := "COMMITTED.json"

  /** The text of COMMITTED.json, from the digests of the two other files. */
  type Render = (Digest<Bytes>, Digest<Bytes>) -> Bytes

  function Expected(a: Approval, render: Render): map<string, Bytes> {
    map[APPROVAL := a.approval,
        MANIFEST := a.manifest,
        COMMITTED := render(Sha256(a.approval), Sha256(a.manifest))]
  }

  function StagingName(path: string, unique: string): string {
    "." + path + ".staging-" + unique
  }

  function Extends(dir: string, file: string, payload: Bytes): seq<Step> {
    seq(|payload|, i requires 0 <= i < |payload| => Extend(dir, file, payload[i]))
  }

  function WriteFile(dir: string, file: string, payload: Bytes): seq<Step> {
    [Create(dir, file)] + Extends(dir, file, payload)
  }

  datatype Payload = Payload(file: string, content: Bytes)

  function WriteFiles(dir: string, payloads: seq<Payload>): seq<Step> {
    if payloads == [] then []
    else WriteFile(dir, payloads[0].file, payloads[0].content) + WriteFiles(dir, payloads[1..])
  }

  /** The three files in the order in which they are written. */
  function Payloads(a: Approval, render: Render): seq<Payload> {
    [Payload(APPROVAL, a.approval),
     Payload(MANIFEST, a.manifest),
     Payload(COMMITTED, render(Sha256(a.approval), Sha256(a.manifest)))]
  }

  function StagingSteps(staging: string, a: Approval, render: Render): seq<Step> {
    [MkDir(staging)] + WriteFiles(staging, Payloads(a, render))
  }

  function Cleanup(staging: string): seq<Step> {
    [Drop(staging, APPROVAL), Drop(staging, MANIFEST), Drop(staging, COMMITTED), RmDir(staging)]
  }

  /** An attempt to publish whose step number failAt, if it has that many, raises an I/O error. */
  function CommitPlan(tree: Tree, path: string, unique: string, a: Approval, render: Render, failAt: nat): Plan {
    var staging := StagingName(path, unique);
    if path in tree then
      Plan([], if tree[path].Dir? && Holds(tree[path].files, Expected(a, render)) then AlreadyThere else Differs)
    else if staging in tree then Plan([], WriteFailed)
    else
      var all := StagingSteps(staging, a, render) + [Rename(staging, path)];
      if failAt < |all| then Plan(all[..failAt] + (if failAt == 0 then [] else Cleanup(staging)), WriteFailed)
      else Plan(all, Published)
  }

  /** Every expected file is there with its expected bytes; other files are not looked at. */
  predicate Holds(files: map<string, Bytes>, expected: map<string, Bytes>) {
    forall name | name in expected :: name in files && files[name] == expected[name]
  }

  function Cut<T>(s: seq<T>, survived: nat): seq<T> {
    if survived < |s| then s[..survived] else s
  }
}
