/** The search for the managed backend below a process, in a snapshot of the process table. */
module ProcessTree {
  import opened Wrappers

  datatype Row = Process(pid: int, parent: int, command: string) | Malformed

  const MARKER := "tinyllm.serving.vllm_entrypoint"

  predicate StandsAt(command: string, i: nat) {
    i + |MARKER| <= |command| && command[i..i + |MARKER|] == MARKER
  }

  predicate Matches(command: string) {
    exists i: nat :: i <= |command| && StandsAt(command, i)
  }

  // ----- the snapshot -----

  predicate OneParentEach(rows: seq<Row>) {
    forall i, j | 0 <= i < j < |rows| && rows[i].Process? && rows[j].Process? :: rows[i].pid != rows[j].pid
  }

  predicate IsChild(rows: seq<Row>, pid: int, parent: int) {
    exists i :: 0 <= i < |rows| && rows[i].Process? && rows[i].pid == pid && rows[i].parent == parent
  }

  /** A chain of n > 0 steps from parent to child leads from the start to the pid. */
  ghost predicate DescendantAt(rows: seq<Row>, start: int, pid: int, n: nat)
    decreases n
  {
    if n == 0 then false
    else if n == 1 then IsChild(rows, pid, start)
    else exists p :: IsChild(rows, pid, p) && DescendantAt(rows, start, p, n - 1)
  }

  ghost predicate Descendant(rows: seq<Row>, start: int, pid: int) {
    exists n: nat :: DescendantAt(rows, start, pid, n)
  }

  lemma ChildOfStart(rows: seq<Row>, start: int, pid: int)
    requires IsChild(rows, pid, start)
    ensures Descendant(rows, start, pid)
  {
    assert DescendantAt(rows, start, pid, 1);
  }

  lemma ChildOfDescendant(rows: seq<Row>, start: int, p: int, pid: int)
    requires Descendant(rows, start, p) && IsChild(rows, pid, p)
    ensures Descendant(rows, start, pid)
  {
    var n: nat :| DescendantAt(rows, start, p, n);
    assert DescendantAt(rows, start, pid, n + 1);
  }

  /** A set closed under children that holds the children of the start holds every descendant. */
  lemma {:induction false} ClosedHoldsDescendants(rows: seq<Row>, start: int, closed: set<int>, pid: int, n: nat)
    requires forall c | IsChild(rows, c, start) :: c in closed
    requires forall p, c | p in closed && IsChild(rows, c, p) :: c in closed
    requires DescendantAt(rows, start, pid, n)
    ensures pid in closed
    decreases n
  {
    if n > 1 {
      var p :| IsChild(rows, pid, p) && DescendantAt(rows, start, p, n - 1);
      ClosedHoldsDescendants(rows, start, closed, p, n - 1);
    }
  }

  // ----- the two dictionaries -----

  function ChildrenOf(rows: seq<Row>, parent: int): seq<int> {
    if rows == [] then []
    else
      var last := rows[|rows| - 1];
      ChildrenOf(rows[..|rows| - 1], parent) + if last.Process? && last.parent == parent then [last.pid] else []
  }

  lemma {:induction false} ChildrenExact(rows: seq<Row>, parent: int)
    requires OneParentEach(rows)
    ensures forall c :: c in ChildrenOf(rows, parent) <==> IsChild(rows, c, parent)
    ensures forall i, j | 0 <= i < j < |ChildrenOf(rows, parent)| ::
              ChildrenOf(rows, parent)[i] != ChildrenOf(rows, parent)[j]
  {
    if rows != [] {
      var n := |rows| - 1;
      var front := rows[..n];
      ChildrenExact(front, parent);
      forall c ensures IsChild(rows, c, parent) <==>
                       IsChild(front, c, parent) || (rows[n].Process? && rows[n].pid == c && rows[n].parent == parent)
      {
        if IsChild(front, c, parent) {
          var i :| 0 <= i < n && front[i].Process? && front[i].pid == c && front[i].parent == parent;
          assert rows[i].pid == c;
        }
        if i :| 0 <= i < |rows| && rows[i].Process? && rows[i].pid == c && rows[i].parent == parent {
          if i < n {
            assert front[i].pid == c;
          }
        }
      }
      assert rows[n].Process? ==> !IsChild(front, rows[n].pid, parent);
    }
  }

  ghost predicate ChildMapOk(rows: seq<Row>, children: map<int, seq<int>>) {
    forall p :: ChildrenOf(rows, p) == if p in children then children[p] else []
  }

  function CommandMap(rows: seq<Row>): map<int, string> {
    if rows == [] then map[]
    else
      var last := rows[|rows| - 1];
      var before := CommandMap(rows[..|rows| - 1]);
      if last.Process? then before[last.pid := last.command] else before
  }

  method ReadTable(rows: seq<Row>) returns (children: map<int, seq<int>>, commands: map<int, string>)
    ensures ChildMapOk(rows, children) && commands == CommandMap(rows)
  {
    children, commands := map[], map[];
    assert rows[..0] == [];
    for i := 0 to |rows|
      invariant ChildMapOk(rows[..i], children) && commands == CommandMap(rows[..i])
    {
      assert rows[..i + 1][..i] == rows[..i];
      match rows[i]
      case Malformed =>
      case Process(pid, parent, command) =>
        var siblings := if parent in children then children[parent] else [];
        children := children[parent := siblings + [pid]];
        commands := commands[pid := command];
    }
    assert rows[..|rows|] == rows;
  }

  /** commands.get(pid, "") */
  function CommandOf(rows: seq<Row>, pid: int): string {
    if pid in CommandMap(rows) then CommandMap(rows)[pid] else ""
  }

  /** With one row for each process, the command looked up is the one of its row. */
  lemma {:induction false} CommandIsOfRow(rows: seq<Row>, i: nat)
    requires OneParentEach(rows) && i < |rows| && rows[i].Process?
    ensures CommandOf(rows, rows[i].pid) == rows[i].command
  {
    var n := |rows| - 1;
    if i < n {
      CommandIsOfRow(rows[..n], i);
      PidIsKnown(rows[..n], i);
    }
  }

  lemma {:induction false} PidIsKnown(rows: seq<Row>, i: nat)
    requires i < |rows| && rows[i].Process?
    ensures rows[i].pid in CommandMap(rows)
  {
    if i < |rows| - 1 {
      PidIsKnown(rows[..|rows| - 1], i);
    }
  }

  // ----- the worklist -----

  /** What is found, visited or pending, is a descendant whose one parent is the start or visited. */
  ghost predicate Legitimate(rows: seq<Row>, start: int, visited: set<int>, x: int) {
    && Descendant(rows, start, x)
    && exists p :: IsChild(rows, x, p) && (p == start || p in visited)
  }

  ghost predicate AllLegitimate(rows: seq<Row>, start: int, visited: set<int>, pending: seq<int>) {
    && (forall x | x in visited :: Legitimate(rows, start, visited, x))
    && (forall x | x in pending :: Legitimate(rows, start, visited, x))
  }

  /** Nothing is pending twice or again. */
  ghost predicate Once(visited: set<int>, pending: seq<int>) {
    && (forall i, j | 0 <= i < j < |pending| :: pending[i] != pending[j])
    && (forall x | x in pending :: x !in visited)
  }

  /** The children of the start and of every visited process are found. */
  ghost predicate Complete(rows: seq<Row>, start: int, visited: set<int>, pending: seq<int>) {
    && (forall c | IsChild(rows, c, start) :: c in visited || c in pending)
    && (forall p, c | p in visited && IsChild(rows, c, p) :: c in visited || c in pending)
  }

  ghost predicate Found(rows: seq<Row>, start: int, visited: set<int>, pending: seq<int>) {
    AllLegitimate(rows, start, visited, pending) && Once(visited, pending) && Complete(rows, start, visited, pending)
  }

  lemma OnlyParent(rows: seq<Row>, c: int, p: int, q: int)
    requires OneParentEach(rows) && IsChild(rows, c, p) && IsChild(rows, c, q)
    ensures p == q
  {
    var i :| 0 <= i < |rows| && rows[i].Process? && rows[i].pid == c && rows[i].parent == p;
    var j :| 0 <= j < |rows| && rows[j].Process? && rows[j].pid == c && rows[j].parent == q;
    assert i == j;
  }

  ghost function Pids(rows: seq<Row>): set<int> {
    set i | 0 <= i < |rows| && rows[i].Process? :: rows[i].pid
  }

  lemma ChildIsNew(rows: seq<Row>, start: int, visited: set<int>, pending: seq<int>, pid: int, c: int)
    requires OneParentEach(rows) && !Descendant(rows, start, start)
    requires AllLegitimate(rows, start, visited, pending) && pid in pending && pid !in visited
    requires IsChild(rows, c, pid)
    ensures c !in visited && c !in pending
    ensures Legitimate(rows, start, visited + {pid}, c)
  {
    ChildOfDescendant(rows, start, pid, c);
    if c in visited || c in pending {
      assert Legitimate(rows, start, visited, c);
      var p :| IsChild(rows, c, p) && (p == start || p in visited);
      OnlyParent(rows, c, p, pid);
    }
  }

  lemma LegitimateLater(rows: seq<Row>, start: int, visited: set<int>, pid: int, x: int)
    requires Legitimate(rows, start, visited, x)
    ensures Legitimate(rows, start, visited + {pid}, x)
  {
    var p :| IsChild(rows, x, p) && (p == start || p in visited);
    assert p == start || p in visited + {pid};
  }

  lemma OnceStep(visited: set<int>, rest: seq<int>, pid: int, young: seq<int>)
    requires Once(visited, rest + [pid])
    requires forall i, j | 0 <= i < j < |young| :: young[i] != young[j]
    requires forall c | c in young :: c !in visited && c !in rest + [pid]
    ensures Once(visited + {pid}, rest + young)
  {
    var all, next := rest + [pid], rest + young;
    assert forall i | 0 <= i < |rest| :: all[i] == rest[i];
    assert all[|rest|] == pid;
    forall i, j | 0 <= i < j < |next| ensures next[i] != next[j] {
      if i < |rest| <= j {
        assert next[j] in young && next[i] == all[i] && all[i] in all;
      }
    }
    forall x | x in next ensures x !in visited + {pid} {
      if x in young {
        assert pid in all;
      } else {
        var i :| 0 <= i < |rest| && rest[i] == x;
        assert all[i] == x && all[i] != all[|rest|];
      }
    }
  }

  /** Popping a process and pushing its children finds nothing twice. */
  lemma FoundStep(rows: seq<Row>, start: int, visited: set<int>, rest: seq<int>, pid: int)
    requires OneParentEach(rows) && !Descendant(rows, start, start)
    requires Found(rows, start, visited, rest + [pid])
    ensures Found(rows, start, visited + {pid}, rest + ChildrenOf(rows, pid))
  {
    var young := ChildrenOf(rows, pid);
    var all, next, seen := rest + [pid], rest + young, visited + {pid};
    ChildrenExact(rows, pid);
    assert pid in all;
    forall c | c in young ensures c !in visited && c !in all && Legitimate(rows, start, seen, c) {
      ChildIsNew(rows, start, visited, all, pid, c);
    }
    OnceStep(visited, rest, pid, young);
    assert AllLegitimate(rows, start, seen, next) by {
      forall x | x in seen ensures Legitimate(rows, start, seen, x) {
        assert x in visited || x in all;
        LegitimateLater(rows, start, visited, pid, x);
      }
      forall x | x in next ensures Legitimate(rows, start, seen, x) {
        if x !in young {
          assert x in rest && x in all;
          LegitimateLater(rows, start, visited, pid, x);
        }
      }
    }
    assert Complete(rows, start, seen, next) by {
      forall c | c in visited || c in all ensures c in seen || c in next {
      }
    }
  }

  lemma FoundStart(rows: seq<Row>, start: int)
    requires OneParentEach(rows)
    ensures Found(rows, start, {}, ChildrenOf(rows, start))
  {
    ChildrenExact(rows, start);
    forall c | c in ChildrenOf(rows, start) ensures Descendant(rows, start, c) {
      ChildOfStart(rows, start, c);
    }
  }

  lemma FoundIsListed(rows: seq<Row>, start: int, visited: set<int>, pid: int)
    requires Legitimate(rows, start, visited, pid)
    ensures pid in Pids(rows)
  {
    var p :| IsChild(rows, pid, p) && (p == start || p in visited);
  }

  lemma AllFound(rows: seq<Row>, start: int, visited: set<int>)
    requires Found(rows, start, visited, [])
    ensures forall d | Descendant(rows, start, d) :: d in visited
  {
    forall d | Descendant(rows, start, d) ensures d in visited {
      var n: nat :| DescendantAt(rows, start, d, n);
      ClosedHoldsDescendants(rows, start, visited, d, n);
    }
  }

  /** Take one process off the stack; its children go on it unless it is the backend. */
  method Visit(rows: seq<Row>, start: int, children: map<int, seq<int>>, commands: map<int, string>,
               pending: seq<int>, ghost visited: set<int>)
    returns (pid: int, matched: bool, next: seq<int>)
    requires OneParentEach(rows) && !Descendant(rows, start, start)
    requires ChildMapOk(rows, children) && commands == CommandMap(rows)
    requires pending != [] && Found(rows, start, visited, pending)
    ensures Descendant(rows, start, pid) && pid in Pids(rows) && pid !in visited
    ensures matched == Matches(CommandOf(rows, pid))
    ensures Found(rows, start, visited + {pid}, next)
  {
    pid := pending[|pending| - 1];
    var rest := pending[..|pending| - 1];
    assert pending == rest + [pid] && pid in pending;
    FoundIsListed(rows, start, visited, pid);
    FoundStep(rows, start, visited, rest, pid);
    matched := Matches(if pid in commands then commands[pid] else "");
    next := rest + if pid in children then children[pid] else [];
  }

  /** The found processes, none of the visited ones matching. */
  ghost predicate Searching(rows: seq<Row>, start: int, visited: set<int>, pending: seq<int>) {
    && Found(rows, start, visited, pending)
    && visited <= Pids(rows)
    && forall x | x in visited :: !Matches(CommandOf(rows, x))
  }

  lemma FewerLeft(rows: seq<Row>, visited: set<int>, pid: int)
    requires pid in Pids(rows) && pid !in visited
    ensures |Pids(rows) - (visited + {pid})| < |Pids(rows) - visited|
  {
    assert Pids(rows) - visited == (Pids(rows) - (visited + {pid})) + {pid};
  }

  lemma NoneMatches(rows: seq<Row>, start: int, visited: set<int>)
    requires Searching(rows, start, visited, [])
    ensures forall d | Descendant(rows, start, d) :: !Matches(CommandOf(rows, d))
  {
    AllFound(rows, start, visited);
  }

  method Search(rows: seq<Row>, start: int, children: map<int, seq<int>>, commands: map<int, string>)
    returns (found: Option<int>)
    requires OneParentEach(rows) && !Descendant(rows, start, start)
    requires ChildMapOk(rows, children) && commands == CommandMap(rows)
    ensures found.Some? ==> Descendant(rows, start, found.value) && Matches(CommandOf(rows, found.value))
    ensures found.None? ==> forall d | Descendant(rows, start, d) :: !Matches(CommandOf(rows, d))
  {
    var pending := if start in children then children[start] else [];
    ghost var visited: set<int> := {};
    FoundStart(rows, start);
    while pending != []
      invariant Searching(rows, start, visited, pending)
      decreases |Pids(rows) - visited|
    {
      var pid, matched, next := Visit(rows, start, children, commands, pending, visited);
      if matched {
        return Some(pid);
      }
      FewerLeft(rows, visited, pid);
      pending, visited := next, visited + {pid};
    }
    NoneMatches(rows, start, visited);
    return None;
  }

  /** The backend below the start; None is the raised error. */
  method BackendPid(rows: seq<Row>, start: int) returns (found: Option<int>)
    requires OneParentEach(rows) && !Descendant(rows, start, start)
    ensures found.Some? ==> Descendant(rows, start, found.value) && Matches(CommandOf(rows, found.value))
    ensures found.None? <==> forall d | Descendant(rows, start, d) :: !Matches(CommandOf(rows, d))
  {
    var children, commands := ReadTable(rows);
    found := Search(rows, start, children, commands);
  }

  // ----- a start that is its own descendant -----

  /** One round that found no match: the last process is popped and its children are pushed. */
  function RoundOf(rows: seq<Row>, pending: seq<int>): seq<int>
    requires pending != []
  {
    pending[..|pending| - 1] + ChildrenOf(rows, pending[|pending| - 1])
  }

  /** The stack after k rounds that found no match. */
  function PendingAfter(rows: seq<Row>, start: int, k: nat): seq<int> {
    if k == 0 then ChildrenOf(rows, start)
    else
      var before := PendingAfter(rows, start, k - 1);
      if before == [] then [] else RoundOf(rows, before)
  }

  /** A process from which a chain of children leads to the start, or the start. */
  ghost predicate OnCycle(rows: seq<Row>, start: int, p: int) {
    p == start || Descendant(rows, p, start)
  }

  /** The first child on a chain of descent. */
  lemma {:induction false} FirstChild(rows: seq<Row>, p: int, pid: int, n: nat) returns (c: int)
    requires DescendantAt(rows, p, pid, n)
    ensures IsChild(rows, c, p) && (c == pid || Descendant(rows, c, pid))
    decreases n
  {
    if n == 1 {
      c := pid;
    } else {
      var q :| IsChild(rows, pid, q) && DescendantAt(rows, p, q, n - 1);
      c := FirstChild(rows, p, q, n - 1);
      if c == q {
        ChildOfStart(rows, c, pid);
      } else {
        ChildOfDescendant(rows, c, q, pid);
      }
    }
  }

  lemma NextOnCycle(rows: seq<Row>, start: int, p: int) returns (c: int)
    requires Descendant(rows, start, start) && OnCycle(rows, start, p)
    ensures IsChild(rows, c, p) && OnCycle(rows, start, c)
  {
    var n: nat :| DescendantAt(rows, p, start, n);
    c := FirstChild(rows, p, start, n);
  }

  /** Only descendants of the start are pending, one of the cycle among them. */
  ghost predicate Endless(rows: seq<Row>, start: int, pending: seq<int>) {
    && (exists p :: p in pending && OnCycle(rows, start, p))
    && (forall p | p in pending :: Descendant(rows, start, p))
  }

  lemma EndlessStart(rows: seq<Row>, start: int)
    requires OneParentEach(rows) && Descendant(rows, start, start)
    ensures Endless(rows, start, ChildrenOf(rows, start))
  {
    var c := NextOnCycle(rows, start, start);
    ChildrenExact(rows, start);
    assert c in ChildrenOf(rows, start);
    forall p | p in ChildrenOf(rows, start) ensures Descendant(rows, start, p) {
      ChildOfStart(rows, start, p);
    }
  }

  lemma RoundMembers(rows: seq<Row>, pending: seq<int>, x: int)
    requires pending != []
    ensures x in RoundOf(rows, pending) <==>
              x in pending[..|pending| - 1] || x in ChildrenOf(rows, pending[|pending| - 1])
    ensures x in pending <==> x in pending[..|pending| - 1] || x == pending[|pending| - 1]
  {
  }

  /** A process of the cycle is pending after the round: the same one, or a child of the popped one. */
  lemma CycleStaysPending(rows: seq<Row>, start: int, pending: seq<int>, p: int) returns (c: int)
    requires OneParentEach(rows) && Descendant(rows, start, start)
    requires p in pending && OnCycle(rows, start, p)
    ensures c in RoundOf(rows, pending) && OnCycle(rows, start, c)
  {
    RoundMembers(rows, pending, p);
    if p == pending[|pending| - 1] {
      c := NextOnCycle(rows, start, p);
      ChildrenExact(rows, p);
      RoundMembers(rows, pending, c);
    } else {
      c := p;
    }
  }

  lemma DescendantsStayPending(rows: seq<Row>, start: int, pending: seq<int>, q: int)
    requires OneParentEach(rows)
    requires pending != [] && forall p | p in pending :: Descendant(rows, start, p)
    requires q in RoundOf(rows, pending)
    ensures Descendant(rows, start, q)
  {
    RoundMembers(rows, pending, q);
    var popped := pending[|pending| - 1];
    if q in ChildrenOf(rows, popped) {
      ChildrenExact(rows, popped);
      ChildOfDescendant(rows, start, popped, q);
    }
  }

  lemma EndlessRound(rows: seq<Row>, start: int, pending: seq<int>)
    requires OneParentEach(rows) && Descendant(rows, start, start)
    requires Endless(rows, start, pending)
    ensures pending != [] && Endless(rows, start, RoundOf(rows, pending))
  {
    var p :| p in pending && OnCycle(rows, start, p);
    var c := CycleStaysPending(rows, start, pending, p);
    forall q | q in RoundOf(rows, pending) ensures Descendant(rows, start, q) {
      DescendantsStayPending(rows, start, pending, q);
    }
  }

  lemma {:induction false} EndlessForever(rows: seq<Row>, start: int, k: nat)
    requires OneParentEach(rows) && Descendant(rows, start, start)
    ensures Endless(rows, start, PendingAfter(rows, start, k))
  {
    if k == 0 {
      EndlessStart(rows, start);
    } else {
      EndlessForever(rows, start, k - 1);
      EndlessRound(rows, start, PendingAfter(rows, start, k - 1));
    }
  }

  /**
   A start that is its own descendant: unless some descendant matches, no round is the last one.  The
   stack is never empty, and what is popped never matches.
   */
  lemma CycleNeverEnds(rows: seq<Row>, start: int, k: nat)
    requires OneParentEach(rows) && Descendant(rows, start, start)
    requires forall d | Descendant(rows, start, d) :: !Matches(CommandOf(rows, d))
    ensures PendingAfter(rows, start, k) != []
    ensures forall p | p in PendingAfter(rows, start, k) :: Descendant(rows, start, p) && !Matches(CommandOf(rows, p))
  {
    EndlessForever(rows, start, k);
  }
}
