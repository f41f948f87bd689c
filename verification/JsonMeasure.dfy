/** The explicit-stack measure of a JSON value against its recursive definition. */
module JsonMeasure {
  import opened Wrappers
  import opened Json

  const NODE_LIMIT := 4096

  function Children(j: Json): seq<Json> {
    match j
    case Arr(items) => items
    case Obj(fields) => seq(|fields|, i requires 0 <= i < |fields| => fields[i].value)
    case _ => []
  }

  /** Every value in the tree counts, the root included; keys do not. */
  function Nodes(j: Json): (n: nat)
    ensures n > 0
    decreases j, 0
  {
    match j
    case Arr(items) => 1 + ItemNodes(items)
    case Obj(fields) => 1 + FieldNodes(fields)
    case _ => 1
  }

  function ItemNodes(items: seq<Json>): nat
    decreases items, |items|
  {
    if items == [] then 0 else Nodes(items[0]) + ItemNodes(items[1..])
  }

  function FieldNodes(fields: seq<Field>): nat
    decreases fields, |fields|
  {
    if fields == [] then 0 else Nodes(fields[0].value) + FieldNodes(fields[1..])
  }

  /** A scalar or an empty container has depth 1. */
  function Depth(j: Json): (d: nat)
    ensures d > 0
    decreases j, 0
  {
    match j
    case Arr(items) => 1 + ItemDepth(items)
    case Obj(fields) => 1 + FieldDepth(fields)
    case _ => 1
  }

  function ItemDepth(items: seq<Json>): nat
    decreases items, |items|
  {
    if items == [] then 0 else Max(Depth(items[0]), ItemDepth(items[1..]))
  }

  function FieldDepth(fields: seq<Field>): nat
    decreases fields, |fields|
  {
    if fields == [] then 0 else Max(Depth(fields[0].value), FieldDepth(fields[1..]))
  }

  lemma {:induction false} FieldsAreItems(fields: seq<Field>)
    ensures FieldNodes(fields) == ItemNodes(Children(Obj(fields)))
    ensures FieldDepth(fields) == ItemDepth(Children(Obj(fields)))
  {
    if fields != [] {
      FieldsAreItems(fields[1..]);
      assert Children(Obj(fields))[1..] == Children(Obj(fields[1..]));
    }
  }

  lemma TreeOfChildren(j: Json)
    ensures Nodes(j) == 1 + ItemNodes(Children(j))
    ensures Depth(j) == 1 + ItemDepth(Children(j))
  {
    if j.Obj? {
      FieldsAreItems(j.fields);
    }
  }

  // ----- the stack -----

  datatype Entry = Entry(value: Json, depth: nat)

  /** Nodes still to be counted, and the deepest level they reach. */
  ghost function Waiting(stack: seq<Entry>): nat {
    if stack == [] then 0 else Nodes(stack[|stack| - 1].value) + Waiting(stack[..|stack| - 1])
  }

  ghost function Reach(stack: seq<Entry>): nat
    requires forall e | e in stack :: e.depth > 0
  {
    if stack == [] then 0
    else
      var top := stack[|stack| - 1];
      Max(top.depth - 1 + Depth(top.value), Reach(stack[..|stack| - 1]))
  }

  function Entries(items: seq<Json>, depth: nat): seq<Entry> {
    seq(|items|, i requires 0 <= i < |items| => Entry(items[i], depth))
  }

  lemma {:induction false} PushAll(stack: seq<Entry>, items: seq<Json>, depth: nat)
    requires depth > 1 && forall e | e in stack :: e.depth > 0
    ensures Waiting(stack + Entries(items, depth)) == Waiting(stack) + ItemNodes(items)
    ensures Reach(stack + Entries(items, depth))
            == Max(Reach(stack), if items == [] then 0 else depth - 1 + ItemDepth(items))
    decreases |items|
  {
    if items == [] {
      assert stack + Entries(items, depth) == stack;
    } else {
      var pushed := stack + [Entry(items[0], depth)];
      assert pushed + Entries(items[1..], depth) == stack + Entries(items, depth);
      assert pushed[..|stack|] == stack;
      PushAll(pushed, items[1..], depth);
    }
  }

  lemma PopAndPush(stack: seq<Entry>)
    requires stack != [] && forall e | e in stack :: e.depth > 0
    ensures var top := stack[|stack| - 1];
            var next := stack[..|stack| - 1] + Entries(Children(top.value), top.depth + 1);
            && Waiting(next) == Waiting(stack) - 1
            && Max(top.depth, Reach(next)) == Reach(stack)
  {
    var top := stack[|stack| - 1];
    TreeOfChildren(top.value);
    PushAll(stack[..|stack| - 1], Children(top.value), top.depth + 1);
  }

  /** The depth of the value; None when it has more than NODE_LIMIT nodes. */
  method Measure(value: Json) returns (depth: Option<nat>)
    ensures depth == if Nodes(value) <= NODE_LIMIT then Some(Depth(value)) else None
  {
    var pending := [Entry(value, 1)];
    var maximum, nodes := 0, 0;
    assert pending[..0] == [];
    while pending != []
      invariant forall e | e in pending :: e.depth > 0
      invariant nodes + Waiting(pending) == Nodes(value)
      invariant Max(maximum, Reach(pending)) == Depth(value)
      invariant nodes <= NODE_LIMIT
      decreases Waiting(pending)
    {
      PopAndPush(pending);
      var current, level := pending[|pending| - 1].value, pending[|pending| - 1].depth;
      pending := pending[..|pending| - 1];
      maximum := Max(maximum, level);
      nodes := nodes + 1;
      if nodes > NODE_LIMIT {
        return None;
      }
      pending := pending + Entries(Children(current), level + 1);
    }
    return Some(maximum);
  }
}
