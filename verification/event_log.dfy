/**
 * The part of an XES event log (IEEE 1849, Concept extension) that the
 * histogram reads: an already-parsed XML element tree whose root is the log
 * element, whose `trace` children hold `event` elements, whose children in
 * turn are attribute elements with `key` and `value` attributes.
 *
 * `Occurrences` walks root -> trace -> event -> attribute in document order
 * and collects the `value` of every attribute whose `key` is exactly
 * `concept:name`. An attribute element without a `key` (or a counted one
 * without a `value`) is a fault: the walk stops at the first one.
 */
module EventLog {
  import opened Wrappers

  /** An XML element: its tag name, its attributes and its child nodes. */
  datatype Node = Node(name: string, attributes: map<string, string>, children: seq<Node>)

  /** Why a log cannot be tallied. */
  datatype LogFault = MalformedXml | MissingKeyAttribute | MissingValueAttribute

  /** The event names collected so far, or the fault that stopped the walk. */
  type Collected = Result<seq<string>, LogFault>

  const TraceTag := "trace"
  const EventTag := "event"
  const KeyAttribute := "key"
  const ValueAttribute := "value"
  const ConceptName := "concept:name"

  /** Sequential composition: the first fault wins, otherwise the names are concatenated. */
  function Then(prefix: Collected, next: Collected): Collected {
    if prefix.Fail? then prefix
    else if next.Fail? then next
    else Ok(prefix.value + next.value)
  }

  /** Runs `step` over `nodes` in order and composes the results with `Then`. */
  function Concat(nodes: seq<Node>, step: Node -> Collected): Collected
    decreases |nodes|
  {
    if nodes == [] then Ok([])
    else Then(Concat(nodes[..|nodes| - 1], step), step(nodes[|nodes| - 1]))
  }

  /** One child of an event: its `key` must exist; a `concept:name` key contributes its `value`. */
  function AttributeStep(attribute: Node): Collected {
    if KeyAttribute !in attribute.attributes then Fail(MissingKeyAttribute)
    else if attribute.attributes[KeyAttribute] != ConceptName then Ok([])
    else if ValueAttribute !in attribute.attributes then Fail(MissingValueAttribute)
    else Ok([attribute.attributes[ValueAttribute]])
  }

  /** One child of a trace: only `event` elements are looked into. */
  function EventStep(event: Node): Collected {
    if event.name == EventTag then Concat(event.children, AttributeStep) else Ok([])
  }

  /** One child of the root: only `trace` elements are looked into. */
  function TraceStep(trace: Node): Collected {
    if trace.name == TraceTag then Concat(trace.children, EventStep) else Ok([])
  }

  /** The event names of the whole log, in document order. */
  function Occurrences(root: Node): Collected {
    Concat(root.children, TraceStep)
  }

  /** Extending the walk by one node composes that node's step onto the prefix. */
  lemma ConcatSnoc(nodes: seq<Node>, step: Node -> Collected, i: nat)
    requires i < |nodes|
    ensures Concat(nodes[..i + 1], step) == Then(Concat(nodes[..i], step), step(nodes[i]))
  {
    assert nodes[..i + 1][..i] == nodes[..i];
  }

  /** A walk that succeeded on a prefix extends by the next node's contribution. */
  lemma ExtendWalk(nodes: seq<Node>, step: Node -> Collected, i: nat, seen: seq<string>, more: seq<string>)
    requires i < |nodes| && Concat(nodes[..i], step) == Ok(seen) && step(nodes[i]) == Ok(more)
    ensures Concat(nodes[..i + 1], step) == Ok(seen + more)
  {
    ConcatSnoc(nodes, step, i);
  }

  /** Once a prefix of the walk has failed, the whole walk fails with the same fault. */
  lemma {:induction false} ConcatFailPersists(nodes: seq<Node>, step: Node -> Collected, i: nat)
    requires i <= |nodes| && Concat(nodes[..i], step).Fail?
    ensures Concat(nodes, step) == Concat(nodes[..i], step)
    decreases |nodes| - i
  {
    if i < |nodes| {
      ConcatSnoc(nodes, step, i);
      ConcatFailPersists(nodes, step, i + 1);
    } else {
      assert nodes[..i] == nodes;
    }
  }

  /** Walking a concatenation is walking both parts in order. */
  lemma {:induction false} ConcatAppend(a: seq<Node>, b: seq<Node>, step: Node -> Collected)
    ensures Concat(a + b, step) == Then(Concat(a, step), Concat(b, step))
    decreases |b|
  {
    if b == [] {
      assert a + b == a;
      if Concat(a, step).Ok? {
        assert Concat(a, step).value + [] == Concat(a, step).value;
      }
    } else {
      var b' := b[..|b| - 1];
      assert (a + b)[..|a + b| - 1] == a + b';
      ConcatAppend(a, b', step);
      ThenAssociative(Concat(a, step), Concat(b', step), step(b[|b| - 1]));
    }
  }

  lemma ThenAssociative(x: Collected, y: Collected, z: Collected)
    ensures Then(Then(x, y), z) == Then(x, Then(y, z))
  {
    if x.Ok? && y.Ok? && z.Ok? {
      assert (x.value + y.value) + z.value == x.value + (y.value + z.value);
    }
  }
}
