/**
 * DanglingOutputsRemover: every node forgets the outputs nobody reads, that is the edges that
 * are neither declared graph outputs nor inputs of one of the node's children. Only the
 * `outputs` lists change; the node list is returned as it was.
 */
module Dangling {
  import opened Sequences
  import opened Graphs

  /** The names of the graph's declared outputs, as the set the pass builds from them. */
  function OutputNames(graph: Graph): (r: set<string>)
    ensures forall o <- graph.outputs :: o.name in r
    ensures forall x <- r :: exists o <- graph.outputs :: o.name == x
  {
    set o <- graph.outputs :: o.name
  }

  /** Every input edge of the given children. */
  function ChildInputs(children: seq<Node>): set<string>
    reads set c <- children :: c`inputs
  {
    set c, x | c in children && x in c.inputs :: x
  }

  /** An output somebody reads: a declared graph output or an input of a child. */
  predicate Live(output: string, graphOutputs: set<string>, childInputs: set<string>)
  {
    output in graphOutputs || output in childInputs
  }

  /** What the pass leaves of a node's outputs. */
  function LiveOutputs(outputs: seq<string>, graphOutputs: set<string>, childInputs: set<string>): (r: seq<string>)
    ensures forall o <- r :: o in outputs && Live(o, graphOutputs, childInputs)
  {
    Filter(outputs, o => Live(o, graphOutputs, childInputs))
  }

  /**
   * The kept outputs are exactly the live ones, each with all its occurrences, in their original
   * order; a node all of whose outputs are read keeps its list as it is.
   */
  lemma LiveOutputsExactly(outputs: seq<string>, graphOutputs: set<string>, childInputs: set<string>)
    ensures var r := LiveOutputs(outputs, graphOutputs, childInputs);
      && (forall o :: o in r <==> o in outputs && Live(o, graphOutputs, childInputs))
      && (forall o :: multiset(r)[o] == if Live(o, graphOutputs, childInputs) then multiset(outputs)[o] else 0)
      && IsSubseq(r, outputs)
      && ((forall o <- outputs :: Live(o, graphOutputs, childInputs)) ==> r == outputs)
  {
    var keep := o => Live(o, graphOutputs, childInputs);
    forall o | o in outputs && Live(o, graphOutputs, childInputs)
      ensures o in LiveOutputs(outputs, graphOutputs, childInputs)
    {
      FilterKeeps(outputs, keep, o);
    }
    forall o
      ensures multiset(LiveOutputs(outputs, graphOutputs, childInputs))[o] ==
        if Live(o, graphOutputs, childInputs) then multiset(outputs)[o] else 0
    {
      FilterCount(outputs, keep, o);
    }
    FilterIsSubseq(outputs, keep);
    if forall o <- outputs :: Live(o, graphOutputs, childInputs) {
      FilterAllKept(outputs, keep);
    }
  }

  /** Running the pass twice over the same children changes nothing the second time. */
  lemma LiveOutputsIdempotent(outputs: seq<string>, graphOutputs: set<string>, childInputs: set<string>)
    ensures var r := LiveOutputs(outputs, graphOutputs, childInputs);
      LiveOutputs(r, graphOutputs, childInputs) == r
  {
    FilterAllKept(LiveOutputs(outputs, graphOutputs, childInputs), o => Live(o, graphOutputs, childInputs));
  }

  /** The `children_inputs` set: every input edge of every child of `node`. */
  method ChildrenInputs(node: Node) returns (s: set<string>)
    ensures s == ChildInputs(node.children)
  {
    s := {};
    for k := 0 to |node.children|
      invariant s == ChildInputs(node.children[..k])
    {
      var child := node.children[k];
      for j := 0 to |child.inputs|
        invariant s == ChildInputs(node.children[..k]) + set x <- child.inputs[..j]
      {
        s := s + {child.inputs[j]};
      }
      assert child.inputs[..|child.inputs|] == child.inputs;
      assert node.children[..k + 1] == node.children[..k] + [child];
    }
    assert node.children[..|node.children|] == node.children;
  }

  /**
   * One node of the pass: collects the outputs that are neither graph outputs nor read by a
   * child, then drops them from the node's list.
   */
  method PruneOutputs(node: Node, graphOutputs: set<string>)
    modifies node`outputs
    ensures node.outputs == LiveOutputs(old(node.outputs), graphOutputs, ChildInputs(node.children))
    ensures node.attrs == old(node.attrs) && node.inputs == old(node.inputs)
    ensures node.inputTensors == old(node.inputTensors)
    ensures node.parents == old(node.parents) && node.children == old(node.children)
  {
    var removed: set<string> := {};
    ghost var childInputs := ChildInputs(node.children);
    for k := 0 to |node.outputs|
      invariant unchanged(node)
      invariant removed == set o <- node.outputs[..k] | !Live(o, graphOutputs, childInputs)
    {
      var output := node.outputs[k];
      assert node.outputs[..k + 1] == node.outputs[..k] + [output];
      if output in graphOutputs {
        continue;
      }
      var childrenInputs := ChildrenInputs(node);
      if output in childrenInputs {
        continue;
      }
      removed := removed + {output};
    }
    assert node.outputs[..|node.outputs|] == node.outputs;
    FilterCongruent(node.outputs, out => out !in removed, o => Live(o, graphOutputs, childInputs));
    node.outputs := Filter(node.outputs, out => out !in removed);
  }

  /**
   * DanglingOutputsRemover.__call__: afterwards each node's outputs are exactly its live outputs
   * of before, in order; the frame lets nothing but the `outputs` lists change, and the same graph
   * comes back.
   */
  method RemoveDanglingOutputs(graph: Graph) returns (r: Graph)
    modifies graph.nodes`outputs
    ensures r == graph
    ensures forall n <- graph.nodes ::
      n.outputs == LiveOutputs(old(n.outputs), OutputNames(graph), old(ChildInputs(n.children)))
  {
    var nodes := graph.nodes;
    var graphOutputNames := OutputNames(graph);
    ghost var original := map n <- nodes :: n.outputs;
    ghost var consumed := map n <- nodes :: ChildInputs(n.children);
    ghost var done: set<Node> := {};
    for i := 0 to |nodes|
      invariant forall j :: 0 <= j < i ==> nodes[j] in done
      invariant forall n <- nodes ::
        n.outputs == if n in done then LiveOutputs(original[n], graphOutputNames, consumed[n]) else original[n]
    {
      done := PruneVisit(nodes[i], graphOutputNames, nodes, i, original, consumed, done);
    }
    r := graph;
  }

  /**
   * One turn of the loop over the nodes, stated against the outputs and children's inputs the
   * pass started from: the first `i + 1` nodes are done, and pruning a node a second time keeps
   * what the first time left.
   */
  method PruneVisit(node: Node, graphOutputs: set<string>, ghost nodes: seq<Node>, ghost i: nat,
                    ghost original: map<Node, seq<string>>, ghost consumed: map<Node, set<string>>,
                    ghost done: set<Node>)
    returns (ghost done': set<Node>)
    requires i < |nodes| && node == nodes[i]
    requires forall j :: 0 <= j < i ==> nodes[j] in done
    requires forall n <- nodes :: n in original && n in consumed
    requires ChildInputs(node.children) == consumed[node]
    requires forall n <- nodes ::
      n.outputs == if n in done then LiveOutputs(original[n], graphOutputs, consumed[n]) else original[n]
    modifies node`outputs
    ensures forall j :: 0 <= j <= i ==> nodes[j] in done'
    ensures forall n <- nodes ::
      n.outputs == if n in done' then LiveOutputs(original[n], graphOutputs, consumed[n]) else original[n]
  {
    if node in done {
      LiveOutputsIdempotent(original[node], graphOutputs, consumed[node]);
    }
    PruneOutputs(node, graphOutputs);
    done' := done + {node};
  }
}
