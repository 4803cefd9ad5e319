/**
 * The in-memory graph the passes rewrite: nodes are objects whose attributes, edges, constant
 * tensors and parent/child links are updated in place. The Node constructor, `add_child`,
 * `add_parent` and `get_unique_edge_name` belong to onnx_coreml/_graph.py, which is not part of
 * this model; they are written here from the contracts the passes rely on.
 */
module Graphs {
  import opened Faults
  import opened Tensors

  /** An attribute value; the passes consult only the integer and integer-list kinds. */
  datatype Attr = IntAttr(i: int) | IntsAttr(ints: seq<int>)

  /** The fields of a node the eligibility checks read, as a value. */
  datatype NodeView = NodeView(
    opType: string,
    attrs: map<string, Attr>,
    inputs: seq<string>,
    outputs: seq<string>,
    inputTensors: map<string, Tensor>)

  class Node {
    const name: string
    const opType: string
    var attrs: map<string, Attr>
    var inputs: seq<string>
    var outputs: seq<string>
    /** Constant tensors keyed by the input edge they feed. */
    var inputTensors: map<string, Tensor>
    var parents: seq<Node>
    var children: seq<Node>

    /** A fresh node has no constant inputs and no links. */
    constructor (name: string, opType: string, attrs: map<string, Attr>, inputs: seq<string>, outputs: seq<string>)
      ensures this.name == name && this.opType == opType && this.attrs == attrs
      ensures this.inputs == inputs && this.outputs == outputs
      ensures inputTensors == map[] && parents == [] && children == []
    {
      this.name := name;
      this.opType := opType;
      this.attrs := attrs;
      this.inputs := inputs;
      this.outputs := outputs;
      inputTensors := map[];
      parents := [];
      children := [];
    }

    function View(): (v: NodeView)
      reads this`attrs, this`inputs, this`outputs, this`inputTensors
      ensures v.opType == opType && v.attrs == attrs && v.inputs == inputs
      ensures v.outputs == outputs && v.inputTensors == inputTensors
    {
      NodeView(opType, attrs, inputs, outputs, inputTensors)
    }

    /** `add_child`: links `child` below this node, and this node above `child` unless it already is. */
    method AddChild(child: Node, ghost R: set<Node>)
      requires child !in children
      requires Closed(R) && this in R && child in R
      modifies this`children, child`parents
      ensures Closed(R)
      ensures children == old(children) + [child]
      ensures child.parents == if this in old(child.parents) then old(child.parents) else old(child.parents) + [this]
      ensures child != this ==> parents == old(parents) && child.children == old(child.children)
      ensures View() == old(View()) && child.View() == old(child.View())
    {
      children := children + [child];
      if this !in child.parents {
        child.parents := child.parents + [this];
      }
    }

    /** `add_parent`: links `parent` above this node, and this node below `parent` unless it already is. */
    method AddParent(parent: Node, ghost R: set<Node>)
      requires parent !in parents
      requires Closed(R) && this in R && parent in R
      modifies this`parents, parent`children
      ensures Closed(R)
      ensures parents == old(parents) + [parent]
      ensures parent.children == if this in old(parent.children) then old(parent.children) else old(parent.children) + [this]
      ensures parent != this ==> children == old(children) && parent.parents == old(parent.parents)
      ensures View() == old(View()) && parent.View() == old(parent.View())
    {
      parents := parents + [parent];
      if this !in parent.children {
        parent.children := parent.children + [this];
      }
    }
  }

  /** Every parent and child of a node in `R` is in `R`: the frame the passes may touch. */
  ghost predicate Closed(R: set<Node>)
    reads R`parents, R`children
  {
    forall n <- R :: (forall p <- n.parents :: p in R) && (forall c <- n.children :: c in R)
  }

  /**
   * The parents of every node of `R`, as a value. Here and below the value is read from the
   * heap only for keys in `R`, so that the map depends on the nodes of `R` and on nothing else.
   */
  ghost function ParentLists(R: set<Node>): (m: map<Node, seq<Node>>)
    reads R`parents
    ensures m.Keys == R && forall n <- R :: m[n] == n.parents
  {
    map n: Node | n in R :: if n in R then n.parents else []
  }

  /** The children of every node of `R`, as a value. */
  ghost function ChildLists(R: set<Node>): (m: map<Node, seq<Node>>)
    reads R`children
    ensures m.Keys == R && forall n <- R :: m[n] == n.children
  {
    map n: Node | n in R :: if n in R then n.children else []
  }

  /** The fields of every node of `R`, as a value. */
  ghost function ViewsOf(R: set<Node>): (m: map<Node, NodeView>)
    reads R`attrs, R`inputs, R`outputs, R`inputTensors
    ensures m.Keys == R && forall n <- R :: m[n] == n.View()
  {
    map n: Node | n in R :: if n in R then n.View() else NodeView("", map[], [], [], map[])
  }

  /** The fields, parents and children of every node of a set, as values: the graph at one moment. */
  datatype GraphState = GraphState(views: map<Node, NodeView>, parents: map<Node, seq<Node>>, children: map<Node, seq<Node>>)

  /** The state of the nodes of `R` now. */
  ghost function StateOf(R: set<Node>): (s: GraphState)
    reads R`attrs, R`inputs, R`outputs, R`inputTensors, R`parents, R`children
    ensures s.views.Keys == R && forall n <- R :: s.views[n] == n.View()
    ensures s.views == ViewsOf(R) && s.parents == ParentLists(R) && s.children == ChildLists(R)
  {
    GraphState(ViewsOf(R), ParentLists(R), ChildLists(R))
  }

  function NodeSet(nodes: seq<Node>): set<Node>
  {
    set n | n in nodes
  }

  /** A declared graph input or output: an edge name and its shape. */
  datatype ValueInfo = ValueInfo(name: string, shape: seq<int>)

  datatype Graph = Graph(nodes: seq<Node>, inputs: seq<ValueInfo>, outputs: seq<ValueInfo>)

  function Names(infos: seq<ValueInfo>): (r: seq<string>)
    ensures |r| == |infos| && forall i :: 0 <= i < |infos| ==> r[i] == infos[i].name
  {
    seq(|infos|, i requires 0 <= i < |infos| => infos[i].name)
  }

  /** Every edge name the nodes consume or produce. */
  function NodeEdges(nodes: seq<Node>): seq<string>
    reads nodes
    decreases |nodes|
  {
    if nodes == [] then []
    else
      var n := nodes[|nodes| - 1];
      NodeEdges(nodes[..|nodes| - 1]) + n.inputs + n.outputs
  }

  /** Every edge name in use in the graph. */
  function EdgeNames(g: Graph): seq<string>
    reads g.nodes
  {
    Names(g.inputs) + Names(g.outputs) + NodeEdges(g.nodes)
  }

  function MaxLength(names: seq<string>): (m: nat)
    ensures forall i :: 0 <= i < |names| ==> |names[i]| <= m
    decreases |names|
  {
    if names == [] then 0
    else
      var m := MaxLength(names[1..]);
      assert forall i :: 1 <= i < |names| ==> names[i] == names[1..][i - 1];
      if |names[0]| > m then |names[0]| else m
  }

  /**
   * `graph.get_unique_edge_name(base)`: an edge name no node and no declared input or output of
   * the graph uses; `base` itself when it is free. (How _graph.py picks a name otherwise is not
   * part of this model; padding with underscores past the longest name in use is one choice.)
   */
  function UniqueEdgeName(g: Graph, base: string): (r: string)
    reads g.nodes
    ensures r !in EdgeNames(g)
    ensures base !in EdgeNames(g) ==> r == base
  {
    var used := EdgeNames(g);
    if base !in used then base
    else
      var r := base + seq(MaxLength(used) + 1, _ => '_');
      assert forall i :: 0 <= i < |used| ==> |used[i]| < |r|;
      r
  }
}
