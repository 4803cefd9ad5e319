/**
 * The `merge` methods of the two-node rules and NodesFuser's default merge. Each updates the
 * window's nodes in place and returns the replacement list. The new parameters of the surviving
 * node are given by a side-effect-free function of the two nodes' fields; the lemmas below say
 * what those parameters compute, per output channel.
 */
module Merges {
  import opened Faults
  import opened Tensors
  import opened Graphs
  import opened Sequences

  /** `node.input_tensors[node.inputs[i]]`. */
  function InputTensor(v: NodeView, i: nat): (r: Result<Tensor>)
    ensures r.Ok? <==> i < |v.inputs| && v.inputs[i] in v.inputTensors
    ensures r.Ok? ==> r.value == v.inputTensors[v.inputs[i]]
    ensures i >= |v.inputs| ==> r == Fail(IndexError)
    ensures i < |v.inputs| && v.inputs[i] !in v.inputTensors ==> r == Fail(KeyError(v.inputs[i]))
  {
    if i >= |v.inputs| then Fail(IndexError)
    else if v.inputs[i] !in v.inputTensors then Fail(KeyError(v.inputs[i]))
    else Ok(v.inputTensors[v.inputs[i]])
  }

  /** `tensors[key]`. */
  function Lookup(tensors: map<string, Tensor>, key: string): (r: Result<Tensor>)
    ensures r.Ok? <==> key in tensors
    ensures r.Ok? ==> r.value == tensors[key]
  {
    if key in tensors then Ok(tensors[key]) else Fail(KeyError(key))
  }

  /** The edge ConvAddFuser puts the bias on: the Conv's third input, or `<conv name>_bias`. */
  function BiasEdge(inputs: seq<string>, convName: string): string
  {
    if |inputs| > 2 then inputs[2] else convName + "_bias"
  }

  /** The Conv's bias before the fusion: its third input's tensor, or zeros, one per output channel. */
  function ConvBias(p: NodeView, channels: int): (r: Result<Tensor>)
    ensures |p.inputs| <= 2 ==> (r.Ok? <==> channels >= 0)
    ensures |p.inputs| <= 2 && r.Ok? ==> r.value == Zeros(channels)
    ensures |p.inputs| > 2 ==> r == Lookup(p.inputTensors, p.inputs[2])
  {
    if |p.inputs| > 2 then Lookup(p.inputTensors, p.inputs[2])
    else if channels < 0 then Fail(ValueError)
    else Ok(Zeros(channels))
  }

  /**
   * The Conv node's fields after ConvAddFuser.merge: the bias edge appended when missing, the
   * bias increased by the Add's constant, and the Add's outputs. The number of output channels is
   * the weight's first dimension.
   */
  function ConvAddFused(p: NodeView, convName: string, c: NodeView): Result<NodeView>
  {
    var weight :- InputTensor(p, 1);
    if |weight.shape| == 0 then Fail(IndexError)
    else
      var edge := BiasEdge(p.inputs, convName);
      var bias :- ConvBias(p, weight.shape[0]);
      var addend :- InputTensor(c, 1);
      var sum :- Add(bias, addend);
      var inputs := if |p.inputs| > 2 then p.inputs else p.inputs + [edge];
      Ok(p.(inputs := inputs, outputs := c.outputs, inputTensors := p.inputTensors[edge := sum]))
  }

  /**
   * The fused Conv has at least three inputs (exactly three when it had two), its third input
   * carries the bias, its outputs are the Add's, and per channel the new bias is the old bias
   * (zero when the Conv had none) plus the Add's constant.
   */
  lemma ConvAddFusedBias(p: NodeView, convName: string, c: NodeView)
    requires ConvAddFused(p, convName, c).Ok?
    ensures var q := ConvAddFused(p, convName, c).value;
      && |p.inputs| >= 2
      && (|p.inputs| == 2 ==> |q.inputs| == 3 && q.inputs == p.inputs + [convName + "_bias"])
      && (|p.inputs| > 2 ==> q.inputs == p.inputs)
      && q.opType == p.opType && q.attrs == p.attrs && q.outputs == c.outputs
      && q.inputs[2] in q.inputTensors
      && var addend := c.inputTensors[c.inputs[1]];
         var bias := q.inputTensors[q.inputs[2]];
         && bias.shape == addend.shape && |bias.data| == |addend.data|
         && (|p.inputs| > 2 ==> forall i :: 0 <= i < |bias.data| ==>
               bias.data[i] == p.inputTensors[p.inputs[2]].data[i] + addend.data[i])
         && (|p.inputs| == 2 ==> bias.shape == [p.inputTensors[p.inputs[1]].shape[0]] && bias.data == addend.data)
    ensures forall key <- p.inputTensors :: key != BiasEdge(p.inputs, convName) ==>
      key in ConvAddFused(p, convName, c).value.inputTensors &&
      ConvAddFused(p, convName, c).value.inputTensors[key] == p.inputTensors[key]
  {
  }

  /** A Conv without bias fused with an Add of constant `b` ends with bias `b`. */
  lemma ConvWithoutBiasTakesAddend(p: NodeView, convName: string, c: NodeView)
    requires |p.inputs| == 2 && p.inputs[1] in p.inputTensors
    requires |c.inputs| >= 2 && c.inputs[1] in c.inputTensors
    requires var w := p.inputTensors[p.inputs[1]];
      && |w.shape| > 0 && w.shape[0] >= 0
      && c.inputTensors[c.inputs[1]].shape == [w.shape[0]]
      && |c.inputTensors[c.inputs[1]].data| == w.shape[0]
    ensures ConvAddFused(p, convName, c).Ok?
    ensures var q := ConvAddFused(p, convName, c).value;
      |q.inputs| == 3 && q.inputTensors[q.inputs[2]] == c.inputTensors[c.inputs[1]]
  {
  }

  /** A Conv whose bias input is the very tensor the Add adds ends with twice that tensor. */
  lemma ConvBiasDoubles(p: NodeView, convName: string, c: NodeView, b: Tensor)
    requires |p.inputs| == 3 && p.inputs[1] in p.inputTensors && |p.inputTensors[p.inputs[1]].shape| > 0
    requires p.inputs[2] in p.inputTensors && p.inputTensors[p.inputs[2]] == b
    requires |c.inputs| >= 2 && c.inputs[1] in c.inputTensors && c.inputTensors[c.inputs[1]] == b
    ensures ConvAddFused(p, convName, c).Ok?
    ensures var q := ConvAddFused(p, convName, c).value;
      |q.inputs| == 3 && q.inputTensors[q.inputs[2]].shape == b.shape &&
      forall i :: 0 <= i < |b.data| ==> q.inputTensors[q.inputs[2]].data[i] == 2 * b.data[i]
  {
  }

  /** Per channel: a convolution sum `y` plus bias. */
  function BiasedOutput(y: int, bias: Tensor, channel: nat): int
    requires channel < |bias.data|
  {
    y + bias.data[channel]
  }

  /**
   * The fusion keeps the computed values: for every channel and every convolution sum `y`, the
   * fused Conv's output equals the original Conv's output (zero bias when it had none) plus the
   * Add's constant.
   */
  lemma ConvAddFusedOutput(p: NodeView, convName: string, c: NodeView, channel: nat, y: int)
    requires ConvAddFused(p, convName, c).Ok?
    requires channel < |c.inputTensors[c.inputs[1]].data|
    ensures var q := ConvAddFused(p, convName, c).value;
      var old_ := if |p.inputs| > 2 then p.inputTensors[p.inputs[2]].data[channel] else 0;
      var addend := c.inputTensors[c.inputs[1]];
      && q.inputs[2] in q.inputTensors && channel < |q.inputTensors[q.inputs[2]].data|
      && BiasedOutput(y, q.inputTensors[q.inputs[2]], channel) == (y + old_) + addend.data[channel]
  {
  }

  /** The BatchNormalization node's fields after BNBroadcastedMulFuser.merge: scale and bias both multiplied by the Mul's constant. */
  function BNMulFused(p: NodeView, c: NodeView): Result<NodeView>
  {
    var weight :- InputTensor(p, 1);
    var bias :- InputTensor(p, 2);
    var w :- InputTensor(c, 1);
    var scaled :- Multiply(weight, w);
    var shifted :- Multiply(bias, w);
    Ok(p.(outputs := c.outputs, inputTensors := p.inputTensors[p.inputs[1] := scaled][p.inputs[2] := shifted]))
  }

  /** BatchNormalization's per-channel affine step: the normalised value `x` times the scale, plus the bias. */
  function Affine(scale: Tensor, bias: Tensor, channel: nat, x: int): int
    requires channel < |scale.data| && channel < |bias.data|
  {
    scale.data[channel] * x + bias.data[channel]
  }

  lemma ScaleAffine(s: int, b: int, w: int, x: int)
    ensures (s * x + b) * w == (s * w) * x + b * w
  {
  }

  /**
   * The fused BatchNormalization computes what BatchNormalization followed by the Mul did: for
   * every channel and normalised value `x`, new scale * x + new bias == (scale * x + bias) * W.
   * This holds even when scale and bias share one edge.
   */
  lemma BNMulFusedOutput(p: NodeView, c: NodeView, channel: nat, x: int)
    requires BNMulFused(p, c).Ok?
    requires channel < |c.inputTensors[c.inputs[1]].data|
    ensures var q := BNMulFused(p, c).value;
      var scale, bias, w := p.inputTensors[p.inputs[1]], p.inputTensors[p.inputs[2]], c.inputTensors[c.inputs[1]];
      && q.inputs == p.inputs && q.outputs == c.outputs && q.attrs == p.attrs && q.opType == p.opType
      && channel < |scale.data| && channel < |bias.data|
      && var scale', bias' := q.inputTensors[q.inputs[1]], q.inputTensors[q.inputs[2]];
         channel < |scale'.data| && channel < |bias'.data| &&
         Affine(scale', bias', channel, x) == Affine(scale, bias, channel, x) * w.data[channel]
  {
  }

  /** The BatchNormalization node's fields after BNBroadcastedAddFuser.merge: the bias increased by the Add's constant. */
  function BNAddFused(p: NodeView, c: NodeView): Result<NodeView>
  {
    var bias :- InputTensor(p, 2);
    var b :- InputTensor(c, 1);
    var sum :- Add(bias, b);
    Ok(p.(outputs := c.outputs, inputTensors := p.inputTensors[p.inputs[2] := sum]))
  }

  /**
   * The fused BatchNormalization computes what BatchNormalization followed by the Add did: for
   * every channel and normalised value `x`, scale * x + new bias == (scale * x + bias) + b, when
   * scale and bias are on different edges.
   */
  lemma BNAddFusedOutput(p: NodeView, c: NodeView, channel: nat, x: int)
    requires BNAddFused(p, c).Ok?
    requires |p.inputs| >= 3 && p.inputs[1] != p.inputs[2] && p.inputs[1] in p.inputTensors
    requires channel < |c.inputTensors[c.inputs[1]].data| && channel < |p.inputTensors[p.inputs[1]].data|
    ensures var q := BNAddFused(p, c).value;
      var scale, bias, b := p.inputTensors[p.inputs[1]], p.inputTensors[p.inputs[2]], c.inputTensors[c.inputs[1]];
      && q.inputs == p.inputs && q.outputs == c.outputs && q.attrs == p.attrs && q.opType == p.opType
      && channel < |bias.data|
      && q.inputTensors[q.inputs[1]] == scale
      && channel < |q.inputTensors[q.inputs[2]].data|
      && Affine(scale, q.inputTensors[q.inputs[2]], channel, x) == Affine(scale, bias, channel, x) + b.data[channel]
  {
  }

  /** `parent.children.remove(child)` then `child.parents.remove(parent)`; a missing link is a ValueError. */
  method Unlink(parent: Node, child: Node, ghost R: set<Node>) returns (r: Result<()>)
    requires Closed(R) && parent in R && child in R
    modifies parent, child
    ensures Closed(R)
    ensures r.Ok? <==> child in old(parent.children) && parent in old(child.parents)
    ensures r.Ok? ==> parent.children == RemoveFirst(old(parent.children), child)
    ensures r.Ok? ==> child.parents == RemoveFirst(old(child.parents), parent)
    ensures parent.View() == old(parent.View()) && child.View() == old(child.View())
    ensures parent != child ==> parent.parents == old(parent.parents) && child.children == old(child.children)
    ensures r.Fail? ==> r.error == ValueError
  {
    if child !in parent.children {
      return Fail(ValueError);
    }
    parent.children := RemoveFirst(parent.children, child);
    if parent !in child.parents {
      return Fail(ValueError);
    }
    child.parents := RemoveFirst(child.parents, parent);
    r := Ok(());
  }

  /**
   * ConvAddFuser.merge: the Conv takes over the Add's outputs and absorbs its constant into the
   * bias, and the link between the two is cut. The replacement is the Conv alone.
   */
  method ConvAddMerge(parent: Node, child: Node, ghost R: set<Node>) returns (r: Result<seq<Node>>)
    requires Closed(R) && parent in R && child in R
    modifies parent, child
    ensures Closed(R)
    ensures r.Ok? ==> r.value == [parent]
    ensures parent != child ==>
      (r.Ok? <==> ConvAddFused(old(parent.View()), parent.name, old(child.View())).Ok?
                  && child in old(parent.children) && parent in old(child.parents))
    ensures parent != child && r.Fail? ==>
      var fused := ConvAddFused(old(parent.View()), parent.name, old(child.View()));
      r.error == if fused.Fail? then fused.error else ValueError
    ensures parent != child && r.Ok? ==>
      && parent.View() == ConvAddFused(old(parent.View()), parent.name, old(child.View())).value
      && parent.children == RemoveFirst(old(parent.children), child) && parent.parents == old(parent.parents)
      && child.parents == RemoveFirst(old(child.parents), parent) && child.children == old(child.children)
      && child.View() == old(child.View())
  {
    var weight :- InputTensor(parent.View(), 1);
    if |weight.shape| == 0 {
      return Fail(IndexError);
    }
    var channels := weight.shape[0];
    var edge: string;
    var bias: Tensor;
    if |parent.inputs| > 2 {
      edge := parent.inputs[2];
      bias :- Lookup(parent.inputTensors, edge);
    } else {
      edge := parent.name + "_bias";
      parent.inputs := parent.inputs + [edge];
      if channels < 0 {
        return Fail(ValueError);
      }
      bias := Zeros(channels);
      parent.inputTensors := parent.inputTensors[edge := bias];
    }
    var addend :- InputTensor(child.View(), 1);
    var sum :- Add(bias, addend);
    parent.inputTensors := parent.inputTensors[edge := sum];
    parent.outputs := child.outputs;
    var unlinked := Unlink(parent, child, R);
    if unlinked.Fail? {
      return Fail(unlinked.error);
    }
    r := Ok([parent]);
  }

  /**
   * BNBroadcastedMulFuser.merge: the BatchNormalization's scale and bias are multiplied by the
   * Mul's constant, it takes over the Mul's outputs, and the link between the two is cut.
   */
  method BNMulMerge(parent: Node, child: Node, ghost R: set<Node>) returns (r: Result<seq<Node>>)
    requires Closed(R) && parent in R && child in R
    modifies parent, child
    ensures Closed(R)
    ensures r.Ok? ==> r.value == [parent]
    ensures parent != child ==>
      (r.Ok? <==> BNMulFused(old(parent.View()), old(child.View())).Ok?
                  && child in old(parent.children) && parent in old(child.parents))
    ensures parent != child && r.Fail? ==>
      var fused := BNMulFused(old(parent.View()), old(child.View()));
      r.error == if fused.Fail? then fused.error else ValueError
    ensures parent != child && r.Ok? ==>
      && parent.View() == BNMulFused(old(parent.View()), old(child.View())).value
      && parent.children == RemoveFirst(old(parent.children), child) && parent.parents == old(parent.parents)
      && child.parents == RemoveFirst(old(child.parents), parent) && child.children == old(child.children)
      && child.View() == old(child.View())
  {
    var weight :- InputTensor(parent.View(), 1);
    var bias :- InputTensor(parent.View(), 2);
    var w :- InputTensor(child.View(), 1);
    var scaled :- Multiply(weight, w);
    parent.inputTensors := parent.inputTensors[parent.inputs[1] := scaled];
    var shifted :- Multiply(bias, w);
    parent.inputTensors := parent.inputTensors[parent.inputs[2] := shifted];
    parent.outputs := child.outputs;
    var unlinked := Unlink(parent, child, R);
    if unlinked.Fail? {
      return Fail(unlinked.error);
    }
    r := Ok([parent]);
  }

  /**
   * BNBroadcastedAddFuser.merge: the BatchNormalization's bias is increased by the Add's
   * constant, it takes over the Add's outputs, and the link between the two is cut.
   */
  method BNAddMerge(parent: Node, child: Node, ghost R: set<Node>) returns (r: Result<seq<Node>>)
    requires Closed(R) && parent in R && child in R
    modifies parent, child
    ensures Closed(R)
    ensures r.Ok? ==> r.value == [parent]
    ensures parent != child ==>
      (r.Ok? <==> BNAddFused(old(parent.View()), old(child.View())).Ok?
                  && child in old(parent.children) && parent in old(child.parents))
    ensures parent != child && r.Fail? ==>
      var fused := BNAddFused(old(parent.View()), old(child.View()));
      r.error == if fused.Fail? then fused.error else ValueError
    ensures parent != child && r.Ok? ==>
      && parent.View() == BNAddFused(old(parent.View()), old(child.View())).value
      && parent.children == RemoveFirst(old(parent.children), child) && parent.parents == old(parent.parents)
      && child.parents == RemoveFirst(old(child.parents), parent) && child.children == old(child.children)
      && child.View() == old(child.View())
  {
    var bias :- InputTensor(parent.View(), 2);
    var b :- InputTensor(child.View(), 1);
    var sum :- Add(bias, b);
    parent.inputTensors := parent.inputTensors[parent.inputs[2] := sum];
    parent.outputs := child.outputs;
    var unlinked := Unlink(parent, child, R);
    if unlinked.Fail? {
      return Fail(unlinked.error);
    }
    r := Ok([parent]);
  }

  /**
   * DropoutRemover.merge: the link is cut first, then the parent takes over the Dropout's
   * outputs; nothing else about either node changes.
   */
  method DropoutMerge(parent: Node, child: Node, ghost R: set<Node>) returns (r: Result<seq<Node>>)
    requires Closed(R) && parent in R && child in R
    modifies parent, child
    ensures Closed(R)
    ensures r.Ok? <==> child in old(parent.children) && parent in old(child.parents)
    ensures r.Ok? ==> r.value == [parent]
    ensures r.Fail? ==> r.error == ValueError && parent.outputs == old(parent.outputs)
    ensures parent != child && r.Ok? ==>
      && parent.View() == old(parent.View()).(outputs := old(child.outputs))
      && parent.children == RemoveFirst(old(parent.children), child) && parent.parents == old(parent.parents)
      && child.parents == RemoveFirst(old(child.parents), parent) && child.children == old(child.children)
      && child.View() == old(child.View())
  {
    var unlinked := Unlink(parent, child, R);
    if unlinked.Fail? {
      return Fail(unlinked.error);
    }
    parent.outputs := child.outputs;
    r := Ok([parent]);
  }

  /** NodesFuser.merge: the first node takes over the last node's outputs and stands for the whole window. */
  method DefaultMerge(window: seq<Node>) returns (r: Result<seq<Node>>)
    modifies if window == [] then {} else {window[0]}
    ensures r.Ok? <==> window != []
    ensures r.Fail? ==> r.error == IndexError
    ensures r.Ok? ==> r.value == [window[0]]
    ensures r.Ok? ==> window[0].View() == old(window[0].View()).(outputs := old(window[|window| - 1].outputs))
    ensures r.Ok? ==> window[0].parents == old(window[0].parents) && window[0].children == old(window[0].children)
  {
    if window == [] {
      return Fail(IndexError);
    }
    window[0].outputs := window[|window| - 1].outputs;
    r := Ok([window[0]]);
  }
}
