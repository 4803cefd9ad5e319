/**
 * The fusion rules' `is_eligible` checks, as side-effect-free functions of the window's node
 * fields. A check that would raise in Python (indexing a missing input, a missing `shape`
 * attribute) is a Fail.
 */
module Rules {
  import opened Faults
  import opened Graphs

  /** The NodesFuser subclasses. */
  datatype Rule = ConvAdd | BNBroadcastedMul | BNBroadcastedAdd | DropoutRemove | PixelShuffle

  /** `num_nodes` each subclass passes to NodesFuser. */
  function WindowLength(rule: Rule): nat
  {
    if rule == PixelShuffle then 3 else 2
  }

  /** `key in attrs and attrs[key] == v`; an integer list never equals an integer. */
  predicate AttrEquals(attrs: map<string, Attr>, key: string, v: int)
  {
    key in attrs && attrs[key] == IntAttr(v)
  }

  /** ConvAddFuser.is_eligible. */
  predicate ConvAddEligible(parent: NodeView, child: NodeView)
  {
    && parent.opType == "Conv"
    && child.opType == "Add"
    && AttrEquals(child.attrs, "broadcast", 1)
    && AttrEquals(child.attrs, "axis", 1)
  }

  /** BNBroadcastedMulFuser.is_eligible; `child.inputs[1]` raises when the Mul has fewer than two inputs. */
  function BNMulEligibility(parent: NodeView, child: NodeView): Result<bool>
  {
    if parent.opType != "BatchNormalization" || child.opType != "Mul" then Ok(false)
    else if !AttrEquals(child.attrs, "broadcast", 1) || !AttrEquals(child.attrs, "axis", 1) then Ok(false)
    else if |child.inputs| < 2 then Fail(IndexError)
    else Ok(child.inputs[1] in child.inputTensors)
  }

  /** BNBroadcastedAddFuser.is_eligible. */
  predicate BNAddEligible(parent: NodeView, child: NodeView)
  {
    && parent.opType == "BatchNormalization"
    && child.opType == "Add"
    && AttrEquals(child.attrs, "broadcast", 1)
    && AttrEquals(child.attrs, "axis", 1)
    && |child.inputs| == 2
    && child.inputs[1] in child.inputTensors
  }

  /** DropoutRemover.is_eligible. */
  predicate DropoutEligible(child: NodeView)
  {
    child.opType == "Dropout"
  }

  /** `attrs.get('perm', []) == perm`. */
  predicate PermIs(attrs: map<string, Attr>, perm: seq<int>)
  {
    "perm" in attrs && attrs["perm"] == IntsAttr(perm)
  }

  /**
   * PixelShuffleFuser.is_eligible. `attrs['shape']` raises KeyError when missing and `len()`
   * raises TypeError on a scalar; the batch entry of the final shape is never looked at.
   */
  function PixelShuffleEligibility(reshape: NodeView, transpose: NodeView, final: NodeView): Result<bool>
  {
    if reshape.opType != "Reshape" || transpose.opType != "Transpose" || final.opType != "Reshape" then Ok(false)
    else if "shape" !in reshape.attrs then Fail(KeyError("shape"))
    else if reshape.attrs["shape"].IntAttr? then Fail(TypeError)
    else
      var shape := reshape.attrs["shape"].ints;
      if |shape| != 6 || shape[0] != 1 || shape[2] != shape[3] then Ok(false)
      else if !PermIs(transpose.attrs, [0, 1, 4, 2, 5, 3]) then Ok(false)
      else if "shape" !in final.attrs then Fail(KeyError("shape"))
      else if final.attrs["shape"].IntAttr? then Fail(TypeError)
      else
        var out := final.attrs["shape"].ints;
        Ok(|out| == 4 && shape[1] == out[1] && shape[4] * shape[2] == out[2] && shape[5] * shape[2] == out[3])
  }

  /**
   * `self.is_eligible(graph, nodes_window)` for a window of the rule's length. Only the
   * BatchNorm-Mul and pixel-shuffle checks can raise; a missing `broadcast` or `axis` attribute
   * makes the three broadcast rules answer false, never raise.
   */
  function Eligibility(rule: Rule, window: seq<NodeView>): (r: Result<bool>)
    requires |window| == WindowLength(rule)
    ensures r.Fail? ==> rule == BNBroadcastedMul || rule == PixelShuffle
    ensures rule == BNBroadcastedMul && r.Fail? ==> |window[1].inputs| < 2
    ensures rule == PixelShuffle && r.Fail? ==>
      exists i :: i in {0, 2} && ("shape" !in window[i].attrs || window[i].attrs["shape"].IntAttr?)
    ensures rule in {ConvAdd, BNBroadcastedMul, BNBroadcastedAdd} && !AttrEquals(window[1].attrs, "broadcast", 1) ==> r == Ok(false)
    ensures rule in {ConvAdd, BNBroadcastedMul, BNBroadcastedAdd} && !AttrEquals(window[1].attrs, "axis", 1) ==> r == Ok(false)
    ensures rule == DropoutRemove ==> (r == Ok(true) <==> window[1].opType == "Dropout")
  {
    match rule
    case ConvAdd => Ok(ConvAddEligible(window[0], window[1]))
    case BNBroadcastedMul => BNMulEligibility(window[0], window[1])
    case BNBroadcastedAdd => Ok(BNAddEligible(window[0], window[1]))
    case DropoutRemove => Ok(DropoutEligible(window[1]))
    case PixelShuffle =>
      var r := PixelShuffleEligibility(window[0], window[1], window[2]);
      assert r.Fail? ==> ("shape" !in window[0].attrs || window[0].attrs["shape"].IntAttr?) ||
                         ("shape" !in window[2].attrs || window[2].attrs["shape"].IntAttr?);
      r
  }

  /**
   * An eligible pixel-shuffle window is Reshape [1, C, s, s, H, W], Transpose [0, 1, 4, 2, 5, 3],
   * Reshape [b, C, H*s, W*s], for the C, s, H, W read off the first shape.
   */
  lemma PixelShuffleEligibleShapes(reshape: NodeView, transpose: NodeView, final: NodeView)
    requires PixelShuffleEligibility(reshape, transpose, final) == Ok(true)
    ensures reshape.opType == "Reshape" && transpose.opType == "Transpose" && final.opType == "Reshape"
    ensures "shape" in reshape.attrs && reshape.attrs["shape"].IntsAttr?
    ensures "shape" in final.attrs && final.attrs["shape"].IntsAttr?
    ensures PermIs(transpose.attrs, [0, 1, 4, 2, 5, 3])
    ensures var shape, out := reshape.attrs["shape"].ints, final.attrs["shape"].ints;
      && |shape| == 6 && |out| == 4
      && shape == [1, shape[1], shape[2], shape[2], shape[4], shape[5]]
      && out == [out[0], shape[1], shape[4] * shape[2], shape[5] * shape[2]]
  {
  }

  /** Conversely, every window of that form is eligible, whatever the final shape's batch entry `b`. */
  lemma PixelShuffleEligibleForAnyBatch(reshape: NodeView, transpose: NodeView, final: NodeView,
                                        c: int, s: int, h: int, w: int, b: int)
    requires reshape.opType == "Reshape" && transpose.opType == "Transpose" && final.opType == "Reshape"
    requires "shape" in reshape.attrs && reshape.attrs["shape"] == IntsAttr([1, c, s, s, h, w])
    requires PermIs(transpose.attrs, [0, 1, 4, 2, 5, 3])
    requires "shape" in final.attrs && final.attrs["shape"] == IntsAttr([b, c, h * s, w * s])
    ensures PixelShuffleEligibility(reshape, transpose, final) == Ok(true)
  {
  }
}
