/**
 * Constant tensors as the passes see them: a list of dimensions and the elements flattened
 * in row-major order. Elements are integers; numpy's dtypes are not modelled.
 */
module Tensors {
  import opened Faults

  datatype Tensor = Tensor(shape: seq<int>, data: seq<int>)

  /** Number of elements a shape describes. */
  function Product(dims: seq<int>): int
    decreases |dims|
  {
    if dims == [] then 1 else dims[0] * Product(dims[1..])
  }

  /** Non-negative dimensions whose product is the number of elements. */
  predicate WellFormed(t: Tensor)
  {
    (forall i :: 0 <= i < |t.shape| ==> t.shape[i] >= 0) && Product(t.shape) == |t.data|
  }

  /** numpy's `np.zeros((n,))`. */
  function Zeros(n: nat): (t: Tensor)
    ensures WellFormed(t) && t.shape == [n]
    ensures |t.data| == n && forall i :: 0 <= i < n ==> t.data[i] == 0
  {
    assert Product([n]) == n * Product([]);
    Tensor([n], seq(n, _ => 0))
  }

  /**
   * An elementwise numpy operation on two tensors of the same shape. numpy would broadcast
   * tensors of different shapes; here they are a ShapeMismatch.
   */
  function Elementwise(a: Tensor, b: Tensor, f: (int, int) -> int): (r: Result<Tensor>)
    ensures r.Ok? <==> a.shape == b.shape && |a.data| == |b.data|
    ensures r.Ok? ==> r.value.shape == a.shape && |r.value.data| == |a.data|
    ensures r.Ok? ==> forall i :: 0 <= i < |a.data| ==> r.value.data[i] == f(a.data[i], b.data[i])
  {
    if a.shape == b.shape && |a.data| == |b.data| then
      Ok(Tensor(a.shape, seq(|a.data|, i requires 0 <= i < |a.data| => f(a.data[i], b.data[i]))))
    else
      Fail(ShapeMismatch)
  }

  /** `a + b` on numpy arrays of equal shape. */
  function Add(a: Tensor, b: Tensor): Result<Tensor>
  {
    Elementwise(a, b, (x, y) => x + y)
  }

  /** `np.multiply(a, b)` on numpy arrays of equal shape. */
  function Multiply(a: Tensor, b: Tensor): Result<Tensor>
  {
    Elementwise(a, b, (x, y) => x * y)
  }

  function CountOf(s: seq<int>, v: int): (n: nat)
    ensures n > 0 <==> v in s
    decreases |s|
  {
    if s == [] then 0 else (if s[0] == v then 1 else 0) + CountOf(s[1..], v)
  }

  /** Product of the dimensions other than the placeholder -1. */
  function KnownProduct(s: seq<int>): int
    decreases |s|
  {
    if s == [] then 1 else (if s[0] == -1 then 1 else s[0]) * KnownProduct(s[1..])
  }

  /** The shape with every -1 replaced by `v`. */
  function Fill(s: seq<int>, v: int): (r: seq<int>)
    ensures |r| == |s|
    ensures forall i :: 0 <= i < |s| ==> r[i] == if s[i] == -1 then v else s[i]
    decreases |s|
  {
    if s == [] then [] else [if s[0] == -1 then v else s[0]] + Fill(s[1..], v)
  }

  lemma {:induction false} FillProduct(s: seq<int>, v: int)
    requires CountOf(s, -1) <= 1
    ensures CountOf(s, -1) == 0 ==> Fill(s, v) == s && KnownProduct(s) == Product(s)
    ensures CountOf(s, -1) == 1 ==> Product(Fill(s, v)) == v * KnownProduct(s)
    decreases |s|
  {
    if s != [] {
      var rest := s[1..];
      FillProduct(rest, v);
      var f := Fill(s, v);
      assert f == [f[0]] + Fill(rest, v);
      assert f[1..] == Fill(rest, v);
      assert Product(f) == f[0] * Product(Fill(rest, v));
      if s[0] == -1 {
        assert CountOf(rest, -1) == CountOf(s, -1) - 1;
      } else {
        assert CountOf(rest, -1) == CountOf(s, -1);
        if CountOf(s, -1) == 1 {
          Rearrange(s[0], v, KnownProduct(rest));
        }
      }
    }
  }

  /** The regrouping FillProduct needs for a known leading dimension, kept apart from its induction. */
  lemma Rearrange(a: int, v: int, k: int)
    ensures a * (v * k) == v * (a * k)
  {
  }

  /**
   * numpy's `tensor.reshape(shape)`: the elements are kept in order and only the dimensions
   * change. At most one dimension may be -1, which numpy infers from the element count; any other
   * negative dimension, or a shape whose element count differs from the tensor's, is a ValueError.
   */
  function Reshape(t: Tensor, shape: seq<int>): (r: Result<Tensor>)
    ensures r.Ok? ==> r.value.data == t.data && WellFormed(r.value)
    ensures r.Ok? ==> |r.value.shape| == |shape|
    ensures r.Ok? ==> forall i :: 0 <= i < |shape| && shape[i] != -1 ==> r.value.shape[i] == shape[i]
    ensures (forall i :: 0 <= i < |shape| ==> shape[i] >= 0) ==> (r.Ok? <==> Product(shape) == |t.data|)
  {
    var size := |t.data|;
    if exists i :: 0 <= i < |shape| && shape[i] < -1 then Fail(ValueError)
    else if CountOf(shape, -1) > 1 then Fail(ValueError)
    else if CountOf(shape, -1) == 0 then
      FillProduct(shape, 0);
      if Product(shape) == size then Ok(Tensor(shape, t.data)) else Fail(ValueError)
    else
      var known := KnownProduct(shape);
      if known == 0 || size % known != 0 then Fail(ValueError)
      else
        InferredShape(shape, size);
        Ok(Tensor(Fill(shape, size / known), t.data))
  }

  /** The shape numpy infers for a single -1 describes exactly `size` elements. */
  lemma InferredShape(shape: seq<int>, size: nat)
    requires forall i :: 0 <= i < |shape| ==> shape[i] >= -1
    requires CountOf(shape, -1) == 1
    requires KnownProduct(shape) != 0 && size % KnownProduct(shape) == 0
    ensures var f := Fill(shape, size / KnownProduct(shape));
      (forall i :: 0 <= i < |f| ==> f[i] >= 0) && Product(f) == size
  {
    var known := KnownProduct(shape);
    KnownProductNonNegative(shape);
    var v := size / known;
    ExactQuotient(size, known);
    FillProduct(shape, v);
  }

  lemma ExactQuotient(size: nat, known: int)
    requires known > 0 && size % known == 0
    ensures size / known >= 0 && (size / known) * known == size
  {
  }

  lemma {:induction false} KnownProductNonNegative(s: seq<int>)
    requires forall i :: 0 <= i < |s| ==> s[i] >= -1
    ensures KnownProduct(s) >= 0
    decreases |s|
  {
    if s != [] {
      KnownProductNonNegative(s[1..]);
    }
  }
}
