/**
 * ReshapeInitTensorFuser: a Reshape with exactly one constant (a graph initializer), sitting on
 * its first input, is computed once, here, and the reshaped constant is handed to its consumers;
 * the Reshape node then leaves the graph. Its other inputs, if any, need not be constants.
 */
module ReshapeFold {
  import opened Faults
  import opened Tensors
  import opened Graphs
  import opened Sequences

  /**
   * The three checks that select a node: a Reshape with exactly one constant input, which is its
   * first input. Reading `inputs[0]` of a node with no inputs raises.
   */
  function FoldCheck(v: NodeView): (r: Result<bool>)
    ensures r.Fail? <==> v.opType == "Reshape" && |v.inputTensors| == 1 && v.inputs == []
    ensures r == Ok(true) <==> v.opType == "Reshape" && v.inputs != [] && v.inputTensors.Keys == {v.inputs[0]}
  {
    if v.opType != "Reshape" || |v.inputTensors| != 1 then Ok(false)
    else if |v.inputs| == 0 then Fail(IndexError)
    else
      var single := v.inputs[0] in v.inputTensors;
      assert single ==> v.inputTensors.Keys == {v.inputs[0]} by {
        if single {
          SingletonKeys(v.inputTensors, v.inputs[0]);
        }
      }
      Ok(single)
  }

  lemma SingletonKeys(m: map<string, Tensor>, k: string)
    requires |m| == 1 && k in m
    ensures m.Keys == {k}
  {
    var others := m.Keys - {k};
    assert |m.Keys| == |others| + 1;
  }

  /**
   * The constant a selected node produces: its input tensor reshaped by its `shape` attribute.
   * A missing first output, a missing or scalar `shape`, or a shape numpy refuses is a raise.
   */
  function Folded(v: NodeView): (r: Result<Tensor>)
    requires v.inputs != [] && v.inputs[0] in v.inputTensors
    ensures r.Ok? ==> r.value.data == v.inputTensors[v.inputs[0]].data && WellFormed(r.value)
    ensures r.Ok? ==> v.outputs != [] && "shape" in v.attrs && v.attrs["shape"].IntsAttr?
    ensures r.Ok? ==> |r.value.shape| == |v.attrs["shape"].ints|
    ensures r.Ok? ==> forall i :: 0 <= i < |r.value.shape| && v.attrs["shape"].ints[i] != -1 ==>
      r.value.shape[i] == v.attrs["shape"].ints[i]
  {
    if v.outputs == [] then Fail(IndexError)
    else if "shape" !in v.attrs then Fail(KeyError("shape"))
    else if v.attrs["shape"].IntAttr? then Fail(TypeError)
    else Reshape(v.inputTensors[v.inputs[0]], v.attrs["shape"].ints)
  }

  /**
   * One consumer of a folded node: `child.parents.remove(node)` (a ValueError when absent), then
   * `child.input_tensors[outputName] = t`.
   */
  method HandOver(child: Node, node: Node, outputName: string, t: Tensor) returns (r: Result<()>)
    modifies child`parents, child`inputTensors
    ensures r.Ok? <==> node in old(child.parents)
    ensures r.Ok? ==> child.parents == RemoveFirst(old(child.parents), node)
    ensures r.Ok? ==> child.inputTensors == old(child.inputTensors)[outputName := t]
    ensures r.Fail? ==> r.error == ValueError
    ensures r.Fail? ==> child.parents == old(child.parents) && child.inputTensors == old(child.inputTensors)
  {
    if node !in child.parents {
      return Fail(ValueError);
    }
    child.parents := RemoveFirst(child.parents, node);
    child.inputTensors := child.inputTensors[outputName := t];
    r := Ok(());
  }

  /**
   * The hand-over loop of one folded node, which has no parents: each child, walked as the list
   * stands, drops the node from its parents and receives `t` under `outputName`. A child listed
   * `k` times is handed over `k` times, so the loop gets through exactly when every child lists
   * the node among its parents at least as often; only the children's parents and constants change.
   */
  method HandOverAll(node: Node, outputName: string, t: Tensor) returns (r: Result<()>)
    requires node.parents == []
    modifies node.children`parents, node.children`inputTensors
    ensures node.View() == old(node.View()) && node.parents == []
    ensures r.Ok? <==> forall c <- node.children :: Occurrences(node.children, c) <= Occurrences(old(c.parents), node)
    ensures r.Fail? ==> r.error == ValueError
    ensures r.Ok? ==> forall c <- node.children ::
      && c.parents == RemoveCopies(old(c.parents), node, Occurrences(node.children, c))
      && c.inputTensors == old(c.inputTensors)[outputName := t]
  {
    ghost var parents0: map<Node, seq<Node>> := map c: Node | c in node.children :: c.parents;
    ghost var tensors0: map<Node, map<string, Tensor>> := map c: Node | c in node.children :: c.inputTensors;
    r := HandOverEach(node, outputName, t, parents0, tensors0);
    if r.Ok? {
      HandedOverAll(node, outputName, t, parents0, tensors0);
    }
  }

  /**
   * The loop of `HandOverAll` against the children's parents `parents0` and constants `tensors0`
   * before it: it walks every child unless one lists the node among its parents too rarely.
   */
  method HandOverEach(node: Node, outputName: string, t: Tensor,
                      ghost parents0: map<Node, seq<Node>>, ghost tensors0: map<Node, map<string, Tensor>>)
    returns (r: Result<()>)
    requires node.parents == [] && HandedOver(node, [], outputName, t, parents0, tensors0)
    modifies node.children`parents, node.children`inputTensors
    ensures node.View() == old(node.View()) && node.parents == []
    ensures r.Ok? ==> HandedOver(node, node.children, outputName, t, parents0, tensors0)
    ensures r.Fail? ==> r.error == ValueError
    ensures r.Fail? ==> exists c <- node.children :: Occurrences(node.children, c) > Occurrences(parents0[c], node)
  {
    ghost var kids := node.children;
    r := Ok(());
    for k := 0 to |node.children|
      invariant r.Ok? && node.View() == old(node.View()) && node.parents == []
      invariant HandedOver(node, kids[..k], outputName, t, parents0, tensors0)
    {
      r := HandOverNext(node, k, outputName, t, kids[..k], parents0, tensors0);
      if r.Fail? {
        assert kids[k] in kids;
        return;
      }
      GrowPrefix(kids, k);
    }
    assert kids[..|kids|] == kids;
  }

  /** Once every child has been handed the constant, each has it and has lost its copies of the node. */
  lemma HandedOverAll(node: Node, outputName: string, t: Tensor,
                      parents0: map<Node, seq<Node>>, tensors0: map<Node, map<string, Tensor>>)
    requires HandedOver(node, node.children, outputName, t, parents0, tensors0)
    ensures forall c <- node.children ::
      && c in parents0 && c in tensors0
      && Occurrences<Node>(node.children, c) <= Occurrences<Node>(parents0[c], node)
      && c.parents == RemoveCopies<Node>(parents0[c], node, Occurrences<Node>(node.children, c))
      && c.inputTensors == tensors0[c][outputName := t]
  {
  }

  /**
   * The hand-over loop after the children in `done`, against the children's parents `parents0`
   * and constants `tensors0` before it: a child in `done` holds `t` under `outputName` and has
   * lost the node once for each time it occurs there, which its parents could afford.
   */
  ghost predicate HandedOver(node: Node, done: seq<Node>, outputName: string, t: Tensor,
                             parents0: map<Node, seq<Node>>, tensors0: map<Node, map<string, Tensor>>)
    reads node, NodeSet(node.children)
  {
    forall c <- node.children ::
      && c in parents0 && c in tensors0
      && c.inputTensors == (if c in done then tensors0[c][outputName := t] else tensors0[c])
      && c.parents == RemoveCopies<Node>(parents0[c], node, Occurrences<Node>(done, c))
      && Occurrences<Node>(done, c) <= Occurrences<Node>(parents0[c], node)
  }

  /** One turn of the hand-over loop, for the `k`-th child, with the children before it `done`. */
  method HandOverNext(node: Node, k: nat, outputName: string, t: Tensor, ghost done: seq<Node>,
                      ghost parents0: map<Node, seq<Node>>, ghost tensors0: map<Node, map<string, Tensor>>)
    returns (r: Result<()>)
    requires node.parents == [] && k < |node.children|
    requires done == node.children[..k] && HandedOver(node, done, outputName, t, parents0, tensors0)
    modifies {node.children[k]}`parents, {node.children[k]}`inputTensors
    ensures node.View() == old(node.View()) && node.parents == []
    ensures r.Ok? ==> HandedOver(node, done + [node.children[k]], outputName, t, parents0, tensors0)
    ensures r.Fail? ==> r.error == ValueError
    ensures r.Fail? ==> var c := node.children[k]; Occurrences(node.children, c) > Occurrences(parents0[c], node)
  {
    ghost var kids := node.children;
    var child := node.children[k];
    ghost var m := Occurrences(done, child);
    r := HandOver(child, node, outputName, t);
    if r.Fail? {
      CopiesRunOut(parents0[child], node, m);
      OccurrencesPrefix(kids, k);
      return;
    }
    CopiesLeft(parents0[child], node, m);
    if child in done {
      UpdateTwice(tensors0[child], outputName, t);
    }
    forall c <- kids
      ensures c in parents0 && c in tensors0
      ensures c.parents == RemoveCopies(parents0[c], node, Occurrences(done + [child], c))
      ensures Occurrences(done + [child], c) <= Occurrences(parents0[c], node)
      ensures c.inputTensors == (if c in done + [child] then tensors0[c][outputName := t] else tensors0[c])
    {
      OccurrencesSnoc(done, child, c);
      if c != child {
        assert c.parents == old(c.parents) == RemoveCopies(parents0[c], node, Occurrences(done, c));
        assert Occurrences(done + [child], c) == Occurrences(done, c);
      } else {
        assert old(child.parents) == RemoveCopies(parents0[child], node, m);
        assert child.parents == RemoveCopies(parents0[child], node, m + 1);
      }
    }
    assert node.children == kids;
  }

  /** When `m` removals leave a copy of `x`, one more removal is the next of `RemoveCopies`, and `s` had more than `m`. */
  lemma CopiesLeft<T>(s: seq<T>, x: T, m: nat)
    requires x in RemoveCopies(s, x, m)
    ensures RemoveFirst(RemoveCopies(s, x, m), x) == RemoveCopies(s, x, m + 1)
    ensures m + 1 <= Occurrences(s, x)
  {
    RemoveCopiesCount(s, x, m);
    OccurrencesPositive(RemoveCopies(s, x, m), x);
  }

  /** When `m` removals leave no copy of `x`, `s` had at most `m`. */
  lemma CopiesRunOut<T>(s: seq<T>, x: T, m: nat)
    requires x !in RemoveCopies(s, x, m)
    ensures Occurrences(s, x) <= m
  {
    RemoveCopiesCount(s, x, m);
    OccurrencesPositive(RemoveCopies(s, x, m), x);
  }

  /** The prefix of `s` one longer ends with `s[k]`. */
  lemma GrowPrefix<T>(s: seq<T>, k: nat)
    requires k < |s|
    ensures s[..k + 1] == s[..k] + [s[k]]
  {
  }

  lemma UpdateTwice<K, V>(m: map<K, V>, k: K, v: V)
    ensures m[k := v][k := v] == m[k := v]
  {
  }

  /**
   * The fold of one selected node, whose parents list is empty: the reshaped constant is
   * computed, then handed to every child under the node's first output name. It gets through
   * exactly when the reshape does and every child lists the node among its parents as often as
   * the node lists the child. `VB`, `PB` and `TB` are the fields, parents and constants of the
   * nodes before it.
   */
  method FoldInto(node: Node, ghost R: set<Node>, ghost VB: map<Node, NodeView>, ghost PB: map<Node, seq<Node>>,
                  ghost TB: map<Node, map<string, Tensor>>)
    returns (r: Result<()>)
    requires Closed(R) && node in R
    requires FoldCheck(node.View()) == Ok(true) && node.parents == []
    requires forall n <- R :: n in VB && n in PB && n in TB
    requires forall n <- R :: VB[n] == n.View() && PB[n] == n.parents && TB[n] == n.inputTensors
    modifies R`parents, R`inputTensors
    ensures r.Ok? ==> Closed(R)
    ensures Folded(VB[node]).Fail? ==> r == Fail(Folded(VB[node]).error)
    ensures Folded(VB[node]).Ok? ==>
      && (r.Ok? <==> forall c <- node.children :: Occurrences(node.children, c) <= Occurrences(PB[c], node))
      && (r.Fail? ==> r.error == ValueError)
    ensures r.Ok? ==> Folded(VB[node]).Ok?
    ensures node.View() == VB[node]
    ensures forall n <- R :: n.children == old(n.children)
    ensures forall n <- R :: n.View() == VB[n].(inputTensors := n.inputTensors)
    ensures r.Ok? ==> forall n <- R ::
      && n.parents == RemoveCopies(PB[n], node, Occurrences(node.children, n))
      && n.inputTensors == if n in node.children then TB[n][node.outputs[0] := Folded(VB[node]).value] else TB[n]
  {
    var reshaped :- Folded(node.View());
    r := HandOverAll(node, node.outputs[0], reshaped);
    if r.Ok? {
      forall n <- R
        ensures n.parents == RemoveCopies(PB[n], node, Occurrences(node.children, n))
        ensures forall p <- n.parents :: p in R
      {
        if n !in node.children {
          OccurrencesPositive(node.children, n);
        }
        RemoveCopiesWithin(PB[n], node, Occurrences(node.children, n));
      }
    }
  }


  /**
   * One fold the pass has made: the turn that selected it, the folded node, its children, its
   * first output name and the reshaped constant handed to those children.
   */
  datatype Fold = Fold(at: nat, node: Node, children: seq<Node>, output: string, tensor: Tensor)

  /**
   * The constants of a node `n` that started as `m`, after `folds` in order: each fold that lists
   * `n` among its children stores its constant under its output name.
   */
  function TensorsAfter(m: map<string, Tensor>, n: Node, folds: seq<Fold>): (r: map<string, Tensor>)
    ensures (forall f <- folds :: n !in f.children) ==> r == m
    decreases |folds|
  {
    if folds == [] then m
    else
      var f := folds[|folds| - 1];
      var before := TensorsAfter(m, n, folds[..|folds| - 1]);
      if n in f.children then before[f.output := f.tensor] else before
  }

  /** Every fold that lists `n` among its children leaves a constant under its output name. */
  lemma {:induction false} TensorsAfterStores(m: map<string, Tensor>, n: Node, folds: seq<Fold>)
    ensures forall f <- folds :: n in f.children ==> f.output in TensorsAfter(m, n, folds)
    decreases |folds|
  {
    if folds != [] {
      var init := folds[..|folds| - 1];
      TensorsAfterStores(m, n, init);
      assert folds == init + [folds[|folds| - 1]];
    }
  }

  /**
   * The parents of a node `n` that started as `ps`, after `folds` in order: each fold removes its
   * node once for every time it lists `n` among its children.
   */
  function ParentsAfter(ps: seq<Node>, n: Node, folds: seq<Fold>): (r: seq<Node>)
    ensures (forall f <- folds :: n !in f.children) ==> r == ps
    ensures forall p <- r :: p in ps
    ensures ps == [] ==> r == []
    decreases |folds|
  {
    if folds == [] then ps
    else
      var f := folds[|folds| - 1];
      var before := ParentsAfter(ps, n, folds[..|folds| - 1]);
      var after := RemoveCopies(before, f.node, Occurrences(f.children, n));
      RemoveCopiesWithin(before, f.node, Occurrences(f.children, n));
      OccurrencesPositive(f.children, n);
      assert before == [] ==> after == [] by {
        if before == [] {
          RemoveCopiesEmpty(f.node, Occurrences(f.children, n));
        }
      }
      after
  }

  /** The folds made before turn `i`, for folds listed in the order the pass made them. */
  function Before(folds: seq<Fold>, i: int): (b: seq<Fold>)
    ensures b <= folds
    decreases |folds|
  {
    if folds == [] || folds[|folds| - 1].at < i then folds else Before(folds[..|folds| - 1], i)
  }

  /** The fold `f` made from a node whose fields at its turn were `v`: the node was selected and reshaped to `f`'s constant. */
  ghost predicate Made(v: NodeView, f: Fold)
  {
    && FoldCheck(v) == Ok(true)
    && Folded(v) == Ok(f.tensor)
    && f.output == v.outputs[0]
  }

  /**
   * The pass's record after its first `i` turns: `visited[j]` is what turn `j` saw, every node
   * selected then is removed, and the folds, one per removed node, were made at increasing turns.
   */
  ghost predicate Tracked(nodes: seq<Node>, i: nat, visited: seq<NodeView>, removedNodes: seq<Node>, folds: seq<Fold>)
  {
    && i <= |nodes| && |visited| == i
    && (forall j :: 0 <= j < i ==> FoldCheck(visited[j]).Ok?)
    && (forall j :: 0 <= j < i && FoldCheck(visited[j]) == Ok(true) ==> nodes[j] in removedNodes)
    && |folds| == |removedNodes|
    && (forall k :: 0 <= k < |folds| ==>
          && folds[k].at < i && nodes[folds[k].at] == folds[k].node == removedNodes[k]
          && Made(visited[folds[k].at], folds[k]))
    && (forall k, l :: 0 <= k < l < |folds| ==> folds[k].at < folds[l].at)
  }

  /** A turn that selects nothing keeps the record, with its view added. */
  lemma TrackedSkip(nodes: seq<Node>, i: nat, visited: seq<NodeView>, removedNodes: seq<Node>, folds: seq<Fold>, v: NodeView)
    requires Tracked(nodes, i, visited, removedNodes, folds) && i < |nodes|
    requires FoldCheck(v) == Ok(false)
    ensures Tracked(nodes, i + 1, visited + [v], removedNodes, folds)
  {
  }

  /** A turn that selects its node adds the node and the fold made at that turn to the record. */
  lemma TrackedFold(nodes: seq<Node>, i: nat, visited: seq<NodeView>, removedNodes: seq<Node>, folds: seq<Fold>,
                    v: NodeView, f: Fold)
    requires Tracked(nodes, i, visited, removedNodes, folds) && i < |nodes|
    requires Made(v, f) && f.at == i && f.node == nodes[i]
    ensures Tracked(nodes, i + 1, visited + [v], removedNodes + [nodes[i]], folds + [f])
  {
  }

  /**
   * Some child of `node` lists it among its parents, `P` as the folds so far left them, fewer
   * times than `node` lists that child.
   */
  ghost predicate Short(node: Node, children: seq<Node>, P: map<Node, seq<Node>>, folds: seq<Fold>)
  {
    exists c <- children :: c in P && Occurrences(children, c) > Occurrences(ParentsAfter(P[c], c, folds), node)
  }

  /**
   * Why the turn that sees fields `v` and parents `parents` raises: a selection check raises,
   * the `assert` on the parents fails, the reshape raises, or (`short`) some child lists the node
   * among its parents fewer times than the node lists that child, so a `remove` finds none left.
   */
  ghost predicate TurnFails(v: NodeView, parents: seq<Node>, short: bool, e: Error)
  {
    || FoldCheck(v) == Fail(e)
    || (FoldCheck(v) == Ok(true) && parents != [] && e == AssertionError)
    || (FoldCheck(v) == Ok(true) && parents == [] && Folded(v).Fail? && e == Folded(v).error)
    || (FoldCheck(v) == Ok(true) && parents == [] && Folded(v).Ok? && short && e == ValueError)
  }

  /**
   * The last turn recorded in `visited` raised `e`, against the parents `P` before the loop and the
   * folds made before that turn.
   */
  ghost predicate Raised(nodes: seq<Node>, visited: seq<NodeView>, folds: seq<Fold>, P: map<Node, seq<Node>>, e: Error)
    reads set n | n in nodes
  {
    && 0 < |visited| <= |nodes| && nodes[|visited| - 1] in P
    && var node := nodes[|visited| - 1];
       TurnFails(visited[|visited| - 1], ParentsAfter(P[node], node, folds), Short(node, node.children, P, folds), e)
  }

  /**
   * ReshapeInitTensorFuser.__call__. `visited[i]` holds the fields of `graph.nodes[i]` when the
   * loop reaches it, that is its initial fields with the constants of the folds before it, and
   * `folds` lists the folds made. Exactly the nodes selected at their visit are removed; each had
   * no parents left at its turn; every node ends with the constants and parents its folds leave
   * it, and the other nodes keep their order. When the pass raises, the last visit says why.
   */
  method FoldInitializerReshapes(graph: Graph)
    returns (r: Result<Graph>, ghost removed: seq<Node>, ghost visited: seq<NodeView>, ghost folds: seq<Fold>)
    requires Closed(NodeSet(graph.nodes))
    modifies NodeSet(graph.nodes)`parents, NodeSet(graph.nodes)`inputTensors
    ensures |visited| <= |graph.nodes| && (r.Ok? ==> |visited| == |graph.nodes|)
    ensures forall j :: 0 <= j < |visited| ==>
      visited[j] == old(graph.nodes[j].View()).(inputTensors :=
        TensorsAfter(old(graph.nodes[j].inputTensors), graph.nodes[j], Before(folds, j)))
    ensures r.Ok? ==> Tracked(graph.nodes, |graph.nodes|, visited, removed, folds)
    ensures r.Ok? ==> forall f <- folds :: var n := f.node;
      && f.children == n.children
      && ParentsAfter(old(n.parents), n, Before(folds, f.at)) == []
      && !Short(n, f.children, old(ParentLists(NodeSet(graph.nodes))), Before(folds, f.at))
    ensures r.Ok? ==> forall n <- graph.nodes ::
      n.inputTensors == TensorsAfter(old(n.inputTensors), n, folds) && n.parents == ParentsAfter(old(n.parents), n, folds)
    ensures r.Ok? ==> forall n <- removed :: n.parents == [] && FoldCheck(n.View()) == Ok(true)
    ensures forall f <- folds :: f.node in graph.nodes
    ensures r.Ok? ==> r.value == Graph(Filter(graph.nodes, (n: Node) => n !in removed), graph.inputs, graph.outputs)
    ensures r.Ok? ==> IsSubseq(r.value.nodes, graph.nodes)
    ensures r.Fail? ==> |visited| > 0 && forall f <- folds :: f.at < |visited| - 1
    ensures r.Fail? ==> var i := |visited| - 1; var node := graph.nodes[i];
      TurnFails(visited[i], ParentsAfter(old(node.parents), node, folds),
                Short(node, old(node.children), old(ParentLists(NodeSet(graph.nodes))), folds),
                r.error)
    ensures forall n <- graph.nodes :: n.attrs == old(n.attrs) && n.inputs == old(n.inputs) && n.outputs == old(n.outputs)
    ensures forall n <- graph.nodes :: n.children == old(n.children)
  {
    var nodes := graph.nodes;
    var done, removedNodes;
    done, removedNodes, visited, folds := FoldAll(nodes, NodeSet(nodes));
    removed := removedNodes;
    if done.Fail? {
      return Fail(done.error), removed, visited, folds;
    }
    var transformed := Filter(nodes, (n: Node) => n !in removedNodes);
    FilterIsSubseq(nodes, (n: Node) => n !in removedNodes);
    r := Ok(Graph(transformed, graph.inputs, graph.outputs));
  }

  /** Before turn `j` no later fold exists yet, so a fold made at turn `j` or after does not count. */
  lemma BeforeSnoc(folds: seq<Fold>, f: Fold, j: int)
    requires j <= f.at
    ensures Before(folds + [f], j) == Before(folds, j)
  {
  }

  /** Turn `j`, for each `j` before `i`, saw its node's fields `V0` with the constants `T0` and those of the folds before it. */
  ghost predicate Saw(nodes: seq<Node>, i: nat, visited: seq<NodeView>, folds: seq<Fold>,
                      V0: map<Node, NodeView>, T0: map<Node, map<string, Tensor>>)
  {
    && i <= |nodes| && |visited| == i
    && (forall n <- nodes :: n in V0 && n in T0)
    && (forall j :: 0 <= j < i ==>
          visited[j] == V0[nodes[j]].(inputTensors := TensorsAfter(T0[nodes[j]], nodes[j], Before(folds, j))))
  }

  /**
   * Every fold was made before turn `i` from a node whose parents `P0` the folds before it had
   * all removed, and each of its children still listed it as often as it listed the child.
   */
  ghost predicate Cleared(i: nat, folds: seq<Fold>, P0: map<Node, seq<Node>>)
  {
    forall f <- folds ::
      && f.at < i && f.node in P0 && ParentsAfter(P0[f.node], f.node, Before(folds, f.at)) == []
      && !Short(f.node, f.children, P0, Before(folds, f.at))
  }

  /**
   * What the loop of ReshapeInitTensorFuser.__call__ has recorded after `i` turns, against the
   * nodes' fields `V0`, parents `P0` and constants `T0` before it: the selections and folds, what
   * each turn saw, and that each folded node had no parents left at its turn.
   */
  ghost predicate Recorded(nodes: seq<Node>, i: nat, visited: seq<NodeView>, removedNodes: seq<Node>, folds: seq<Fold>,
                           V0: map<Node, NodeView>, P0: map<Node, seq<Node>>, T0: map<Node, map<string, Tensor>>)
  {
    && Tracked(nodes, i, visited, removedNodes, folds)
    && (forall n <- nodes :: n in P0)
    && Saw(nodes, i, visited, folds, V0, T0)
    && Cleared(i, folds, P0)
  }

  /**
   * The nodes after the folds so far: every node holds the constants and parents the folds leave
   * it, its other fields are as they were, and every removed node has no parents left.
   */
  ghost predicate Holds(nodes: seq<Node>, R: set<Node>, removedNodes: seq<Node>, folds: seq<Fold>,
                        V0: map<Node, NodeView>, P0: map<Node, seq<Node>>, T0: map<Node, map<string, Tensor>>)
    reads R
  {
    && Closed(R)
    && (forall n <- nodes :: n in R)
    && (forall n <- R :: n in V0 && n in P0 && n in T0 && n.View() == V0[n].(inputTensors := n.inputTensors))
    && (forall n <- R :: n.inputTensors == TensorsAfter(T0[n], n, folds) && n.parents == ParentsAfter(P0[n], n, folds))
    && (forall f <- folds :: f.node in R && f.children == f.node.children)
    && (forall n <- removedNodes :: n in R && n.parents == [] && FoldCheck(n.View()) == Ok(true))
  }

  /** A turn that folds nothing sees the constants of all folds so far. */
  lemma SawSkip(nodes: seq<Node>, i: nat, visited: seq<NodeView>, folds: seq<Fold>,
                V0: map<Node, NodeView>, T0: map<Node, map<string, Tensor>>, v: NodeView)
    requires i < |nodes| && Saw(nodes, i, visited, folds, V0, T0) && forall f <- folds :: f.at < i
    requires v == V0[nodes[i]].(inputTensors := TensorsAfter(T0[nodes[i]], nodes[i], folds))
    ensures Saw(nodes, i + 1, visited + [v], folds, V0, T0)
  {
  }

  /** A fold made at turn `i` does not change what the turns up to `i` saw. */
  lemma SawFold(nodes: seq<Node>, i: nat, visited: seq<NodeView>, folds: seq<Fold>,
                V0: map<Node, NodeView>, T0: map<Node, map<string, Tensor>>, v: NodeView, f: Fold)
    requires Saw(nodes, i + 1, visited, folds, V0, T0) && i <= f.at
    ensures Saw(nodes, i + 1, visited, folds + [f], V0, T0)
  {
  }

  /** A fold made at turn `i` from a node with no parents left keeps the folds cleared. */
  lemma ClearedFold(i: nat, folds: seq<Fold>, P0: map<Node, seq<Node>>, f: Fold)
    requires Cleared(i, folds, P0) && f.at == i && f.node in P0 && ParentsAfter(P0[f.node], f.node, folds) == []
    requires !Short(f.node, f.children, P0, folds)
    ensures Cleared(i + 1, folds + [f], P0)
  {
    BeforeAll(folds, i);
    forall g <- folds + [f]
      ensures g.at < i + 1 && g.node in P0 && ParentsAfter(P0[g.node], g.node, Before(folds + [f], g.at)) == []
      ensures !Short(g.node, g.children, P0, Before(folds + [f], g.at))
    {
      BeforeSnoc(folds, f, g.at);
    }
  }

  /** A turn that folds nothing adds its view to the record. */
  lemma RecordedSkip(nodes: seq<Node>, i: nat, visited: seq<NodeView>, removedNodes: seq<Node>, folds: seq<Fold>,
                     V0: map<Node, NodeView>, P0: map<Node, seq<Node>>, T0: map<Node, map<string, Tensor>>, v: NodeView)
    requires i < |nodes| && Recorded(nodes, i, visited, removedNodes, folds, V0, P0, T0)
    requires FoldCheck(v) == Ok(false) && v == V0[nodes[i]].(inputTensors := TensorsAfter(T0[nodes[i]], nodes[i], folds))
    ensures Recorded(nodes, i + 1, visited + [v], removedNodes, folds, V0, P0, T0)
  {
    TrackedSkip(nodes, i, visited, removedNodes, folds, v);
    SawSkip(nodes, i, visited, folds, V0, T0, v);
  }

  /** A turn that folds its parentless node adds its view, the node and the fold to the record. */
  lemma RecordedFold(nodes: seq<Node>, i: nat, visited: seq<NodeView>, removedNodes: seq<Node>, folds: seq<Fold>,
                     V0: map<Node, NodeView>, P0: map<Node, seq<Node>>, T0: map<Node, map<string, Tensor>>,
                     v: NodeView, f: Fold)
    requires i < |nodes| && Recorded(nodes, i, visited, removedNodes, folds, V0, P0, T0)
    requires v == V0[nodes[i]].(inputTensors := TensorsAfter(T0[nodes[i]], nodes[i], folds))
    requires Made(v, f) && f.at == i && f.node == nodes[i] && ParentsAfter(P0[f.node], f.node, folds) == []
    requires !Short(f.node, f.children, P0, folds)
    ensures Recorded(nodes, i + 1, visited + [v], removedNodes + [nodes[i]], folds + [f], V0, P0, T0)
  {
    TrackedFold(nodes, i, visited, removedNodes, folds, v, f);
    SawSkip(nodes, i, visited, folds, V0, T0, v);
    SawFold(nodes, i, visited + [v], folds, V0, T0, v, f);
    ClearedFold(i, folds, P0, f);
  }

  /**
   * Turn `i` of the loop of ReshapeInitTensorFuser.__call__: the node is checked and, when
   * selected and parentless, folded into its children. The turn's view is its fields with the
   * constants of the folds so far; when it raises, the view says why.
   */
  method FoldTurn(nodes: seq<Node>, i: nat, ghost R: set<Node>, removedNodes: seq<Node>, ghost visited: seq<NodeView>,
                  ghost folds: seq<Fold>, ghost V0: map<Node, NodeView>, ghost P0: map<Node, seq<Node>>,
                  ghost T0: map<Node, map<string, Tensor>>)
    returns (r: Result<()>, removed': seq<Node>, ghost visited': seq<NodeView>, ghost folds': seq<Fold>)
    requires i < |nodes| && Recorded(nodes, i, visited, removedNodes, folds, V0, P0, T0)
    requires Holds(nodes, R, removedNodes, folds, V0, P0, T0)
    modifies R`parents, R`inputTensors
    ensures forall n <- R :: n.children == old(n.children)
    ensures forall n <- R :: n.View() == V0[n].(inputTensors := n.inputTensors)
    ensures visited' == visited + [V0[nodes[i]].(inputTensors := TensorsAfter(T0[nodes[i]], nodes[i], folds))]
    ensures r.Ok? ==> Recorded(nodes, i + 1, visited', removed', folds', V0, P0, T0)
    ensures r.Ok? ==> Holds(nodes, R, removed', folds', V0, P0, T0)
    ensures r.Fail? ==> folds' == folds
    ensures r.Fail? ==> Raised(nodes, visited', folds, P0, r.error)
  {
    var node := nodes[i];
    ghost var v := node.View();
    assert v == V0[node].(inputTensors := TensorsAfter(T0[node], node, folds));
    var check := FoldCheck(node.View());
    visited' := visited + [v];
    folds' := folds;
    removed' := removedNodes;
    if check.Fail? {
      return Fail(check.error), removed', visited', folds';
    }
    if !check.value {
      RecordedSkip(nodes, i, visited, removedNodes, folds, V0, P0, T0, v);
      return Ok(()), removed', visited', folds';
    }
    ghost var parents := ParentsAfter(P0[node], node, folds);
    assert parents == node.parents;
    if |node.parents| != 0 {
      assert FoldCheck(visited'[i]) == Ok(true) && parents != [];
      return Fail(AssertionError), removed', visited', folds';
    }
    r, removed', folds' := FoldSelected(nodes, i, R, removedNodes, visited, folds, V0, P0, T0, v);
  }

  /**
   * The fold of turn `i` of the loop of ReshapeInitTensorFuser.__call__, whose node `v` was
   * selected and has no parents left: it is folded into its children and the record gains it.
   */
  method FoldSelected(nodes: seq<Node>, i: nat, ghost R: set<Node>, removedNodes: seq<Node>, ghost visited: seq<NodeView>,
                      ghost folds: seq<Fold>, ghost V0: map<Node, NodeView>, ghost P0: map<Node, seq<Node>>,
                      ghost T0: map<Node, map<string, Tensor>>, ghost v: NodeView)
    returns (r: Result<()>, removed': seq<Node>, ghost folds': seq<Fold>)
    requires i < |nodes| && Recorded(nodes, i, visited, removedNodes, folds, V0, P0, T0)
    requires Holds(nodes, R, removedNodes, folds, V0, P0, T0)
    requires v == nodes[i].View() && FoldCheck(v) == Ok(true) && nodes[i].parents == []
    requires v == V0[nodes[i]].(inputTensors := TensorsAfter(T0[nodes[i]], nodes[i], folds))
    modifies R`parents, R`inputTensors
    ensures forall n <- R :: n.children == old(n.children)
    ensures forall n <- R :: n.View() == V0[n].(inputTensors := n.inputTensors)
    ensures r.Ok? ==> Recorded(nodes, i + 1, visited + [v], removed', folds', V0, P0, T0)
    ensures r.Ok? ==> Holds(nodes, R, removed', folds', V0, P0, T0)
    ensures r.Fail? ==> folds' == folds
    ensures r.Fail? ==> var node := nodes[i];
      TurnFails(v, [], Short(node, node.children, P0, folds),
                r.error)
  {
    var node := nodes[i];
    folds' := folds;
    removed' := removedNodes;
    ghost var f;
    r, f := FoldHeld(nodes, i, node, R, removedNodes, folds, V0, P0, T0);
    if r.Fail? {
      return;
    }
    RecordedFold(nodes, i, visited, removedNodes, folds, V0, P0, T0, v, f);
    folds' := folds + [f];
    removed' := removedNodes + [node];
  }

  /**
   * The hand-over of a fold at turn `i`, against the nodes as the folds so far left them: when it
   * gets through, the nodes hold what those folds and this one `f` leave them; otherwise some
   * child lists the node among its parents fewer times than the node lists that child.
   */
  method FoldHeld(nodes: seq<Node>, i: nat, node: Node, ghost R: set<Node>, ghost removedNodes: seq<Node>,
                  ghost folds: seq<Fold>, ghost V0: map<Node, NodeView>, ghost P0: map<Node, seq<Node>>,
                  ghost T0: map<Node, map<string, Tensor>>)
    returns (r: Result<()>, ghost f: Fold)
    requires Holds(nodes, R, removedNodes, folds, V0, P0, T0)
    requires node in R && FoldCheck(node.View()) == Ok(true) && node.parents == []
    modifies R`parents, R`inputTensors
    ensures forall n <- R :: n.children == old(n.children)
    ensures forall n <- R :: n.View() == V0[n].(inputTensors := n.inputTensors)
    ensures node.View() == old(node.View())
    ensures Folded(node.View()).Fail? ==> r == Fail(Folded(node.View()).error)
    ensures Folded(node.View()).Ok? ==>
      && (r.Ok? <==> forall c <- node.children :: Occurrences(node.children, c) <= Occurrences(ParentsAfter(P0[c], c, folds), node))
      && (r.Fail? ==> r.error == ValueError)
    ensures r.Ok? ==> Folded(node.View()).Ok? && f == Fold(i, node, node.children, node.outputs[0], Folded(node.View()).value)
    ensures r.Ok? ==> Holds(nodes, R, removedNodes + [node], folds + [f], V0, P0, T0)
  {
    ghost var TB: map<Node, map<string, Tensor>> := map n: Node | n in R :: TensorsAfter(T0[n], n, folds);
    ghost var PB: map<Node, seq<Node>> := map n: Node | n in R :: ParentsAfter(P0[n], n, folds);
    ghost var VB: map<Node, NodeView> := map n: Node | n in R :: V0[n].(inputTensors := TB[n]);
    assert forall n <- removedNodes :: PB[n] == [] && FoldCheck(VB[n]) == Ok(true);
    assert PB[node] == [] && FoldCheck(VB[node]) == Ok(true);
    r := FoldInto(node, R, VB, PB, TB);
    if r.Fail? {
      f := Fold(i, node, [], "", Tensor([], []));
      return;
    }
    f := Fold(i, node, node.children, node.outputs[0], Folded(VB[node]).value);
    HoldsFold(nodes, R, removedNodes, folds, V0, P0, T0, f, VB, PB, TB);
  }

  /**
   * A fold whose hand-over got through, from the nodes' fields `VB`, parents `PB` and constants
   * `TB` before it to the nodes after it: they hold what the folds so far, and this one, leave them.
   */
  lemma HoldsFold(nodes: seq<Node>, R: set<Node>, removedNodes: seq<Node>, folds: seq<Fold>,
                  V0: map<Node, NodeView>, P0: map<Node, seq<Node>>, T0: map<Node, map<string, Tensor>>, f: Fold,
                  VB: map<Node, NodeView>, PB: map<Node, seq<Node>>, TB: map<Node, map<string, Tensor>>)
    requires Closed(R) && (forall n <- nodes :: n in R)
    requires forall n <- R :: n in V0 && n in P0 && n in T0 && n in VB && n in PB && n in TB
    requires forall n <- R ::
      && VB[n] == V0[n].(inputTensors := TB[n])
      && TB[n] == TensorsAfter(T0[n], n, folds) && PB[n] == ParentsAfter(P0[n], n, folds)
    requires forall g <- folds :: g.node in R && g.children == g.node.children
    requires forall n <- removedNodes :: n in R && PB[n] == [] && FoldCheck(VB[n]) == Ok(true)
    requires f.node in R && PB[f.node] == [] && f.children == f.node.children && FoldCheck(VB[f.node]) == Ok(true)
    requires forall c <- f.children :: Occurrences(f.children, c) <= Occurrences(PB[c], f.node)
    requires forall n <- R ::
      && n.View() == VB[n].(inputTensors := n.inputTensors)
      && n.parents == RemoveCopies(PB[n], f.node, Occurrences(f.children, n))
      && n.inputTensors == if n in f.children then TB[n][f.output := f.tensor] else TB[n]
    ensures Holds(nodes, R, removedNodes + [f.node], folds + [f], V0, P0, T0)
  {
    FoldedOnward(R, folds, V0, P0, T0, f, VB, PB, TB);
    FoldedRemoved(R, removedNodes, f, VB, PB);
  }

  /** After the fold `f`, every node holds the fields, constants and parents the folds so far, and `f`, leave it. */
  lemma FoldedOnward(R: set<Node>, folds: seq<Fold>,
                     V0: map<Node, NodeView>, P0: map<Node, seq<Node>>, T0: map<Node, map<string, Tensor>>, f: Fold,
                     VB: map<Node, NodeView>, PB: map<Node, seq<Node>>, TB: map<Node, map<string, Tensor>>)
    requires forall n <- R :: n in V0 && n in P0 && n in T0 && n in VB && n in PB && n in TB
    requires forall n <- R ::
      && VB[n] == V0[n].(inputTensors := TB[n])
      && TB[n] == TensorsAfter(T0[n], n, folds) && PB[n] == ParentsAfter(P0[n], n, folds)
    requires forall n <- R ::
      && n.View() == VB[n].(inputTensors := n.inputTensors)
      && n.parents == RemoveCopies(PB[n], f.node, Occurrences(f.children, n))
      && n.inputTensors == if n in f.children then TB[n][f.output := f.tensor] else TB[n]
    ensures forall n <- R ::
      && n.View() == V0[n].(inputTensors := n.inputTensors)
      && n.inputTensors == TensorsAfter(T0[n], n, folds + [f])
      && n.parents == ParentsAfter(P0[n], n, folds + [f])
  {
  }

  /**
   * A node with no parents is none of its children's parents, so the fold `f` leaves a removed
   * node, and its own node, without parents and still selected.
   */
  lemma FoldedRemoved(R: set<Node>, removedNodes: seq<Node>, f: Fold, VB: map<Node, NodeView>, PB: map<Node, seq<Node>>)
    requires forall n <- R :: n in VB && n in PB
    requires forall n <- removedNodes :: n in R && PB[n] == [] && FoldCheck(VB[n]) == Ok(true)
    requires f.node in R && PB[f.node] == [] && FoldCheck(VB[f.node]) == Ok(true)
    requires forall c <- f.children :: c in PB && Occurrences(f.children, c) <= Occurrences(PB[c], f.node)
    requires forall n <- R ::
      && n.View() == VB[n].(inputTensors := n.inputTensors)
      && n.parents == RemoveCopies(PB[n], f.node, Occurrences(f.children, n))
      && n.inputTensors == if n in f.children then VB[n].inputTensors[f.output := f.tensor] else VB[n].inputTensors
    ensures forall n <- removedNodes + [f.node] :: n in R && n.parents == [] && FoldCheck(n.View()) == Ok(true)
  {
    forall n <- removedNodes + [f.node]
      ensures n in R && n.parents == [] && FoldCheck(n.View()) == Ok(true)
    {
      assert PB[n] == [];
      OccurrencesPositive(f.children, n);
      RemoveCopiesEmpty(f.node, Occurrences(f.children, n));
    }
  }

  /** Every fold made before turn `i` counts before it. */
  lemma BeforeAll(folds: seq<Fold>, i: int)
    requires forall f <- folds :: f.at < i
    ensures Before(folds, i) == folds
  {
  }

  /**
   * The loop of ReshapeInitTensorFuser.__call__: every node is checked in turn and each fold is
   * handed to its children, stopping at the first raise.
   */
  method FoldAll(nodes: seq<Node>, ghost R: set<Node>)
    returns (r: Result<()>, removedNodes: seq<Node>, ghost visited: seq<NodeView>, ghost folds: seq<Fold>)
    requires Closed(R) && forall n <- nodes :: n in R
    modifies R`parents, R`inputTensors
    ensures forall n <- R :: n.attrs == old(n.attrs) && n.inputs == old(n.inputs) && n.outputs == old(n.outputs)
    ensures forall n <- R :: n.children == old(n.children)
    ensures |visited| <= |nodes| && (r.Ok? ==> |visited| == |nodes|)
    ensures forall j :: 0 <= j < |visited| ==>
      visited[j] == old(nodes[j].View()).(inputTensors := TensorsAfter(old(nodes[j].inputTensors), nodes[j], Before(folds, j)))
    ensures r.Ok? ==> Tracked(nodes, |nodes|, visited, removedNodes, folds)
    ensures forall f <- folds :: f.node in R
    ensures r.Ok? ==> forall f <- folds :: var n := f.node;
      && f.children == n.children
      && ParentsAfter(old(n.parents), n, Before(folds, f.at)) == []
      && !Short(n, f.children, old(ParentLists(R)), Before(folds, f.at))
    ensures r.Ok? ==> forall n <- R ::
      n.inputTensors == TensorsAfter(old(n.inputTensors), n, folds) && n.parents == ParentsAfter(old(n.parents), n, folds)
    ensures r.Ok? ==> forall n <- removedNodes :: n.parents == [] && FoldCheck(n.View()) == Ok(true)
    ensures r.Fail? ==> |visited| > 0 && forall f <- folds :: f.at < |visited| - 1
    ensures r.Fail? ==> var i := |visited| - 1; var node := nodes[i];
      TurnFails(visited[i], ParentsAfter(old(node.parents), node, folds),
                Short(node, old(node.children), old(ParentLists(R)), folds),
                r.error)
  {
    ghost var V0: map<Node, NodeView> := map n: Node | n in R :: n.View();
    ghost var P0: map<Node, seq<Node>> := ParentLists(R);
    ghost var T0: map<Node, map<string, Tensor>> := map n: Node | n in R :: n.inputTensors;
    r, removedNodes, visited, folds := FoldTurns(nodes, R, V0, P0, T0);
    assert Saw(nodes, |visited|, visited, folds, V0, T0);
    if r.Fail? {
      BeforeAll(folds, |visited| - 1);
      assert nodes[|visited| - 1].children == old(nodes[|visited| - 1].children);
    } else {
      assert Cleared(|nodes|, folds, P0);
      assert forall f <- folds :: f.node in R && f.children == f.node.children;
    }
  }

  /**
   * The loop of ReshapeInitTensorFuser.__call__ against the nodes' fields `V0`, parents `P0` and
   * constants `T0` before it: the record of its turns, the nodes after them and, when a turn
   * raises, why.
   */
  method FoldTurns(nodes: seq<Node>, ghost R: set<Node>, ghost V0: map<Node, NodeView>, ghost P0: map<Node, seq<Node>>,
                   ghost T0: map<Node, map<string, Tensor>>)
    returns (r: Result<()>, removedNodes: seq<Node>, ghost visited: seq<NodeView>, ghost folds: seq<Fold>)
    requires Closed(R) && forall n <- nodes :: n in R
    requires forall n <- R :: n in V0 && n in P0 && n in T0
    requires forall n <- R :: V0[n] == n.View() && P0[n] == n.parents && T0[n] == n.inputTensors
    modifies R`parents, R`inputTensors
    ensures forall n <- R :: n.children == old(n.children)
    ensures forall n <- R :: n.View() == V0[n].(inputTensors := n.inputTensors)
    ensures r.Ok? ==> |visited| == |nodes|
    ensures r.Ok? ==> Recorded(nodes, |nodes|, visited, removedNodes, folds, V0, P0, T0)
    ensures r.Ok? ==> Holds(nodes, R, removedNodes, folds, V0, P0, T0)
    ensures r.Fail? ==> Saw(nodes, |visited|, visited, folds, V0, T0)
    ensures r.Fail? ==> forall f <- folds :: f.at < |visited| - 1 && f.node in R
    ensures r.Fail? ==> Raised(nodes, visited, folds, P0, r.error)
  {
    removedNodes := [];
    visited := [];
    folds := [];
    for i := 0 to |nodes|
      invariant Recorded(nodes, i, visited, removedNodes, folds, V0, P0, T0)
      invariant Holds(nodes, R, removedNodes, folds, V0, P0, T0)
      invariant forall n <- R :: n.children == old(n.children)
    {
      var step;
      ghost var visited', folds';
      step, removedNodes, visited', folds' := FoldTurn(nodes, i, R, removedNodes, visited, folds, V0, P0, T0);
      if step.Fail? {
        SawSkip(nodes, i, visited, folds, V0, T0, visited'[i]);
        return step, removedNodes, visited', folds;
      }
      visited, folds := visited', folds';
    }
    r := Ok(());
  }
}
