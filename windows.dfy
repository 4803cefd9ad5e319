/**
 * The two halves of NodesFuser.__call__ that do not depend on the rule: collecting the linear
 * window that ends at a node, and re-emitting the node list once the replacements are known.
 */
module Windows {
  import opened Graphs
  import opened Sequences

  /** The node reached from `n` by following the first parent `t` times. */
  ghost function Ancestor(n: Node, t: nat): Node
    reads *
    decreases t
  {
    if t == 0 then n
    else
      var m := Ancestor(n, t - 1);
      if |m.parents| > 0 then m.parents[0] else m
  }

  /** `m` has exactly one parent, and that parent feeds no other node. */
  ghost predicate SoleLink(m: Node)
    reads *
  {
    |m.parents| == 1 && |m.parents[0].children| == 1
  }

  /** The `d` links above `n` are all single-parent / single-child links. */
  ghost predicate LinearAbove(n: Node, d: nat)
    reads *
  {
    forall t :: 0 <= t < d ==> SoleLink(Ancestor(n, t))
  }

  /** Each node of `w` after the first has the previous node as its only parent, and that parent has one child. */
  ghost predicate StrictChain(w: seq<Node>)
    reads *
  {
    forall i :: 0 <= i < |w| - 1 ==> w[i + 1].parents == [w[i]] && |w[i].children| == 1
  }

  /** The node reached from `n` by following the first parent `t` times in the parent lists `P`. */
  function AncestorIn(P: map<Node, seq<Node>>, n: Node, t: nat): Node
    decreases t
  {
    if t == 0 then n
    else
      var m := AncestorIn(P, n, t - 1);
      if m in P && |P[m]| > 0 then P[m][0] else m
  }

  /** In the link lists `P` and `C`, `m` has exactly one parent, and that parent has one child. */
  predicate SoleLinkIn(P: map<Node, seq<Node>>, C: map<Node, seq<Node>>, m: Node)
  {
    m in P && |P[m]| == 1 && P[m][0] in C && |C[P[m][0]]| == 1
  }

  /** In the link lists `P` and `C`, the `d` links above `n` are all single-parent / single-child links. */
  predicate LinearAboveIn(P: map<Node, seq<Node>>, C: map<Node, seq<Node>>, n: Node, d: nat)
  {
    forall t :: 0 <= t < d ==> SoleLinkIn(P, C, AncestorIn(P, n, t))
  }

  /** In the link lists `P` and `C`, each node of `w` after the first has the previous one as its only parent, which has one child. */
  predicate StrictChainIn(P: map<Node, seq<Node>>, C: map<Node, seq<Node>>, w: seq<Node>)
  {
    forall i, j :: 0 <= i && j == i + 1 < |w| ==> w[j] in P && P[w[j]] == [w[i]] && w[i] in C && |C[w[i]]| == 1
  }

  /**
   * `w` is the window NodesFuser.__call__ collects for `node` with `num_nodes == k` in a graph
   * whose parent and child lists are `P` and `C`: empty or 2 to k nodes, a strict chain ending at
   * `node`, and full exactly when the k - 1 links above `node` are linear.
   */
  predicate Collected(P: map<Node, seq<Node>>, C: map<Node, seq<Node>>, node: Node, k: nat, w: seq<Node>)
  {
    && (w == [] || 2 <= |w| <= k)
    && (w != [] ==> w[|w| - 1] == node)
    && StrictChainIn(P, C, w)
    && (k < 2 ==> w == [])
    && (k >= 2 ==> (|w| == k <==> LinearAboveIn(P, C, node, k - 1)))
  }

  /** In a closed node set, following first parents stays inside the set and agrees with its parent lists. */
  lemma {:induction false} AncestorAgrees(R: set<Node>, n: Node, t: nat)
    requires Closed(R) && n in R
    ensures Ancestor(n, t) in R && Ancestor(n, t) == AncestorIn(ParentLists(R), n, t)
    decreases t
  {
    if t > 0 {
      AncestorAgrees(R, n, t - 1);
    }
  }

  /** A window `CollectWindow` returns in a closed node set is the one `Collected` describes for that set's links. */
  lemma CollectedNow(R: set<Node>, node: Node, k: nat, w: seq<Node>)
    requires Closed(R) && node in R && forall x <- w :: x in R
    requires (w == [] || 2 <= |w| <= k) && (w != [] ==> w[|w| - 1] == node) && StrictChain(w)
    requires k < 2 ==> w == []
    requires k >= 2 ==> (|w| == k <==> LinearAbove(node, k - 1))
    ensures Collected(ParentLists(R), ChildLists(R), node, k, w)
  {
    var P, C := ParentLists(R), ChildLists(R);
    forall t: nat
      ensures Ancestor(node, t) in R && Ancestor(node, t) == AncestorIn(P, node, t)
    {
      AncestorAgrees(R, node, t);
    }
    if k >= 2 {
      assert LinearAbove(node, k - 1) <==> LinearAboveIn(P, C, node, k - 1);
    }
  }

  /**
   * The converse of CollectedNow: a window `Collected` for the links of a closed node set lies in
   * that set, is a strict chain of its nodes, and is full exactly when the links above `node` are
   * linear.
   */
  lemma CollectedLinks(R: set<Node>, node: Node, k: nat, w: seq<Node>)
    requires Closed(R) && node in R && Collected(ParentLists(R), ChildLists(R), node, k, w)
    ensures forall x <- w :: x in R
    ensures StrictChain(w)
    ensures k >= 2 ==> (|w| == k <==> LinearAbove(node, k - 1))
  {
    var P, C := ParentLists(R), ChildLists(R);
    forall x <- w
      ensures x in R
    {
      var i :| 0 <= i < |w| && w[i] == x;
      if i + 1 < |w| {
        var j := i + 1;
        assert w[j] in P && w[i] in C;
      } else {
        assert x == node;
      }
    }
    forall i | 0 <= i < |w| - 1
      ensures w[i + 1].parents == [w[i]] && |w[i].children| == 1
    {
      var j := i + 1;
      assert w[j] in P && P[w[j]] == [w[i]] && w[i] in C && |C[w[i]]| == 1;
    }
    forall t: nat
      ensures Ancestor(node, t) in R && Ancestor(node, t) == AncestorIn(P, node, t)
    {
      AncestorAgrees(R, node, t);
    }
    if k >= 2 {
      assert LinearAbove(node, k - 1) <==> LinearAboveIn(P, C, node, k - 1);
    }
  }

  /** Position `k - 1 - j` of a full collected window holds the `j`-th first ancestor of `node`. */
  lemma {:induction false} CollectedAncestor(P: map<Node, seq<Node>>, C: map<Node, seq<Node>>, node: Node, k: nat,
                                             w: seq<Node>, j: nat)
    requires Collected(P, C, node, k, w) && |w| == k && j < k
    ensures w[k - 1 - j] == AncestorIn(P, node, j)
    decreases j
  {
    if j > 0 {
      CollectedAncestor(P, C, node, k, w, j - 1);
      assert P[w[k - j]] == [w[k - 1 - j]];
    }
  }

  /** The links decide a full window: it is `node`'s first k - 1 ancestors, topmost first, then `node`. */
  lemma CollectedFull(P: map<Node, seq<Node>>, C: map<Node, seq<Node>>, node: Node, k: nat, w: seq<Node>)
    requires Collected(P, C, node, k, w) && |w| == k
    ensures forall i :: 0 <= i < k ==> w[i] == AncestorIn(P, node, k - 1 - i)
  {
    forall i | 0 <= i < k
      ensures w[i] == AncestorIn(P, node, k - 1 - i)
    {
      CollectedAncestor(P, C, node, k, w, k - 1 - i);
    }
  }

  /**
   * The window NodesFuser.__call__ builds for `node` with `num_nodes == k`: walking up through
   * single-parent links whose parent has a single child, at most k - 1 times, then taking in the
   * parent of the topmost node collected. The window is full (length k) exactly when the k - 1
   * links above `node` are all linear, and it is always a strict chain ending at `node`. The
   * second check of the extra ancestor never fails, so a window is never of length 1.
   */
  method CollectWindow(node: Node, k: nat, ghost R: set<Node>) returns (window: seq<Node>)
    ensures k < 2 ==> window == []
    ensures window == [] || 2 <= |window| <= k
    ensures window != [] ==> window[|window| - 1] == node
    ensures StrictChain(window)
    ensures k >= 2 ==> (|window| == k <==> LinearAbove(node, k - 1))
    ensures Closed(R) == old(Closed(R)) && StateOf(R) == old(StateOf(R))
  {
    window := [];
    var n := node;
    var steps := 0;
    while steps < k - 1
      invariant 0 <= steps && (k >= 1 ==> steps <= k - 1) && (k < 1 ==> steps == 0)
      invariant |window| == steps
      invariant n == Ancestor(node, steps)
      invariant LinearAbove(node, steps)
      invariant forall i :: 0 <= i < steps ==> window[i] == Ancestor(node, steps - 1 - i)
    {
      if |n.parents| != 1 {
        break;
      }
      var p := n.parents[0];
      if |p.children| != 1 {
        break;
      }
      window := [n] + window;
      n := p;
      steps := steps + 1;
    }
    assert steps >= k - 1 || !SoleLink(Ancestor(node, steps));
    if |window| > 0 {
      var first := window[0];
      assert first == Ancestor(node, steps - 1) && SoleLink(first);
      var p := first.parents[0];
      if |p.children| == 1 {
        window := [p] + window;
      }
      assert |window| == steps + 1;
      assert forall i :: 0 <= i <= steps ==> window[i] == Ancestor(node, steps - i);
    }
    if k >= 2 && LinearAbove(node, k - 1) {
      assert steps == k - 1;
    }
  }

  /** Every replacement recorded in `merged_nodes` is non-empty. */
  predicate NonEmptyReplacements(merged: map<string, seq<Node>>)
  {
    forall name <- merged :: merged[name] != []
  }

  /** `added_merged` after visiting `nodes`: the head of each replacement met, once, in order of first visit. */
  function Heads(nodes: seq<Node>, merged: map<string, seq<Node>>): seq<Node>
    requires NonEmptyReplacements(merged)
    decreases |nodes|
  {
    if nodes == [] then []
    else
      var before := Heads(nodes[..|nodes| - 1], merged);
      var n := nodes[|nodes| - 1];
      if n.name in merged && merged[n.name][0] !in before then before + [merged[n.name][0]] else before
  }

  /** What visiting `n` after `before` appends to the output. */
  function Piece(before: seq<Node>, n: Node, merged: map<string, seq<Node>>): seq<Node>
    requires NonEmptyReplacements(merged)
  {
    if n.name !in merged then [n]
    else if merged[n.name][0] in Heads(before, merged) then []
    else merged[n.name]
  }

  /** The node list NodesFuser.__call__ returns for the recorded replacements. */
  function Emitted(nodes: seq<Node>, merged: map<string, seq<Node>>): seq<Node>
    requires NonEmptyReplacements(merged)
    decreases |nodes|
  {
    if nodes == [] then []
    else
      var before := nodes[..|nodes| - 1];
      Emitted(before, merged) + Piece(before, nodes[|nodes| - 1], merged)
  }

  /** The emission loop of NodesFuser.__call__. */
  method Emit(nodes: seq<Node>, merged: map<string, seq<Node>>) returns (transformed: seq<Node>)
    requires NonEmptyReplacements(merged)
    ensures transformed == Emitted(nodes, merged)
  {
    transformed := [];
    var added: seq<Node> := [];
    for i := 0 to |nodes|
      invariant transformed == Emitted(nodes[..i], merged)
      invariant added == Heads(nodes[..i], merged)
    {
      var node := nodes[i];
      assert nodes[..i + 1][..i] == nodes[..i];
      if node.name in merged {
        var replacement := merged[node.name];
        if replacement[0] !in added {
          for j := 0 to |replacement|
            invariant transformed == Emitted(nodes[..i], merged) + replacement[..j]
          {
            transformed := transformed + [replacement[j]];
          }
          added := added + [replacement[0]];
        }
      } else {
        transformed := transformed + [node];
      }
    }
    assert nodes[..|nodes|] == nodes;
  }

  /** The nodes no accepted window touched, in their original order. */
  function Unmerged(nodes: seq<Node>, merged: map<string, seq<Node>>): seq<Node>
  {
    Filter(nodes, (n: Node) => n.name !in merged)
  }

  /** With nothing recorded, the node list comes back as it was. */
  lemma {:induction false} EmittedWithoutMerges(nodes: seq<Node>)
    ensures Emitted(nodes, map[]) == nodes
    decreases |nodes|
  {
    if nodes != [] {
      EmittedWithoutMerges(nodes[..|nodes| - 1]);
      assert nodes == nodes[..|nodes| - 1] + [nodes[|nodes| - 1]];
    }
  }

  /** The untouched nodes survive in their original relative order. */
  lemma {:induction false} EmittedKeepsUnmergedOrder(nodes: seq<Node>, merged: map<string, seq<Node>>)
    requires NonEmptyReplacements(merged)
    ensures IsSubseq(Unmerged(nodes, merged), Emitted(nodes, merged))
    decreases |nodes|
  {
    if nodes != [] {
      var before := nodes[..|nodes| - 1];
      var last := nodes[|nodes| - 1];
      EmittedKeepsUnmergedOrder(before, merged);
      if last.name !in merged {
        assert Unmerged(nodes, merged) == Unmerged(before, merged) + [last];
        SubseqAppendBoth(Unmerged(before, merged), Emitted(before, merged), [last]);
      } else {
        assert Unmerged(nodes, merged) == Unmerged(before, merged);
        SubseqExtend(Unmerged(before, merged), Emitted(before, merged), Piece(before, last, merged));
      }
    }
  }

  /** An untouched node that no replacement reuses appears as often as it did before: once, when the list has it once. */
  lemma {:induction false} EmittedCountsUnmerged(nodes: seq<Node>, merged: map<string, seq<Node>>, x: Node)
    requires NonEmptyReplacements(merged)
    requires x.name !in merged
    requires forall name <- merged :: x !in merged[name]
    ensures multiset(Emitted(nodes, merged))[x] == multiset(nodes)[x]
    decreases |nodes|
  {
    if nodes != [] {
      var before := nodes[..|nodes| - 1];
      var last := nodes[|nodes| - 1];
      EmittedCountsUnmerged(before, merged, x);
      assert nodes == before + [last];
      var piece := Piece(before, last, merged);
      if last.name in merged {
        assert x !in piece;
        assert last != x;
      }
    }
  }

  lemma {:induction false} HeadsComplete(nodes: seq<Node>, merged: map<string, seq<Node>>, j: nat)
    requires NonEmptyReplacements(merged)
    requires j < |nodes| && nodes[j].name in merged
    ensures merged[nodes[j].name][0] in Heads(nodes, merged)
    decreases |nodes|
  {
    var before := nodes[..|nodes| - 1];
    if j < |nodes| - 1 {
      assert before[j] == nodes[j];
      HeadsComplete(before, merged, j);
    }
  }

  /**
   * Each replacement is emitted once: a head that occurs once in its own replacement, in no
   * replacement with another head, and not as an untouched node, occurs exactly once in the output.
   */
  lemma EmittedHeadOnce(nodes: seq<Node>, merged: map<string, seq<Node>>, h: Node)
    requires NonEmptyReplacements(merged)
    requires exists j :: 0 <= j < |nodes| && nodes[j].name in merged && merged[nodes[j].name][0] == h
    requires forall name <- merged :: multiset(merged[name])[h] == if merged[name][0] == h then 1 else 0
    requires h in nodes ==> h.name in merged
    ensures multiset(Emitted(nodes, merged))[h] == 1
  {
    var j :| 0 <= j < |nodes| && nodes[j].name in merged && merged[nodes[j].name][0] == h;
    HeadsComplete(nodes, merged, j);
    EmittedHeadCount(nodes, merged, h);
  }

  lemma {:induction false} EmittedHeadCount(nodes: seq<Node>, merged: map<string, seq<Node>>, h: Node)
    requires NonEmptyReplacements(merged)
    requires forall name <- merged :: multiset(merged[name])[h] == if merged[name][0] == h then 1 else 0
    requires h in nodes ==> h.name in merged
    ensures multiset(Emitted(nodes, merged))[h] == if h in Heads(nodes, merged) then 1 else 0
    decreases |nodes|
  {
    if nodes != [] {
      var before := nodes[..|nodes| - 1];
      var last := nodes[|nodes| - 1];
      assert nodes == before + [last];
      assert h in before ==> h in nodes;
      EmittedHeadCount(before, merged, h);
    }
  }

  lemma {:induction false} EmittedPrefix(nodes: seq<Node>, merged: map<string, seq<Node>>, i: nat)
    requires NonEmptyReplacements(merged)
    requires i <= |nodes|
    ensures Emitted(nodes[..i], merged) <= Emitted(nodes, merged)
    decreases |nodes|
  {
    if i < |nodes| {
      var before := nodes[..|nodes| - 1];
      assert before[..i] == nodes[..i];
      EmittedPrefix(before, merged, i);
    } else {
      assert nodes[..i] == nodes;
    }
  }

  /** A replacement is emitted where the first of its members stood in the original order. */
  lemma EmittedAtFirstMember(nodes: seq<Node>, merged: map<string, seq<Node>>, i: nat)
    requires NonEmptyReplacements(merged)
    requires i < |nodes| && nodes[i].name in merged
    requires merged[nodes[i].name][0] !in Heads(nodes[..i], merged)
    ensures Emitted(nodes[..i], merged) + merged[nodes[i].name] <= Emitted(nodes, merged)
  {
    assert nodes[..i + 1][..i] == nodes[..i];
    EmittedPrefix(nodes, merged, i + 1);
  }
}
