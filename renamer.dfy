/**
 * OutputRenamer: renames node outputs through a name mapping and, for each renamed output,
 * the matching inputs of the producing node's children. The pass works on a copy of the
 * mapping and deletes each key once it has been used, so a key renames at most one output
 * slot; slots are visited node by node and left to right, and every step sees the renames
 * made before it.
 */
module Renaming {
  import opened Graphs

  /** One use of a mapping entry: the edge `from` is now called `to`. */
  datatype Rename = Rename(from: string, to: string)

  /** Every occurrence of `r.from` in `s` replaced by `r.to`. */
  function Replace(s: seq<string>, r: Rename): (t: seq<string>)
    ensures |t| == |s|
    ensures r.from != r.to ==> r.from !in t
    ensures forall x <- t :: x in s || x == r.to
  {
    seq(|s|, i requires 0 <= i < |s| => if s[i] == r.from then r.to else s[i])
  }

  /** The renames applied one after the other. */
  function ReplaceAll(s: seq<string>, renames: seq<Rename>): (t: seq<string>)
    ensures |t| == |s|
    decreases |renames|
  {
    if renames == [] then s
    else Replace(ReplaceAll(s, renames[..|renames| - 1]), renames[|renames| - 1])
  }

  /** Replacing a name a second time changes nothing. */
  lemma ReplaceIdempotent(s: seq<string>, r: Rename)
    ensures Replace(Replace(s, r), r) == Replace(s, r)
  {
  }

  lemma {:induction false} ReplaceAllAppend(s: seq<string>, a: seq<Rename>, b: seq<Rename>)
    ensures ReplaceAll(s, a + b) == ReplaceAll(ReplaceAll(s, a), b)
    decreases |b|
  {
    if b != [] {
      var last := b[|b| - 1];
      assert (a + b)[..|a + b| - 1] == a + b[..|b| - 1];
      assert (a + b)[|a + b| - 1] == last;
      ReplaceAllAppend(s, a, b[..|b| - 1]);
      calc {
        ReplaceAll(s, a + b);
        Replace(ReplaceAll(s, a + b[..|b| - 1]), last);
        Replace(ReplaceAll(ReplaceAll(s, a), b[..|b| - 1]), last);
        ReplaceAll(ReplaceAll(s, a), b);
      }
    } else {
      assert a + b == a;
    }
  }

  /**
   * When no rename's new name is another rename's old name and no old name is used twice, each
   * input that carried a renamed name ends up with that rename's new name, and the other
   * inputs keep theirs.
   */
  lemma {:induction false} ReplaceAllUnchained(s: seq<string>, renames: seq<Rename>, i: int, k: int)
    requires forall a, b :: 0 <= a < b < |renames| ==> renames[a].from != renames[b].from
    requires forall a, b :: 0 <= a < |renames| && 0 <= b < |renames| ==> renames[a].to != renames[b].from
    requires 0 <= i < |s|
    ensures 0 <= k < |renames| && s[i] == renames[k].from ==> ReplaceAll(s, renames)[i] == renames[k].to
    ensures (forall r <- renames :: r.from != s[i]) ==> ReplaceAll(s, renames)[i] == s[i]
    decreases |renames|
  {
    if renames != [] {
      var init := renames[..|renames| - 1];
      var last := renames[|renames| - 1];
      ReplaceAllUnchained(s, init, i, k);
      if 0 <= k < |renames| - 1 && s[i] == renames[k].from {
        assert ReplaceAll(s, init)[i] == renames[k].to;
        assert renames[k].to != last.from;
      } else if forall r <- renames :: r.from != s[i] {
        assert forall r <- init :: r.from != s[i];
      } else if k == |renames| - 1 && s[i] == last.from {
        assert forall r <- init :: r.from != s[i] by {
          forall a | 0 <= a < |init|
            ensures init[a].from != s[i]
          {
            assert init[a] == renames[a];
          }
        }
        ReplaceAllUnchained(s, init, i, -1);
      }
    }
  }

  /**
   * Renames chain within one node: with outputs [a, b] and the mapping {a: b, b: c}, the node
   * ends with outputs [b, c] while a child that read `a` ends up reading `c`, the new name of
   * the node's second output.
   */
  lemma ChainedRenames()
    ensures var v := RenameOutputs(["a", "b"], map["a" := "b", "b" := "c"]);
      v.outputs == ["b", "c"] && ReplaceAll(["a"], v.renames) == ["c"]
  {
    var m := map["a" := "b", "b" := "c"];
    var ab, bc := Rename("a", "b"), Rename("b", "c");
    assert ["a"][..0] == [] && ["a", "b"][..1] == ["a"];
    var first := RenameOutputs(["a"], m);
    assert first.outputs == ["b"] && first.renames == [ab] && first.rest == m - {"a"};
    assert "b" in first.rest && first.rest["b"] == "c";
    var v := RenameOutputs(["a", "b"], m);
    assert v.outputs == ["b", "c"] && v.renames == [ab, bc];
    assert [ab, bc][..1] == [ab] && [ab][..0] == [];
    assert ReplaceAll(["a"], []) == ["a"];
    var once := ReplaceAll(["a"], [ab]);
    assert once == Replace(["a"], ab);
    assert once[0] == "b";
    assert ReplaceAll(["a"], v.renames) == Replace(once, bc);
    assert Replace(once, bc)[0] == "c";
  }

  /** The outcome of visiting one node's output slots with what is left of the mapping. */
  datatype Visit = Visit(outputs: seq<string>, renames: seq<Rename>, rest: map<string, string>)

  /**
   * The slots from left to right: a slot whose name is still a key takes the key's new name,
   * records the rename and uses the key up.
   */
  function RenameOutputs(outs: seq<string>, m: map<string, string>): (v: Visit)
    ensures |v.outputs| == |outs|
    decreases |outs|
  {
    if outs == [] then Visit([], [], m)
    else
      var p := RenameOutputs(outs[..|outs| - 1], m);
      var o := outs[|outs| - 1];
      if o in p.rest then Visit(p.outputs + [p.rest[o]], p.renames + [Rename(o, p.rest[o])], p.rest - {o})
      else Visit(p.outputs + [o], p.renames, p.rest)
  }

  /** The keys a visit leaves are exactly the ones none of the node's slots carries. */
  lemma {:induction false} RenameOutputsRest(outs: seq<string>, m: map<string, string>)
    ensures RenameOutputs(outs, m).rest == (map k | k in m && k !in outs :: m[k])
    decreases |outs|
  {
    if outs != [] {
      RenameOutputsRest(outs[..|outs| - 1], m);
      assert outs == outs[..|outs| - 1] + [outs[|outs| - 1]];
    }
  }

  /**
   * One node's visit in closed form: a slot is renamed exactly when its name is a key that no
   * slot to its left carries, and then to the key's new name; every other slot keeps its name.
   */
  lemma {:induction false} RenameOutputsSlots(outs: seq<string>, m: map<string, string>)
    ensures var v := RenameOutputs(outs, m);
      forall i :: 0 <= i < |outs| ==>
        v.outputs[i] == if outs[i] in m && outs[i] !in outs[..i] then m[outs[i]] else outs[i]
    decreases |outs|
  {
    if outs != [] {
      var init, o := outs[..|outs| - 1], outs[|outs| - 1];
      RenameOutputsSlots(init, m);
      RenameOutputsRest(init, m);
      var p, v := RenameOutputs(init, m), RenameOutputs(outs, m);
      assert o in p.rest <==> o in m && o !in init;
      assert o in p.rest ==> p.rest[o] == m[o];
      forall i | 0 <= i < |outs|
        ensures v.outputs[i] == if outs[i] in m && outs[i] !in outs[..i] then m[outs[i]] else outs[i]
      {
        if i < |outs| - 1 {
          assert outs[..i] == init[..i];
          assert v.outputs[i] == p.outputs[i];
        } else {
          assert outs[..i] == init;
        }
      }
    }
  }

  /**
   * The renames a visit records: one per key some slot carries, to the key's own new name, and
   * never two for the same key.
   */
  lemma {:induction false} RenameOutputsRenames(outs: seq<string>, m: map<string, string>)
    ensures var v := RenameOutputs(outs, m);
      && (forall r <- v.renames :: r.from in m && r.from in outs && r.to == m[r.from])
      && (forall k :: k in m && k in outs ==> Rename(k, m[k]) in v.renames)
      && (forall a, b :: 0 <= a < b < |v.renames| ==> v.renames[a].from != v.renames[b].from)
    decreases |outs|
  {
    if outs != [] {
      var init := outs[..|outs| - 1];
      var o := outs[|outs| - 1];
      RenameOutputsRenames(init, m);
      RenameOutputsRest(init, m);
      var p := RenameOutputs(init, m);
      var v := RenameOutputs(outs, m);
      assert outs == init + [o];
      if o in p.rest {
        assert v.renames == p.renames + [Rename(o, m[o])];
        forall a, b | 0 <= a < b < |v.renames|
          ensures v.renames[a].from != v.renames[b].from
        {
          if b == |v.renames| - 1 {
            assert v.renames[a] in p.renames;
          } else {
            assert v.renames[a] == p.renames[a] && v.renames[b] == p.renames[b];
          }
        }
      }
    }
  }

  /** Keys that match no slot are no-ops: a node none of whose outputs is a key is left alone. */
  lemma RenameOutputsUnmatched(outs: seq<string>, m: map<string, string>)
    requires forall o <- outs :: o !in m
    ensures RenameOutputs(outs, m) == Visit(outs, [], m)
  {
    RenameOutputsSlots(outs, m);
    RenameOutputsRest(outs, m);
    RenameOutputsRenames(outs, m);
    var v := RenameOutputs(outs, m);
    assert v.outputs == outs;
    assert v.rest == m;
  }

  /** Visiting one more slot. */
  lemma RenameOutputsStep(outs: seq<string>, i: nat, m: map<string, string>)
    requires i < |outs|
    ensures var p := RenameOutputs(outs[..i], m);
      var o := outs[i];
      RenameOutputs(outs[..i + 1], m) ==
        if o in p.rest then Visit(p.outputs + [p.rest[o]], p.renames + [Rename(o, p.rest[o])], p.rest - {o})
        else Visit(p.outputs + [o], p.renames, p.rest)
  {
    assert outs[..i + 1][..i] == outs[..i];
  }

  /** Once the mapping is used up, the remaining slots are left as they are. */
  lemma {:induction false} RenameOutputsAfterEmpty(outs: seq<string>, m: map<string, string>, i: nat)
    requires i <= |outs|
    requires RenameOutputs(outs[..i], m).rest == map[]
    ensures var v := RenameOutputs(outs[..i], m);
      RenameOutputs(outs, m) == Visit(v.outputs + outs[i..], v.renames, map[])
    decreases |outs| - i
  {
    if i < |outs| {
      assert outs[..i + 1][..i] == outs[..i];
      RenameOutputsAfterEmpty(outs, m, i + 1);
      assert outs[i..] == [outs[i]] + outs[i + 1..];
    } else {
      assert outs[..i] == outs;
    }
  }

  /** A node's renames, tagged with the node whose outputs they renamed. */
  datatype Produced = Produced(producer: Node, renames: seq<Rename>)

  /** The state of the pass after some visits: outputs per node, the visits, the mapping left. */
  datatype PassState = PassState(outputs: map<Node, seq<string>>, visits: seq<Produced>, rest: map<string, string>)

  /** The pass over `nodes` in order, from the given outputs and mapping. */
  function Pass(nodes: seq<Node>, outputs: map<Node, seq<string>>, m: map<string, string>): (s: PassState)
    requires forall n <- nodes :: n in outputs
    ensures s.outputs.Keys == outputs.Keys
    ensures forall n <- outputs :: |s.outputs[n]| == |outputs[n]|
    ensures forall n <- outputs :: n !in nodes ==> s.outputs[n] == outputs[n]
    ensures |s.visits| == |nodes|
    decreases |nodes|
  {
    if nodes == [] then PassState(outputs, [], m)
    else
      var p := Pass(nodes[..|nodes| - 1], outputs, m);
      var n := nodes[|nodes| - 1];
      var v := RenameOutputs(p.outputs[n], p.rest);
      PassState(p.outputs[n := v.outputs], p.visits + [Produced(n, v.renames)], v.rest)
  }

  /**
   * The renames a node's inputs receive: those of the visits to nodes that list it as a child,
   * in order; `kids` gives each node's children, which the pass never changes.
   */
  function RenamesSeenBy(c: Node, visits: seq<Produced>, kids: map<Node, seq<Node>>): seq<Rename>
    decreases |visits|
  {
    if visits == [] then []
    else
      var v := visits[|visits| - 1];
      RenamesSeenBy(c, visits[..|visits| - 1], kids) +
        if v.producer in kids && c in kids[v.producer] then v.renames else []
  }

  /** Every rename of a pass, in order. */
  function AllRenames(visits: seq<Produced>): seq<Rename>
    decreases |visits|
  {
    if visits == [] then [] else AllRenames(visits[..|visits| - 1]) + visits[|visits| - 1].renames
  }

  /** The old names a list of renames uses. */
  function Froms(renames: seq<Rename>): set<string>
  {
    set r <- renames :: r.from
  }

  /** No old name is used twice. */
  predicate DistinctFroms(renames: seq<Rename>)
  {
    forall a, b :: 0 <= a < b < |renames| ==> renames[a].from != renames[b].from
  }

  lemma DistinctFromsAppend(before: seq<Rename>, after: seq<Rename>)
    requires DistinctFroms(before) && DistinctFroms(after)
    requires Froms(before) !! Froms(after)
    ensures DistinctFroms(before + after)
  {
    var all := before + after;
    forall a, b | 0 <= a < b < |all|
      ensures all[a].from != all[b].from
    {
      if a < |before| <= b {
        assert all[a].from in Froms(before);
        assert all[b] == after[b - |before|];
        assert all[b].from in Froms(after);
      } else if |before| <= a {
        assert all[a] == after[a - |before|] && all[b] == after[b - |before|];
      } else {
        assert all[a] == before[a] && all[b] == before[b];
      }
    }
  }

  /** The old names a visit uses are the keys its slots carry. */
  lemma {:induction false} RenameOutputsFroms(outs: seq<string>, m: map<string, string>)
    ensures Froms(RenameOutputs(outs, m).renames) == set k | k in m && k in outs
    decreases |outs|
  {
    if outs != [] {
      var init := outs[..|outs| - 1];
      RenameOutputsFroms(init, m);
      RenameOutputsRest(init, m);
      var p := RenameOutputs(init, m);
      var o := outs[|outs| - 1];
      assert outs == init + [o];
      if o in p.rest {
        assert Froms(p.renames + [Rename(o, p.rest[o])]) == Froms(p.renames) + {o};
      }
    }
  }

  /** The keys a pass leaves are the ones none of its renames used, with their entries unchanged. */
  lemma {:induction false} PassRest(nodes: seq<Node>, outputs: map<Node, seq<string>>, m: map<string, string>)
    requires forall n <- nodes :: n in outputs
    ensures var s := Pass(nodes, outputs, m);
      && s.rest.Keys == m.Keys - Froms(AllRenames(s.visits))
      && forall k <- s.rest :: s.rest[k] == m[k]
    decreases |nodes|
  {
    if nodes != [] {
      var init := nodes[..|nodes| - 1];
      PassRest(init, outputs, m);
      var p := Pass(init, outputs, m);
      var n := nodes[|nodes| - 1];
      var v := RenameOutputs(p.outputs[n], p.rest);
      RenameOutputsFroms(p.outputs[n], p.rest);
      RenameOutputsRest(p.outputs[n], p.rest);
      var s := Pass(nodes, outputs, m);
      assert s.visits[..|s.visits| - 1] == p.visits;
      assert AllRenames(s.visits) == AllRenames(p.visits) + v.renames;
      assert Froms(AllRenames(s.visits)) == Froms(AllRenames(p.visits)) + Froms(v.renames);
    }
  }

  /**
   * Over the whole pass each key renames at most one output slot, always to its own new name,
   * and the keys left at the end are exactly the ones never used.
   */
  lemma {:induction false} PassRenamesOnce(nodes: seq<Node>, outputs: map<Node, seq<string>>, m: map<string, string>)
    requires forall n <- nodes :: n in outputs
    ensures var s := Pass(nodes, outputs, m);
      var all := AllRenames(s.visits);
      && (forall r <- all :: r.from in m && r.to == m[r.from])
      && DistinctFroms(all)
      && s.rest.Keys == m.Keys - Froms(all)
      && forall k <- s.rest :: s.rest[k] == m[k]
    decreases |nodes|
  {
    PassRest(nodes, outputs, m);
    if nodes != [] {
      var init := nodes[..|nodes| - 1];
      PassRenamesOnce(init, outputs, m);
      var p := Pass(init, outputs, m);
      var n := nodes[|nodes| - 1];
      var v := RenameOutputs(p.outputs[n], p.rest);
      RenameOutputsRenames(p.outputs[n], p.rest);
      var s := Pass(nodes, outputs, m);
      assert s.visits[..|s.visits| - 1] == p.visits;
      assert AllRenames(s.visits) == AllRenames(p.visits) + v.renames;
      DistinctFromsAppend(AllRenames(p.visits), v.renames);
    }
  }

  /** Every output list of the given nodes, one after another, as they stood before the pass. */
  function Flat(nodes: seq<Node>, outputs: map<Node, seq<string>>): seq<string>
    requires forall n <- nodes :: n in outputs
    decreases |nodes|
  {
    if nodes == [] then [] else Flat(nodes[..|nodes| - 1], outputs) + outputs[nodes[|nodes| - 1]]
  }

  /** When no node is listed twice, the keys left at the end are the ones no output carried. */
  lemma {:induction false} PassDistinctRest(nodes: seq<Node>, outputs: map<Node, seq<string>>, m: map<string, string>)
    requires forall n <- nodes :: n in outputs
    requires forall a, b :: 0 <= a < b < |nodes| ==> nodes[a] != nodes[b]
    ensures Pass(nodes, outputs, m).rest == (map k | k in m && k !in Flat(nodes, outputs) :: m[k])
    decreases |nodes|
  {
    if nodes != [] {
      var init := nodes[..|nodes| - 1];
      var n := nodes[|nodes| - 1];
      PassDistinctRest(init, outputs, m);
      var p := Pass(init, outputs, m);
      assert n !in init;
      RenameOutputsRest(outputs[n], p.rest);
    }
  }

  /**
   * The name the first-occurrence rule gives the `j`-th output slot of `nodes[i]`: the key's new
   * name when the slot carries a key that no slot before it carries, counting the slots of the
   * nodes before `nodes[i]` and the slots to its left; its own name otherwise.
   */
  function FirstOccurrenceName(nodes: seq<Node>, outputs: map<Node, seq<string>>, m: map<string, string>,
                               i: nat, j: nat): string
    requires forall n <- nodes :: n in outputs
    requires i < |nodes| && j < |outputs[nodes[i]]|
  {
    var o := outputs[nodes[i]][j];
    if o in m && o !in Flat(nodes[..i], outputs) + outputs[nodes[i]][..j] then m[o] else o
  }

  /** A slot's name under the rule depends only on the nodes up to its own. */
  lemma FirstOccurrenceNamePrefix(nodes: seq<Node>, outputs: map<Node, seq<string>>, m: map<string, string>,
                                   i: nat, j: nat)
    requires forall n <- nodes :: n in outputs
    requires i < |nodes| && j < |outputs[nodes[i]]|
    ensures i < |nodes| - 1 ==>
      FirstOccurrenceName(nodes, outputs, m, i, j) == FirstOccurrenceName(nodes[..|nodes| - 1], outputs, m, i, j)
    ensures i == |nodes| - 1 ==>
      var o := outputs[nodes[i]][j];
      var rest := map k | k in m && k !in Flat(nodes[..i], outputs) :: m[k];
      FirstOccurrenceName(nodes, outputs, m, i, j) == if o in rest && o !in outputs[nodes[i]][..j] then rest[o] else o
  {
    if i < |nodes| - 1 {
      assert nodes[..|nodes| - 1][..i] == nodes[..i];
    }
  }

  /**
   * When no node is listed twice, the pass renames each output slot by the first-occurrence
   * rule: every key is used at its first occurrence in visiting order, and nowhere else.
   */
  lemma {:induction false} PassFirstOccurrence(nodes: seq<Node>, outputs: map<Node, seq<string>>, m: map<string, string>)
    requires forall n <- nodes :: n in outputs
    requires forall a, b :: 0 <= a < b < |nodes| ==> nodes[a] != nodes[b]
    ensures var s := Pass(nodes, outputs, m);
      forall i, j :: 0 <= i < |nodes| && 0 <= j < |outputs[nodes[i]]| ==>
        s.outputs[nodes[i]][j] == FirstOccurrenceName(nodes, outputs, m, i, j)
    decreases |nodes|
  {
    if nodes != [] {
      var init := nodes[..|nodes| - 1];
      PassFirstOccurrence(init, outputs, m);
      forall i, j | 0 <= i < |nodes| && 0 <= j < |outputs[nodes[i]]|
        ensures Pass(nodes, outputs, m).outputs[nodes[i]][j] == FirstOccurrenceName(nodes, outputs, m, i, j)
      {
        if i < |nodes| - 1 {
          FirstOccurrenceEarlier(nodes, outputs, m, i, j);
        } else {
          FirstOccurrenceLast(nodes, outputs, m, j);
        }
      }
    }
  }

  /** The step of PassFirstOccurrence for a slot of a node visited before the last one. */
  lemma FirstOccurrenceEarlier(nodes: seq<Node>, outputs: map<Node, seq<string>>, m: map<string, string>, i: nat, j: nat)
    requires forall n <- nodes :: n in outputs
    requires forall a, b :: 0 <= a < b < |nodes| ==> nodes[a] != nodes[b]
    requires i < |nodes| - 1 && j < |outputs[nodes[i]]|
    requires var init := nodes[..|nodes| - 1];
      Pass(init, outputs, m).outputs[init[i]][j] == FirstOccurrenceName(init, outputs, m, i, j)
    ensures Pass(nodes, outputs, m).outputs[nodes[i]][j] == FirstOccurrenceName(nodes, outputs, m, i, j)
  {
    FirstOccurrenceNamePrefix(nodes, outputs, m, i, j);
    assert nodes[i] != nodes[|nodes| - 1];
  }

  /** The step of PassFirstOccurrence for a slot of the last node visited. */
  lemma FirstOccurrenceLast(nodes: seq<Node>, outputs: map<Node, seq<string>>, m: map<string, string>, j: nat)
    requires forall n <- nodes :: n in outputs
    requires forall a, b :: 0 <= a < b < |nodes| ==> nodes[a] != nodes[b]
    requires nodes != [] && j < |outputs[nodes[|nodes| - 1]]|
    ensures var i := |nodes| - 1;
      Pass(nodes, outputs, m).outputs[nodes[i]][j] == FirstOccurrenceName(nodes, outputs, m, i, j)
  {
    var init := nodes[..|nodes| - 1];
    var n := nodes[|nodes| - 1];
    PassDistinctRest(init, outputs, m);
    var p := Pass(init, outputs, m);
    assert n !in init;
    RenameOutputsSlots(outputs[n], p.rest);
    FirstOccurrenceNamePrefix(nodes, outputs, m, |nodes| - 1, j);
  }

  /** The outputs of the given nodes as a map, the form the pass works on. */
  function OutputsOf(nodes: seq<Node>): (outputs: map<Node, seq<string>>)
    reads nodes`outputs
    ensures forall n <- nodes :: n in outputs && outputs[n] == n.outputs
  {
    map n <- nodes :: n.outputs
  }

  /** The children of the given nodes as a map. */
  function ChildrenOf(nodes: seq<Node>): (kids: map<Node, seq<Node>>)
    reads nodes`children
    ensures forall n <- nodes :: n in kids && kids[n] == n.children
  {
    map n <- nodes :: n.children
  }

  /** Every node some node of `kids` lists as a child: the nodes whose inputs the pass may rename. */
  function Consumers(kids: map<Node, seq<Node>>): (cs: set<Node>)
    ensures forall n <- kids.Keys, c <- kids[n] :: c in cs
  {
    set n, c | n in kids && c in kids[n] :: c
  }

  /** The innermost loop: every input of `child` equal to `r.from` becomes `r.to`. */
  method ReplaceInputs(child: Node, r: Rename)
    modifies child`inputs
    ensures child.inputs == Replace(old(child.inputs), r)
  {
    ghost var before := child.inputs;
    for j := 0 to |child.inputs|
      invariant |child.inputs| == |before|
      invariant forall k :: 0 <= k < |before| ==>
        child.inputs[k] == if k < j && before[k] == r.from then r.to else before[k]
    {
      if child.inputs[j] != r.from {
        continue;
      }
      child.inputs := child.inputs[j := r.to];
    }
    assert forall k :: 0 <= k < |before| ==> child.inputs[k] == Replace(before, r)[k];
  }

  /** The loop over the children: each child of `node` gets `r` applied to its inputs. */
  method RenameChildInputs(node: Node, r: Rename)
    modifies node.children`inputs
    ensures forall c <- node.children :: c.inputs == Replace(old(c.inputs), r)
  {
    for k := 0 to |node.children|
      invariant forall c <- node.children ::
        c.inputs == if c in node.children[..k] then Replace(old(c.inputs), r) else old(c.inputs)
    {
      var child := node.children[k];
      ReplaceIdempotent(old(child.inputs), r);
      ReplaceInputs(child, r);
      assert node.children[..k + 1] == node.children[..k] + [child];
    }
    assert node.children[..|node.children|] == node.children;
  }

  /** One renamed slot: the output at `i` takes its new name and the children's inputs follow. */
  method RenameSlot(node: Node, i: nat, r: Rename)
    requires i < |node.outputs|
    modifies node`outputs, node.children`inputs
    ensures node.outputs == old(node.outputs)[i := r.to]
    ensures forall c <- node.children :: c.inputs == Replace(old(c.inputs), r)
  {
    node.outputs := node.outputs[i := r.to];
    RenameChildInputs(node, r);
  }

  /**
   * The loop over one node's output slots: renames the slots whose name is still a key, passes
   * each rename on to the children's inputs and uses the key up; stops once the mapping is empty.
   */
  method RenameNode(node: Node, mapping: map<string, string>) returns (rest: map<string, string>)
    modifies node`outputs, node.children`inputs
    ensures var v := RenameOutputs(old(node.outputs), mapping);
      && node.outputs == v.outputs
      && rest == v.rest
      && forall c <- node.children :: c.inputs == ReplaceAll(old(c.inputs), v.renames)
  {
    rest := mapping;
    ghost var outs := node.outputs;
    ghost var start := map c <- node.children :: c.inputs;
    ghost var done: seq<string> := [];
    ghost var renames: seq<Rename> := [];
    assert outs[..|outs|] == outs;
    for i := 0 to |node.outputs|
      invariant RenameOutputs(outs[..i], mapping) == Visit(done, renames, rest)
      invariant node.outputs == done + outs[i..]
      invariant forall c <- node.children :: c.inputs == ReplaceAll(start[c], renames)
    {
      rest, done, renames := RenameStep(node, i, rest, outs, mapping, done, renames, start);
      if |rest| == 0 {
        assert rest == map[];
        RenameOutputsAfterEmpty(outs, mapping, i + 1);
        break;
      }
    }
  }

  /**
   * One turn of the loop over a node's output slots: when slot `i` carries a key that is left,
   * the slot takes the new name, the children's inputs follow and the key is used up.
   */
  method RenameStep(node: Node, i: nat, rest: map<string, string>, ghost outs: seq<string>,
                    ghost mapping: map<string, string>, ghost done: seq<string>, ghost renames: seq<Rename>,
                    ghost start: map<Node, seq<string>>)
    returns (rest': map<string, string>, ghost done': seq<string>, ghost renames': seq<Rename>)
    requires i < |outs|
    requires RenameOutputs(outs[..i], mapping) == Visit(done, renames, rest)
    requires node.outputs == done + outs[i..]
    requires forall c <- node.children :: c in start && c.inputs == ReplaceAll(start[c], renames)
    modifies node`outputs, node.children`inputs
    ensures RenameOutputs(outs[..i + 1], mapping) == Visit(done', renames', rest')
    ensures node.outputs == done' + outs[i + 1..]
    ensures forall c <- node.children :: c.inputs == ReplaceAll(start[c], renames')
  {
    RenameOutputsStep(outs, i, mapping);
    assert outs[i..] == [outs[i]] + outs[i + 1..];
    var output := node.outputs[i];
    if output !in rest {
      return rest, done + [output], renames;
    }
    var r := Rename(output, rest[output]);
    RenameSlot(node, i, r);
    assert node.outputs == (done + [r.to]) + outs[i + 1..];
    assert (renames + [r])[..|renames|] == renames;
    return rest - {output}, done + [r.to], renames + [r];
  }

  /** One visit's renames reach exactly the consumers the visited node lists as children. */
  lemma ConsumersAfterVisit(consumers: set<Node>, kids: map<Node, seq<Node>>, node: Node,
                            visits: seq<Produced>, renames: seq<Rename>,
                            original: map<Node, seq<string>>, before: map<Node, seq<string>>,
                            after: map<Node, seq<string>>)
    requires forall c <- consumers :: c in original && c in before && c in after
    requires forall c <- consumers :: before[c] == ReplaceAll(original[c], RenamesSeenBy(c, visits, kids))
    requires forall c <- consumers ::
      after[c] == if node in kids && c in kids[node] then ReplaceAll(before[c], renames) else before[c]
    ensures forall c <- consumers ::
      after[c] == ReplaceAll(original[c], RenamesSeenBy(c, visits + [Produced(node, renames)], kids))
  {
    var visits' := visits + [Produced(node, renames)];
    assert visits'[..|visits'| - 1] == visits;
    forall c <- consumers
      ensures after[c] == ReplaceAll(original[c], RenamesSeenBy(c, visits', kids))
    {
      var seen := RenamesSeenBy(c, visits, kids);
      if node in kids && c in kids[node] {
        assert RenamesSeenBy(c, visits', kids) == seen + renames;
        ReplaceAllAppend(original[c], seen, renames);
      } else {
        assert RenamesSeenBy(c, visits', kids) == seen + [] == seen;
      }
    }
  }

  /** The pass over one more node is one more visit. */
  lemma PassStep(nodes: seq<Node>, i: nat, outputs: map<Node, seq<string>>, m: map<string, string>)
    requires i < |nodes|
    requires forall n <- nodes :: n in outputs
    ensures var p := Pass(nodes[..i], outputs, m);
      var v := RenameOutputs(p.outputs[nodes[i]], p.rest);
      Pass(nodes[..i + 1], outputs, m) ==
        PassState(p.outputs[nodes[i] := v.outputs], p.visits + [Produced(nodes[i], v.renames)], v.rest)
  {
    assert nodes[..i + 1][..i] == nodes[..i];
  }

  /** One turn of the loop over the nodes, stated against the pass: `node`'s visit and its effect. */
  method VisitNode(node: Node, m: map<string, string>, ghost s: PassState, ghost nodes: seq<Node>,
                   ghost kids: map<Node, seq<Node>>, ghost consumers: set<Node>,
                   ghost original: map<Node, seq<string>>)
    returns (rest: map<string, string>, ghost s': PassState)
    requires node in nodes && node in s.outputs
    requires node in kids && kids[node] == node.children
    requires forall c <- node.children :: c in consumers
    requires forall c <- consumers :: c in original
    requires m == s.rest
    requires forall n <- nodes :: n in s.outputs && n.outputs == s.outputs[n]
    requires forall c <- consumers :: c.inputs == ReplaceAll(original[c], RenamesSeenBy(c, s.visits, kids))
    modifies node`outputs, consumers`inputs
    ensures var v := RenameOutputs(s.outputs[node], s.rest);
      s' == PassState(s.outputs[node := v.outputs], s.visits + [Produced(node, v.renames)], v.rest)
    ensures rest == s'.rest
    ensures forall n <- nodes :: n.outputs == s'.outputs[n] && n.children == old(n.children)
    ensures forall c <- consumers :: c.inputs == ReplaceAll(original[c], RenamesSeenBy(c, s'.visits, kids))
  {
    ghost var v := RenameOutputs(s.outputs[node], s.rest);
    ghost var inputsBefore := map c <- consumers :: c.inputs;
    rest := RenameNode(node, m);
    ghost var inputsAfter := map c <- consumers :: c.inputs;
    s' := PassState(s.outputs[node := v.outputs], s.visits + [Produced(node, v.renames)], v.rest);
    ConsumersAfterVisit(consumers, kids, node, s.visits, v.renames, original, inputsBefore, inputsAfter);
  }

  class OutputRenamer {
    const mapping: map<string, string>

    constructor (mapping: map<string, string>)
      ensures this.mapping == mapping
    {
      this.mapping := mapping;
    }

    /**
     * OutputRenamer.__call__: every node's outputs are what the pass over the node list makes of
     * them, and every input of a child of a graph node has gone through the renames of the
     * visits to the nodes listing it as a child, in order. Only `outputs` and `inputs` lists
     * change; `mapping` is const, so the pass cannot consume it.
     */
    method Call(graph: Graph) returns (r: Graph)
      modifies graph.nodes`outputs, Consumers(ChildrenOf(graph.nodes))`inputs
      ensures r == graph
      ensures var kids := old(ChildrenOf(graph.nodes));
        var s := Pass(graph.nodes, old(OutputsOf(graph.nodes)), mapping);
        && (forall n <- graph.nodes :: n.outputs == s.outputs[n])
        && (forall c <- Consumers(kids) :: c.inputs == ReplaceAll(old(c.inputs), RenamesSeenBy(c, s.visits, kids)))
    {
      var m := mapping;
      var nodes := graph.nodes;
      ghost var before := OutputsOf(nodes);
      ghost var kids := ChildrenOf(nodes);
      ghost var consumers := Consumers(kids);
      ghost var original := map c <- consumers :: c.inputs;
      ghost var state := Pass([], before, mapping);
      assert consumers == old(Consumers(ChildrenOf(graph.nodes)));
      for i := 0 to |nodes|
        invariant consumers == old(Consumers(ChildrenOf(graph.nodes)))
        invariant forall n <- nodes :: n.children == kids[n]
        invariant state == Pass(nodes[..i], before, mapping)
        invariant m == state.rest
        invariant forall n <- nodes :: n.outputs == state.outputs[n]
        invariant forall c <- consumers :: c.inputs == ReplaceAll(original[c], RenamesSeenBy(c, state.visits, kids))
      {
        var node := nodes[i];
        PassStep(nodes, i, before, mapping);
        assert node in kids && kids[node] == node.children;
        assert forall c <- node.children :: c in consumers;
        m, state := VisitNode(node, m, state, nodes, kids, consumers, original);
      }
      assert nodes[..|nodes|] == nodes;
      r := graph;
    }
  }
}
