/**
 * NodesFuser and its five rules: the pass that walks the node list, asks the rule whether each
 * linear window is eligible, merges it in place, rewires the window's boundary and finally
 * re-emits the node list with each replacement in place of its window.
 */
module Fusers {
  import opened Faults
  import opened Graphs
  import opened Sequences
  import opened Windows
  import opened Rules
  import opened Merges

  /** Decimal digits of `n`, as Python's `str(n)`. */
  function NatToString(n: nat): (s: string)
    ensures |s| >= 1 && forall i :: 0 <= i < |s| ==> '0' <= s[i] <= '9'
    decreases n
  {
    var digit := ('0' as int + n % 10) as char;
    if n < 10 then [digit] else NatToString(n / 10) + [digit]
  }

  /** `name + '_' + str(k)`. */
  function NumberedName(name: string, k: nat): string
  {
    name + "_" + NatToString(k)
  }

  /** The fields of each window node. */
  function Views(window: seq<Node>): (v: seq<NodeView>)
    reads window
    ensures |v| == |window| && forall i :: 0 <= i < |window| ==> v[i] == window[i].View()
  {
    seq(|window|, i reads window requires 0 <= i < |window| => window[i].View())
  }

  /** A strict chain that ends inside a closed set of nodes lies wholly inside it. */
  lemma {:induction false} ChainInside(w: seq<Node>, R: set<Node>)
    requires Closed(R) && StrictChain(w) && w != [] && w[|w| - 1] in R
    ensures forall x <- w :: x in R
    decreases |w|
  {
    if |w| > 1 {
      var rest := w[1..];
      assert StrictChain(rest) by {
        forall i | 0 <= i < |rest| - 1
          ensures rest[i + 1].parents == [rest[i]] && |rest[i].children| == 1
        {
          assert rest[i + 1] == w[i + 2] && rest[i] == w[i + 1];
        }
      }
      ChainInside(rest, R);
      assert w[1] in R && w[1].parents == [w[0]];
      assert w[0] in w[1].parents;
      assert w == [w[0]] + rest;
    }
  }

  /** The three reshapes of the pixel shuffle and the two 4-d reshapes replacing it all hold C * s * s * H * W elements. */
  lemma PixelShuffleElementCount(c: int, s: int, h: int, w: int, b: int)
    ensures Tensors.Product([1, c, s, s, h, w]) == c * s * s * h * w
    ensures Tensors.Product([c, s * s, h, w]) == c * s * s * h * w
    ensures Tensors.Product([c * h, s, s, w]) == c * s * s * h * w
    ensures Tensors.Product([b, c, h * s, w * s]) == b * (c * s * s * h * w)
  {
    SixDimensionCount(c, s, h, w);
    GroupedCount(c, s, h, w);
    RowsCount(c, s, h, w);
    ShuffledCount(c, s, h, w, b);
  }

  lemma ProductOfFour(a: int, b: int, c: int, d: int)
    ensures Tensors.Product([a, b, c, d]) == a * (b * (c * d))
  {
    assert Tensors.Product([d]) == d;
    assert Tensors.Product([c, d]) == c * d;
    assert Tensors.Product([b, c, d]) == b * (c * d);
  }

  /** c * ((s * s) * h) * w, regrouped as the element count is written. */
  lemma RegroupCount(c: int, s: int, h: int, w: int)
    ensures c * (((s * s) * h) * w) == c * s * s * h * w
  {
  }

  lemma SixDimensionCount(c: int, s: int, h: int, w: int)
    ensures Tensors.Product([1, c, s, s, h, w]) == c * s * s * h * w
  {
    ProductOfFour(s, s, h, w);
    assert Tensors.Product([1, c, s, s, h, w]) == 1 * (c * Tensors.Product([s, s, h, w]));
    assert s * (h * w) == (s * h) * w;
    assert s * ((s * h) * w) == (s * (s * h)) * w;
    assert s * (s * h) == (s * s) * h;
    RegroupCount(c, s, h, w);
  }

  lemma GroupedCount(c: int, s: int, h: int, w: int)
    ensures Tensors.Product([c, s * s, h, w]) == c * s * s * h * w
  {
    ProductOfFour(c, s * s, h, w);
    assert (s * s) * (h * w) == ((s * s) * h) * w;
    RegroupCount(c, s, h, w);
  }

  lemma RowsCount(c: int, s: int, h: int, w: int)
    ensures Tensors.Product([c * h, s, s, w]) == c * s * s * h * w
  {
    ProductOfFour(c * h, s, s, w);
    assert s * (s * w) == (s * s) * w;
    assert (c * h) * ((s * s) * w) == ((c * h) * (s * s)) * w;
    assert c * (h * (s * s)) == (c * h) * (s * s);
    assert h * (s * s) == (s * s) * h;
    RegroupCount(c, s, h, w);
    assert c * (((s * s) * h) * w) == (c * ((s * s) * h)) * w;
  }

  lemma ShuffledCount(c: int, s: int, h: int, w: int, b: int)
    ensures Tensors.Product([b, c, h * s, w * s]) == b * (c * s * s * h * w)
  {
    ProductOfFour(b, c, h * s, w * s);
    assert h * s == s * h;
    assert w * s == s * w;
    assert s * (h * (s * w)) == (s * h) * (s * w);
    assert h * (s * w) == (h * s) * w;
    assert s * (h * w) == (s * h) * w;
    assert s * (s * (h * w)) == (s * s) * (h * w);
    GroupedCount(c, s, h, w);
    ProductOfFour(c, s * s, h, w);
  }

  /**
   * The first steps of the pixel-shuffle merge: the Transpose loses its children, the first
   * Reshape's shape becomes [C, s*s, H, W] and the Transpose's perm [0, 2, 1, 3], for the C, s,
   * H, W of the old shape [1, C, s, s, H, W].
   */
  method RetargetFirstPair(reshape1: Node, transpose1: Node, ghost R: set<Node>) returns (c: int, s: int, h: int, w: int)
    requires Closed(R) && reshape1 in R && transpose1 in R && reshape1 != transpose1
    requires "shape" in reshape1.attrs && reshape1.attrs["shape"].IntsAttr? && |reshape1.attrs["shape"].ints| == 6
    modifies reshape1, transpose1
    ensures Closed(R)
    ensures var shape := old(reshape1.attrs["shape"].ints); c == shape[1] && s == shape[2] && h == shape[4] && w == shape[5]
    ensures reshape1.View() == old(reshape1.View()).(attrs := old(reshape1.attrs)["shape" := IntsAttr([c, s * s, h, w])])
    ensures reshape1.parents == old(reshape1.parents) && reshape1.children == old(reshape1.children)
    ensures transpose1.View() == old(transpose1.View()).(attrs := old(transpose1.attrs)["perm" := IntsAttr([0, 2, 1, 3])])
    ensures transpose1.parents == old(transpose1.parents) && transpose1.children == []
  {
    transpose1.children := [];
    var shape := reshape1.attrs["shape"].ints;
    c, s, h, w := shape[1], shape[2], shape[4], shape[5];
    reshape1.attrs := reshape1.attrs["shape" := IntsAttr([c, s * s, h, w])];
    transpose1.attrs := transpose1.attrs["perm" := IntsAttr([0, 2, 1, 3])];
  }

  /**
   * A step of the pixel-shuffle merge: a new node that reads `above`'s outputs and writes the
   * single edge `output`, linked as `above`'s only child.
   */
  method NewBelow(above: Node, name: string, opType: string, attrs: map<string, Attr>, output: string, ghost R: set<Node>)
    returns (n: Node)
    requires Closed(R) && above in R && above.children == []
    modifies above
    ensures fresh(n) && Closed(R + {n})
    ensures n.name == name && n.opType == opType && n.attrs == attrs
    ensures n.inputs == above.outputs && n.outputs == [output] && n.inputTensors == map[]
    ensures n.parents == [above] && n.children == [] && above.children == [n]
    ensures above.View() == old(above.View()) && above.parents == old(above.parents)
  {
    n := new Node(name, opType, attrs, above.outputs, [output]);
    above.AddChild(n, R + {n});
  }

  /** The last step of the pixel-shuffle merge: the final Reshape reads the new Transpose's output and hangs below it alone. */
  method AttachFinal(transpose2: Node, final: Node, ghost R: set<Node>)
    requires Closed(R) && transpose2 in R && final in R && transpose2 != final
    requires transpose2.children == []
    modifies transpose2, final
    ensures Closed(R)
    ensures final.inputs == transpose2.outputs && final.parents == [transpose2] && transpose2.children == [final]
    ensures final.outputs == old(final.outputs) && final.attrs == old(final.attrs)
    ensures final.inputTensors == old(final.inputTensors) && final.children == old(final.children)
    ensures transpose2.View() == old(transpose2.View()) && transpose2.parents == old(transpose2.parents)
  {
    final.inputs := transpose2.outputs;
    final.parents := [];
    transpose2.AddChild(final, R);
  }

  /** One turn of the boundary rewiring on a link list: `list.remove(x)`, then `y` appended unless present. */
  function Relink(t: seq<Node>, x: Node, y: Node): seq<Node>
    requires x in t
  {
    var u := RemoveFirst(t, x);
    if y in u then u else u + [y]
  }

  /**
   * `k` turns of the boundary rewiring on one link list `s`: each turn removes the first `x`,
   * a ValueError when none is left, then appends `y` unless it is already there.
   */
  function Relinked(s: seq<Node>, x: Node, y: Node, k: nat): Result<seq<Node>>
    decreases k
  {
    if k == 0 then Ok(s)
    else
      match Relinked(s, x, y, k - 1)
      case Fail(e) => Fail(e)
      case Ok(t) => if x !in t then Fail(ValueError) else Ok(Relink(t, x, y))
  }

  /**
   * The rewiring of one list succeeds exactly when every turn finds an `x`: when `y` is another
   * node, `s` needs `k` copies of `x`; when `y` is `x` itself, one copy is put back each turn.
   * Afterwards `y` is in the list and `x` has lost `k` copies.
   */
  lemma {:induction false} RelinkedOutcome(s: seq<Node>, x: Node, y: Node, k: nat)
    ensures Relinked(s, x, y, k).Ok? <==> k == 0 || (if x == y then x in s else k <= Occurrences(s, x))
    ensures Relinked(s, x, y, k).Ok? && k > 0 ==> y in Relinked(s, x, y, k).value
    ensures Relinked(s, x, y, k).Ok? && x != y ==> Occurrences(Relinked(s, x, y, k).value, x) == Occurrences(s, x) - k
    decreases k
  {
    if k > 0 {
      RelinkedOutcome(s, x, y, k - 1);
      var prev := Relinked(s, x, y, k - 1);
      if prev.Ok? {
        var t := prev.value;
        OccurrencesPositive(t, x);
        OccurrencesPositive(s, x);
        if x in t {
          var u := RemoveFirst(t, x);
          RemoveFirstOccurrences(t, x);
          if y !in u {
            OccurrencesSnoc(u, y, x);
          }
        }
      }
    }
  }

  /** A rewiring that has raised stays raised for more turns. */
  lemma {:induction false} RelinkedFailsLater(s: seq<Node>, x: Node, y: Node, k: nat, k': nat)
    requires Relinked(s, x, y, k).Fail? && k <= k'
    ensures Relinked(s, x, y, k').Fail?
    decreases k' - k
  {
    if k < k' {
      RelinkedFailsLater(s, x, y, k, k' - 1);
    }
  }

  /** `before` is a prefix of `after`, and what `after` adds is drawn from `from`. */
  predicate Grown(before: seq<Node>, after: seq<Node>, from: seq<Node>)
  {
    |before| <= |after| && after[..|before|] == before && forall j :: |before| <= j < |after| ==> after[j] in from
  }

  /** Links a walk reached stay reached when only `tail`'s list grows afterwards. */
  lemma StillReached(C1: map<Node, seq<Node>>, C: map<Node, seq<Node>>, ps: seq<Node>, head: Node, tail: Node, extra: seq<Node>)
    requires forall p <- ps :: p in C1 && head in C1[p]
    requires Untouched(C1, [tail], C) && tail in C1 && Grown(C1[tail], C[tail], extra)
    ensures forall p <- ps :: p in C && head in C[p]
  {
  }

  /** `C` and `P` hold the children and the parents of every node of `R`. */
  ghost predicate Linked(R: set<Node>, C: map<Node, seq<Node>>, P: map<Node, seq<Node>>)
    reads R
  {
    C.Keys == R && P.Keys == R && forall n <- R :: n.children == C[n] && n.parents == P[n]
  }

  /** Lists that agree with the nodes of `R` are the lists of `R`. */
  lemma LinkedLists(R: set<Node>, C: map<Node, seq<Node>>, P: map<Node, seq<Node>>)
    requires Linked(R, C, P)
    ensures ChildLists(R) == C && ParentLists(R) == P
  {
  }

  lemma GrownTrans(a: seq<Node>, b: seq<Node>, c: seq<Node>, from: seq<Node>, x: Node)
    requires Grown(a, b, from) && Grown(b, c, [x]) && x in from
    ensures Grown(a, c, from)
  {
  }

  /**
   * The link lists `L0` after the turns of the nodes in `ps` (a node listed k times in `ps`
   * has had k turns) stand as `L`.
   */
  predicate Walked(L0: map<Node, seq<Node>>, ps: seq<Node>, x: Node, y: Node, L: map<Node, seq<Node>>)
  {
    L.Keys == L0.Keys && forall n <- L0 :: Relinked(L0[n], x, y, Occurrences(ps, n)) == Ok(L[n])
  }

  /** Every node of `ps` can take all its turns without a raise. */
  predicate Walkable(L0: map<Node, seq<Node>>, ps: seq<Node>, x: Node, y: Node)
  {
    forall p <- ps :: p in L0 && Relinked(L0[p], x, y, Occurrences(ps, p)).Ok?
  }

  /** Only the lists of nodes in `ps` may differ between `L0` and `L`. */
  predicate Untouched(L0: map<Node, seq<Node>>, ps: seq<Node>, L: map<Node, seq<Node>>)
  {
    L.Keys == L0.Keys && forall n <- L0 :: n !in ps ==> L[n] == L0[n]
  }

  /**
   * The frame of one walk of the rewiring, as link lists: the walk goes over `x`'s list in `M0`,
   * only the lists in `L0` of the nodes it visits may change, and on the other side only `y`'s
   * list, which may only grow by nodes the walk visits.
   */
  predicate Traded(L0: map<Node, seq<Node>>, M0: map<Node, seq<Node>>, x: Node, y: Node,
                   L: map<Node, seq<Node>>, M: map<Node, seq<Node>>)
  {
    && x in M0 && y in M0 && y in M
    && Untouched(L0, M0[x], L) && Untouched(M0, [y], M) && Grown(M0[y], M[y], M0[x])
  }

  /**
   * One turn of a walk over `ps`, as link lists: the lists `L` holding `x` are walked, the lists
   * `M` on the other side are where `y` gains its new neighbours. The turn at `ps[i]` relinks its
   * list when it holds `x` and changes nothing otherwise; `y`'s list may only grow by `ps[i]`.
   */
  lemma TurnStep(L0: map<Node, seq<Node>>, M0: map<Node, seq<Node>>, ps: seq<Node>, i: nat, x: Node, y: Node,
                 L: map<Node, seq<Node>>, M: map<Node, seq<Node>>, L': map<Node, seq<Node>>, M': map<Node, seq<Node>>)
    requires i < |ps| && ps[i] in L0 && ps[i] in L && x in M && y in M0
    requires Walked(L0, ps[..i], x, y, L) && Untouched(M0, [y], M) && Grown(M0[y], M[y], ps) && M[x] == ps
    requires ps[i] in L' && y in M' && L' == L[ps[i] := L'[ps[i]]] && M' == M[y := M'[y]]
    requires x in L[ps[i]] ==> L'[ps[i]] == Relink(L[ps[i]], x, y)
    requires x !in L[ps[i]] ==> L'[ps[i]] == L[ps[i]] && M'[y] == M[y]
    requires Grown(M[y], M'[y], [ps[i]]) && (ps[i] in M[y] ==> M'[y] == M[y])
    ensures x in L[ps[i]] ==> Walked(L0, ps[..i + 1], x, y, L')
    ensures x !in L[ps[i]] ==> !Walkable(L0, ps, x, y) && Untouched(L0, ps, L')
    ensures Untouched(M0, [y], M') && Grown(M0[y], M'[y], ps) && M'[x] == ps
  {
    var p := ps[i];
    if x in L[p] {
      WalkedStep(L0, ps[..i], p, x, y, L);
      TakeNext(ps, i);
    } else {
      assert L' == L;
      WalkStops(L0, ps, i, x, y, L);
      WalkedUntouched(L0, ps[..i], ps, x, y, L);
    }
    GrownTrans(M0[y], M[y], M'[y], ps, p);
    if x == y {
      assert p in M[y];
    }
  }

  /** The turn of `p` after those of the nodes in `done`. */
  lemma WalkedStep(L0: map<Node, seq<Node>>, done: seq<Node>, p: Node, x: Node, y: Node, L: map<Node, seq<Node>>)
    requires p in L0 && Walked(L0, done, x, y, L) && x in L[p]
    ensures Walked(L0, done + [p], x, y, L[p := Relink(L[p], x, y)])
  {
    var L' := L[p := Relink(L[p], x, y)];
    forall n <- L0
      ensures Relinked(L0[n], x, y, Occurrences(done + [p], n)) == Ok(L'[n])
    {
      OccurrencesSnoc(done, p, n);
      var k := Occurrences(done, n);
      assert Relinked(L0[n], x, y, k) == Ok(L[n]);
      if n == p {
        RelinkedNext(L0[n], x, y, k, L[n]);
      } else {
        assert L'[n] == L[n];
      }
    }
  }

  lemma RelinkedNext(s: seq<Node>, x: Node, y: Node, k: nat, t: seq<Node>)
    requires Relinked(s, x, y, k) == Ok(t) && x in t
    ensures Relinked(s, x, y, k + 1) == Ok(Relink(t, x, y))
  {
  }

  /** A walk so far has given `n`'s list one turn per listing of `n`. */
  lemma WalkedAt(L0: map<Node, seq<Node>>, ps: seq<Node>, x: Node, y: Node, L: map<Node, seq<Node>>, n: Node)
    requires Walked(L0, ps, x, y, L) && n in L0
    ensures Relinked(L0[n], x, y, Occurrences(ps, n)) == Ok(L[n])
  {
  }

  /** A turn that finds no `x` fails. */
  lemma RelinkedMisses(s: seq<Node>, x: Node, y: Node, k: nat, t: seq<Node>)
    requires Relinked(s, x, y, k) == Ok(t) && x !in t
    ensures Relinked(s, x, y, k + 1) == Fail(ValueError)
  {
  }

  /** A turn that finds no `x` dooms the whole walk. */
  lemma WalkStops(L0: map<Node, seq<Node>>, ps: seq<Node>, i: nat, x: Node, y: Node, L: map<Node, seq<Node>>)
    requires i < |ps| && ps[i] in L0 && Walked(L0, ps[..i], x, y, L) && x !in L[ps[i]]
    ensures !Walkable(L0, ps, x, y)
  {
    var p := ps[i];
    OccurrencesPrefix(ps, i);
    var k := Occurrences(ps[..i], p);
    WalkedAt(L0, ps[..i], x, y, L, p);
    RelinkedMisses(L0[p], x, y, k, L[p]);
    RelinkedFailsLater(L0[p], x, y, k + 1, Occurrences(ps, p));
  }

  /** A walk so far touches only the lists of the nodes that had turns. */
  lemma WalkedUntouched(L0: map<Node, seq<Node>>, ps: seq<Node>, qs: seq<Node>, x: Node, y: Node, L: map<Node, seq<Node>>)
    requires Walked(L0, ps, x, y, L) && forall p <- ps :: p in qs
    ensures Untouched(L0, qs, L)
  {
    forall n <- L0 | n !in qs
      ensures L[n] == L0[n]
    {
      OccurrencesPositive(ps, n);
    }
  }

  /** After a whole walk, every node that had a turn lists `y`. */
  lemma WalkedReaches(L0: map<Node, seq<Node>>, ps: seq<Node>, x: Node, y: Node, L: map<Node, seq<Node>>)
    requires Walked(L0, ps, x, y, L) && forall p <- ps :: p in L0
    ensures forall p <- ps :: y in L[p]
  {
    forall p <- ps
      ensures y in L[p]
    {
      OccurrencesPositive(ps, p);
      RelinkedOutcome(L0[p], x, y, Occurrences(ps, p));
    }
  }

  /**
   * The mirror links a walk makes: every node of `ps` whose list in `L0` lacked `y` is listed in
   * `M[y]`, as `add_child` and `add_parent` put it there.
   */
  predicate Adopted(L0: map<Node, seq<Node>>, ps: seq<Node>, y: Node, M: map<Node, seq<Node>>)
  {
    y in M && forall p <- ps :: p in L0 && y !in L0[p] ==> p in M[y]
  }

  /**
   * The turn of `ps[i]` took place: a node met for the first time still has its list from `L0`,
   * so when that list lacked `y`, the turn linked it to `y`; the nodes adopted before stay.
   */
  lemma AdoptedStep(L0: map<Node, seq<Node>>, ps: seq<Node>, i: nat, x: Node, y: Node,
                    L: map<Node, seq<Node>>, M: map<Node, seq<Node>>, M': map<Node, seq<Node>>)
    requires i < |ps| && ps[i] in L0 && ps[i] in L && y in M'
    requires Walked(L0, ps[..i], x, y, L) && Adopted(L0, ps[..i], y, M) && x in L[ps[i]]
    requires Grown(M[y], M'[y], [ps[i]])
    requires y !in RemoveFirst(L[ps[i]], x) ==> ps[i] in M'[y]
    ensures Adopted(L0, ps[..i + 1], y, M')
  {
    TakeNext(ps, i);
    forall p <- ps[..i + 1] | p in L0 && y !in L0[p]
      ensures p in M'[y]
    {
      if p in ps[..i] {
        assert p in M'[y][..|M[y]|];
      } else {
        OccurrencesPositive(ps[..i], p);
        assert L[p] == L0[p];
      }
    }
  }

  /**
   * `y`'s list on the other side, `m0` before a walk over `ps`, after the walk's turns: the turn of
   * `p` finds `p`'s list as its earlier turns left it, removes the first `x`, and when `y` is then
   * missing calls `add_child` / `add_parent`, which appends `p` to `y`'s list unless `p` is there.
   * So `y`'s list only gains nodes of `ps`, in walk order, each absent until it is appended.
   */
  function Adoptions(L0: map<Node, seq<Node>>, ps: seq<Node>, x: Node, y: Node, m0: seq<Node>): (m: seq<Node>)
    ensures Grown(m0, m, ps)
    ensures forall j :: |m0| <= j < |m| ==> m[j] !in m[..j]
    decreases |ps|
  {
    if ps == [] then m0
    else
      var pre, p := ps[..|ps| - 1], ps[|ps| - 1];
      var m := Adoptions(L0, pre, x, y, m0);
      var t := if p in L0 then Relinked(L0[p], x, y, Occurrences(pre, p)) else Fail(ValueError);
      assert forall q <- pre :: q in ps;
      if t.Ok? && x in t.value && y !in RemoveFirst(t.value, x) && p !in m then m + [p] else m
  }

  /**
   * The turn of `ps[i]` after the first `i` turns got through: `y`'s list gains `ps[i]` exactly
   * when the turn leaves `ps[i]`'s list without `y` and `ps[i]` is not yet in `y`'s list.
   */
  lemma AdoptionsStep(L0: map<Node, seq<Node>>, ps: seq<Node>, i: nat, x: Node, y: Node, L: map<Node, seq<Node>>, m0: seq<Node>)
    requires i < |ps| && ps[i] in L0 && Walked(L0, ps[..i], x, y, L) && x in L[ps[i]]
    ensures var m := Adoptions(L0, ps[..i], x, y, m0);
            Adoptions(L0, ps[..i + 1], x, y, m0) == if y !in RemoveFirst(L[ps[i]], x) && ps[i] !in m then m + [ps[i]] else m
  {
    assert ps[..i + 1][..i] == ps[..i];
    WalkedAt(L0, ps[..i], x, y, L, ps[i]);
  }

  /**
   * One step of the boundary rewiring: `parent.children.remove(first)`, then `parent.add_child(head)`
   * unless `head` is already a child. Only `parent`'s children and `head`'s parents can change.
   */
  method ReplaceChild(parent: Node, first: Node, head: Node, ghost R: set<Node>,
                      ghost C: map<Node, seq<Node>>, ghost P: map<Node, seq<Node>>)
    returns (r: Result<()>, ghost C': map<Node, seq<Node>>, ghost P': map<Node, seq<Node>>)
    requires Closed(R) && parent in R && first in R && head in R && Linked(R, C, P)
    modifies parent`children, head`parents
    ensures Closed(R) && Linked(R, C', P')
    ensures C' == C[parent := parent.children] && P' == P[head := head.parents]
    ensures Grown(old(head.parents), head.parents, [parent])
    ensures r.Ok? <==> first in old(parent.children)
    ensures r.Fail? ==> parent.children == old(parent.children) && head.parents == old(head.parents)
    ensures r.Ok? ==> parent.children == Relink(old(parent.children), first, head)
    ensures r.Ok? && head !in RemoveFirst(old(parent.children), first) && parent !in old(head.parents) ==>
      head.parents == old(head.parents) + [parent]
    ensures r.Ok? && (head in RemoveFirst(old(parent.children), first) || parent in old(head.parents)) ==>
      head.parents == old(head.parents)
    ensures r.Ok? && head !in RemoveFirst(old(parent.children), first) ==> parent in head.parents
    ensures r.Fail? ==> r.error == ValueError
    ensures parent != head ==> parent.parents == old(parent.parents) && head.children == old(head.children)
  {
    if first !in parent.children {
      r := Fail(ValueError);
    } else {
      parent.children := RemoveFirst(parent.children, first);
      if head !in parent.children {
        parent.AddChild(head, R);
      }
      r := Ok(());
    }
    C', P' := C[parent := parent.children], P[head := head.parents];
    assert head.parents[..|old(head.parents)|] == old(head.parents);
  }

  /**
   * One step of the boundary rewiring: `child.parents.remove(last)`, then `child.add_parent(tail)`
   * unless `tail` is already a parent. Only `child`'s parents and `tail`'s children can change.
   */
  method ReplaceParent(child: Node, last: Node, tail: Node, ghost R: set<Node>,
                       ghost C: map<Node, seq<Node>>, ghost P: map<Node, seq<Node>>)
    returns (r: Result<()>, ghost C': map<Node, seq<Node>>, ghost P': map<Node, seq<Node>>)
    requires Closed(R) && child in R && last in R && tail in R && Linked(R, C, P)
    modifies child`parents, tail`children
    ensures Closed(R) && Linked(R, C', P')
    ensures P' == P[child := child.parents] && C' == C[tail := tail.children]
    ensures Grown(old(tail.children), tail.children, [child])
    ensures r.Ok? <==> last in old(child.parents)
    ensures r.Fail? ==> child.parents == old(child.parents) && tail.children == old(tail.children)
    ensures r.Ok? ==> child.parents == Relink(old(child.parents), last, tail)
    ensures r.Ok? && tail !in RemoveFirst(old(child.parents), last) && child !in old(tail.children) ==>
      tail.children == old(tail.children) + [child]
    ensures r.Ok? && (tail in RemoveFirst(old(child.parents), last) || child in old(tail.children)) ==>
      tail.children == old(tail.children)
    ensures r.Ok? && tail !in RemoveFirst(old(child.parents), last) ==> child in tail.children
    ensures r.Fail? ==> r.error == ValueError
    ensures child != tail ==> child.children == old(child.children) && tail.parents == old(tail.parents)
  {
    if last !in child.parents {
      r := Fail(ValueError);
    } else {
      child.parents := RemoveFirst(child.parents, last);
      if tail !in child.parents {
        child.AddParent(tail, R);
      }
      r := Ok(());
    }
    C', P' := C[tail := tail.children], P[child := child.parents];
    assert tail.children[..|old(tail.children)|] == old(tail.children);
  }

  /** The names of a window's nodes. */
  function Names(window: seq<Node>): set<string>
  {
    set x <- window :: x.name
  }

  /**
   * `merged` with each node of `window` in turn recording `replacement` under its name: the window's
   * names map to the replacement, every other name keeps its entry.
   */
  function Overwrite(merged: map<string, seq<Node>>, window: seq<Node>, replacement: seq<Node>): (m: map<string, seq<Node>>)
    ensures m.Keys == merged.Keys + Names(window)
    ensures forall x <- window :: m[x.name] == replacement
    ensures forall name <- merged :: name !in Names(window) ==> m[name] == merged[name]
    ensures forall name <- m :: m[name] == replacement || (name in merged && m[name] == merged[name])
    decreases |window|
  {
    if window == [] then merged
    else
      var front := window[..|window| - 1];
      assert window == front + [window[|window| - 1]];
      Overwrite(merged, front, replacement)[window[|window| - 1].name := replacement]
  }

  /** Writing one more node records the replacement under its name, over what the window before it wrote. */
  lemma OverwriteSnoc(merged: map<string, seq<Node>>, window: seq<Node>, x: Node, replacement: seq<Node>)
    ensures Overwrite(merged, window + [x], replacement) == Overwrite(merged, window, replacement)[x.name := replacement]
  {
  }

  /** `for n in nodes_window: merged_nodes[n.name] = merged`. */
  method Record(merged: map<string, seq<Node>>, window: seq<Node>, replacement: seq<Node>)
    returns (m: map<string, seq<Node>>)
    ensures m == Overwrite(merged, window, replacement)
  {
    m := merged;
    for j := 0 to |window|
      invariant m == Overwrite(merged, window[..j], replacement)
    {
      assert window[..j + 1] == window[..j] + [window[j]];
      OverwriteSnoc(merged, window[..j], window[j], replacement);
      m := m[window[j].name := replacement];
    }
    assert window[..|window|] == window;
  }

  /** `S` holds fields, parents and children for the same nodes. */
  predicate Keyed(S: GraphState)
  {
    S.parents.Keys == S.views.Keys && S.children.Keys == S.views.Keys
  }

  /** `n` has the same fields, parents and children in `S` and `S'`. */
  predicate SameAt(S: GraphState, S': GraphState, n: Node)
  {
    && n in S.views && n in S.parents && n in S.children
    && n in S'.views && n in S'.parents && n in S'.children
    && S'.views[n] == S.views[n] && S'.parents[n] == S.parents[n] && S'.children[n] == S.children[n]
  }

  /** Every node of `S` outside `w` is in `S'` as it was. */
  predicate KeptOutside(S: GraphState, S': GraphState, w: seq<Node>)
  {
    forall n <- S.views :: n !in w ==> SameAt(S, S', n)
  }

  /**
   * The merge of a two-node rule gets through on `p` above `c` in the state `S`: the rule's
   * fusion of the two nodes' fields succeeds and each node lists the other.
   */
  predicate PairMergeable(rule: Rule, S: GraphState, p: Node, c: Node)
    requires rule != PixelShuffle
  {
    && p in S.views && c in S.views && p in S.children && c in S.parents
    && PairFused(rule, S.views[p], p.name, S.views[c]).Ok?
    && c in S.children[p] && p in S.parents[c]
  }

  /**
   * What the merge of a two-node rule on `p` above `c` raises in the state `S` when it does not
   * get through: the fusion's error when the fusion fails, else the ValueError of a missing link.
   */
  function PairRaise(rule: Rule, S: GraphState, p: Node, c: Node): Error
    requires rule != PixelShuffle
  {
    if p in S.views && c in S.views && PairFused(rule, S.views[p], p.name, S.views[c]).Fail?
    then PairFused(rule, S.views[p], p.name, S.views[c]).error
    else ValueError
  }

  /**
   * The merge of a two-node rule from state `S` to `S'`: `p` takes the fused fields, the link
   * from `p` to `c` is cut once on each side, and no other field or link changes.
   */
  predicate PairMerged(rule: Rule, S: GraphState, p: Node, c: Node, S': GraphState)
    requires rule != PixelShuffle
  {
    && PairMergeable(rule, S, p, c) && Keyed(S) && Keyed(S') && S'.views.Keys == S.views.Keys
    && p in S'.views && c in S'.views && p in S.parents && c in S.children
    && S'.views[p] == PairFused(rule, S.views[p], p.name, S.views[c]).value
    && S'.children[p] == RemoveFirst(S.children[p], c) && S'.parents[p] == S.parents[p]
    && S'.parents[c] == RemoveFirst(S.parents[c], p) && S'.children[c] == S.children[c]
    && S'.views[c] == S.views[c]
    && KeptOutside(S, S', [p, c])
  }

  /**
   * The pixel-shuffle merge from state `S` to `S'` of the window [reshape1, transpose1, final]
   * into the chain `rep` = [reshape1, transpose1, reshape2, transpose2, final], whose middle two
   * nodes are new. No node outside the window changes.
   */
  predicate ShuffleMerged(S: GraphState, rep: seq<Node>, S': GraphState)
  {
    && |rep| == 5 && rep[0] != rep[1] && rep[1] != rep[4] && rep[0] != rep[4]
    && Keyed(S) && Keyed(S') && rep[0] in S.views && rep[1] in S.views && rep[4] in S.views
    && rep[2] !in S.views && rep[3] !in S.views && rep[2] != rep[3]
    && S'.views.Keys == S.views.Keys + {rep[2], rep[3]}
    && KeptOutside(S, S', [rep[0], rep[1], rep[4]])
    && ShuffledFields(S.views, rep, S'.views)
    && ShuffledLinks(S, rep, S')
  }

  /** ShuffleMerged, from its parts. */
  lemma ShuffleMergedOfParts(S: GraphState, rep: seq<Node>, S': GraphState)
    requires |rep| == 5 && rep[0] != rep[1] && rep[1] != rep[4] && rep[0] != rep[4] && rep[2] != rep[3]
    requires Keyed(S) && Keyed(S') && rep[0] in S.views && rep[1] in S.views && rep[4] in S.views
    requires rep[2] !in S.views && rep[3] !in S.views
    requires S'.views.Keys == S.views.Keys + {rep[2], rep[3]}
    requires KeptOutside(S, S', [rep[0], rep[1], rep[4]])
    requires ShuffledFields(S.views, rep, S'.views)
    requires ShuffledLinks(S, rep, S')
    ensures ShuffleMerged(S, rep, S')
  {
  }

  /**
   * The fields of the pixel-shuffle chain `rep` after the merge, from the fields `V` before it:
   * the first Reshape [1, C, s, s, H, W] becomes [C, s*s, H, W], the Transpose's perm becomes
   * [0, 2, 1, 3], a new Reshape [C*H, s, s, W] and a new Transpose [0, 1, 3, 2] follow, and each
   * node of the chain reads the single edge the one before it writes; the final node keeps its
   * other fields.
   */
  predicate ShuffledFields(V: map<Node, NodeView>, rep: seq<Node>, V': map<Node, NodeView>)
    requires |rep| == 5 && rep[0] in V && rep[1] in V && rep[4] in V
    requires rep[0] in V' && rep[1] in V' && rep[2] in V' && rep[3] in V' && rep[4] in V'
  {
    var reshape1, transpose1, reshape2, transpose2, final := rep[0], rep[1], rep[2], rep[3], rep[4];
    && "shape" in V[reshape1].attrs && V[reshape1].attrs["shape"].IntsAttr?
    && |V[reshape1].attrs["shape"].ints| == 6
    && var shape := V[reshape1].attrs["shape"].ints;
       var c, s, h, w := shape[1], shape[2], shape[4], shape[5];
       && V'[reshape1] == V[reshape1].(attrs := V[reshape1].attrs["shape" := IntsAttr([c, s * s, h, w])])
       && V'[transpose1].opType == V[transpose1].opType
       && V'[transpose1].attrs == V[transpose1].attrs["perm" := IntsAttr([0, 2, 1, 3])]
       && V'[transpose1].inputs == V[transpose1].inputs && V'[transpose1].inputTensors == V[transpose1].inputTensors
       && reshape2.name == "pixel_shuffle_reshape" && V'[reshape2].opType == "Reshape"
       && V'[reshape2].attrs == map["shape" := IntsAttr([c * h, s, s, w])]
       && V'[reshape2].inputs == V'[transpose1].outputs && V'[reshape2].inputTensors == map[]
       && transpose2.name == "pixel_shuffle_transpose" && V'[transpose2].opType == "Transpose"
       && V'[transpose2].attrs == map["perm" := IntsAttr([0, 1, 3, 2])]
       && V'[transpose2].inputs == V'[reshape2].outputs && V'[transpose2].inputTensors == map[]
       && V'[final].opType == V[final].opType && V'[final].attrs == V[final].attrs
       && V'[final].outputs == V[final].outputs && V'[final].inputTensors == V[final].inputTensors
       && V'[final].inputs == V'[transpose2].outputs
       && |V'[transpose1].outputs| == 1 && |V'[reshape2].outputs| == 1 && |V'[transpose2].outputs| == 1
  }

  /** The links of the pixel-shuffle chain `rep` after the merge: one strand from the first Reshape to the final node. */
  predicate ShuffledLinks(S: GraphState, rep: seq<Node>, S': GraphState)
    requires |rep| == 5 && rep[0] in S.parents && rep[0] in S.children && rep[1] in S.parents && rep[4] in S.children
    requires rep[0] in S'.parents && rep[1] in S'.parents && rep[2] in S'.parents && rep[3] in S'.parents && rep[4] in S'.parents
    requires rep[0] in S'.children && rep[1] in S'.children && rep[2] in S'.children && rep[3] in S'.children && rep[4] in S'.children
  {
    && S'.parents[rep[0]] == S.parents[rep[0]] && S'.children[rep[0]] == S.children[rep[0]]
    && S'.parents[rep[1]] == S.parents[rep[1]] && S'.children[rep[1]] == [rep[2]]
    && S'.parents[rep[2]] == [rep[1]] && S'.children[rep[2]] == [rep[3]]
    && S'.parents[rep[3]] == [rep[2]] && S'.children[rep[3]] == [rep[4]]
    && S'.parents[rep[4]] == [rep[3]] && S'.children[rep[4]] == S.children[rep[4]]
  }

  /**
   * The pixel-shuffle chain `merged`, built between the previous state and this one as its nodes'
   * fields and links describe, read on the graph's states: the nodes `R` before, and `R` with the
   * two new nodes after.
   */
  twostate lemma ShuffleRead(R: set<Node>, new merged: seq<Node>)
    ensures && |merged| == 5 && merged[0] in R && merged[1] in R && merged[4] in R
            && "shape" in old(merged[0].attrs) && old(merged[0].attrs["shape"]).IntsAttr?
            && |old(merged[0].attrs["shape"].ints)| == 6
            && (var shape := old(merged[0].attrs["shape"].ints);
                var c, s, h, w := shape[1], shape[2], shape[4], shape[5];
                && merged[0].View() == old(merged[0].View()).(attrs := old(merged[0].attrs)["shape" := IntsAttr([c, s * s, h, w])])
                && merged[1].attrs == old(merged[1].attrs)["perm" := IntsAttr([0, 2, 1, 3])]
                && merged[2].attrs == map["shape" := IntsAttr([c * h, s, s, w])]
                && merged[3].attrs == map["perm" := IntsAttr([0, 1, 3, 2])])
            && merged[2].name == "pixel_shuffle_reshape" && merged[2].opType == "Reshape"
            && merged[3].name == "pixel_shuffle_transpose" && merged[3].opType == "Transpose"
            && merged[0].parents == old(merged[0].parents) && merged[0].children == old(merged[0].children)
            && merged[1].parents == old(merged[1].parents) && merged[1].children == [merged[2]]
            && merged[2].parents == [merged[1]] && merged[2].children == [merged[3]]
            && merged[3].parents == [merged[2]] && merged[3].children == [merged[4]]
            && merged[4].parents == [merged[3]] && merged[4].children == old(merged[4].children)
            && merged[1].inputs == old(merged[1].inputs) && merged[1].inputTensors == old(merged[1].inputTensors)
            && |merged[1].outputs| == 1 && merged[2].inputs == merged[1].outputs
            && |merged[2].outputs| == 1 && merged[3].inputs == merged[2].outputs
            && |merged[3].outputs| == 1 && merged[4].inputs == merged[3].outputs
            && merged[2].inputTensors == map[] && merged[3].inputTensors == map[]
            && merged[4].outputs == old(merged[4].outputs) && merged[4].attrs == old(merged[4].attrs)
            && merged[4].inputTensors == old(merged[4].inputTensors)
            ==>
            && ShuffledFields(old(StateOf(R)).views, merged, StateOf(R + {merged[2], merged[3]}).views)
            && ShuffledLinks(old(StateOf(R)), merged, StateOf(R + {merged[2], merged[3]}))
  { }

  /** Two nodes allocated since the previous state are all that `R` gains by adding them. */
  twostate lemma FreshPair(R: set<Node>, new R': set<Node>, new a: Node, new b: Node)
    requires fresh(a) && fresh(b) && R' == R + {a, b}
    ensures fresh(R' - R)
  { }

  /** A change that leaves the fields of the nodes of `R` alone leaves their views alone. */
  twostate lemma ViewsKept(R: set<Node>)
    requires unchanged(R`attrs, R`inputs, R`outputs, R`inputTensors)
    ensures ViewsOf(R) == old(ViewsOf(R))
  { }

  /** A change that leaves the nodes of `R` alone leaves the graph's state on them alone. */
  twostate lemma StateKept(R: set<Node>)
    requires unchanged(R)
    ensures StateOf(R) == old(StateOf(R))
  { }

  /** The rule's merge of the window `w` into `rep`, from state `S` to `S'`. */
  predicate Merged(rule: Rule, S: GraphState, w: seq<Node>, rep: seq<Node>, S': GraphState)
  {
    && |w| == WindowLength(rule)
    && if rule == PixelShuffle then |rep| == 5 && rep[0] == w[0] && rep[1] == w[1] && rep[4] == w[2] && ShuffleMerged(S, rep, S')
       else rep == [w[0]] && (w[0] != w[1] ==> PairMerged(rule, S, w[0], w[1], S'))
  }

  /** A merge's replacement is made of nodes the state after it holds. */
  lemma MergedHeld(rule: Rule, S: GraphState, w: seq<Node>, rep: seq<Node>, S': GraphState)
    ensures Merged(rule, S, w, rep, S') && w != [] && w[0] in S'.views ==> rep != [] && forall x <- rep :: x in S'.views
  {
  }

  /**
   * The merge of `w` in state `S` may raise `e`: never for the pixel shuffle; for the two-node
   * rules when the fusion fails or a link is missing, `e` being the pair's error, or, with any
   * error, when the window is one node twice.
   */
  predicate MergeMayRaise(rule: Rule, S: GraphState, w: seq<Node>, e: Error)
  {
    && rule != PixelShuffle && |w| == 2
    && (w[0] == w[1] || (!PairMergeable(rule, S, w[0], w[1]) && e == PairRaise(rule, S, w[0], w[1])))
  }

  /**
   * The boundary rewiring after the merge of `w` into `rep`, from state `S` to `S'` through the
   * state `H` between its two walks: the children lists of the first window node's parents are
   * walked, and the head's parents grow by those parents only; then the parents lists of the
   * children the last window node has in `H` are walked, and the tail's children grow by those
   * children only. No other link list changes, the first window node keeps its parents and the
   * last its children, and no node's fields change.
   */
  predicate Rewired(S: GraphState, w: seq<Node>, rep: seq<Node>, H: GraphState, S': GraphState)
  {
    && w != [] && rep != []
    && var first, last, head, tail := w[0], w[|w| - 1], rep[0], rep[|rep| - 1];
       && H.views == S.views && S'.views == S.views
       && Traded(S.children, S.parents, first, head, H.children, H.parents)
       && Traded(H.parents, H.children, last, tail, S'.parents, S'.children)
       && H.parents[first] == S.parents[first] && S'.children[last] == H.children[last]
  }

  /** Rewired, RewireWalks and RewireWalked, from their parts as the rewiring states them. */
  lemma RewiredOf(S: GraphState, w: seq<Node>, rep: seq<Node>, H: GraphState, S': GraphState, ok: bool)
    requires w != [] && rep != [] && H.views == S.views && S'.views == S.views
    requires Traded(S.children, S.parents, w[0], rep[0], H.children, H.parents)
    requires Traded(H.parents, H.children, w[|w| - 1], rep[|rep| - 1], S'.parents, S'.children)
    requires H.parents[w[0]] == S.parents[w[0]] && S'.children[w[|w| - 1]] == H.children[w[|w| - 1]]
    requires ok <==> Walkable(S.children, S.parents[w[0]], w[0], rep[0])
                     && Walkable(H.parents, H.children[w[|w| - 1]], w[|w| - 1], rep[|rep| - 1])
    requires ok ==> Walked(S.children, S.parents[w[0]], w[0], rep[0], H.children)
    requires ok ==> Walked(H.parents, H.children[w[|w| - 1]], w[|w| - 1], rep[|rep| - 1], S'.parents)
    requires ok ==> Adopted(S.children, S.parents[w[0]], rep[0], H.parents)
    requires ok ==> Adopted(H.parents, H.children[w[|w| - 1]], rep[|rep| - 1], S'.children)
    requires ok ==> H.parents[rep[0]] == Adoptions(S.children, S.parents[w[0]], w[0], rep[0], S.parents[rep[0]])
    requires ok ==> S'.children[rep[|rep| - 1]]
                    == Adoptions(H.parents, H.children[w[|w| - 1]], w[|w| - 1], rep[|rep| - 1], H.children[rep[|rep| - 1]])
    ensures Rewired(S, w, rep, H, S')
    ensures ok <==> RewireWalks(S, w, rep, H)
    ensures ok ==> RewireWalked(S, w, rep, H, S')
  {
  }

  /** Both walks of the rewiring of `w` into `rep` from state `S`, through `H`, can take all their turns. */
  predicate RewireWalks(S: GraphState, w: seq<Node>, rep: seq<Node>, H: GraphState)
  {
    && w != [] && rep != [] && w[0] in S.parents && w[|w| - 1] in H.children
    && Walkable(S.children, S.parents[w[0]], w[0], rep[0])
    && Walkable(H.parents, H.children[w[|w| - 1]], w[|w| - 1], rep[|rep| - 1])
  }

  /**
   * Both walks of the rewiring took all their turns: `H` and `S'` hold the lists they leave.
   * The head lists every parent of the first window node that did not already list the head as
   * a child, and the tail every child of the last window node that did not already list the tail
   * as a parent; the head's parents and the tail's children are exactly what `Adoptions` says the
   * turns' `add_child` and `add_parent` calls leave.
   */
  predicate RewireWalked(S: GraphState, w: seq<Node>, rep: seq<Node>, H: GraphState, S': GraphState)
  {
    && w != [] && rep != [] && w[0] in S.parents && w[|w| - 1] in H.children
    && Walked(S.children, S.parents[w[0]], w[0], rep[0], H.children)
    && Walked(H.parents, H.children[w[|w| - 1]], w[|w| - 1], rep[|rep| - 1], S'.parents)
    && Adopted(S.children, S.parents[w[0]], rep[0], H.parents)
    && Adopted(H.parents, H.children[w[|w| - 1]], rep[|rep| - 1], S'.children)
    && rep[0] in S.parents && rep[0] in H.parents && rep[|rep| - 1] in H.children && rep[|rep| - 1] in S'.children
    && H.parents[rep[0]] == Adoptions(S.children, S.parents[w[0]], w[0], rep[0], S.parents[rep[0]])
    && S'.children[rep[|rep| - 1]]
       == Adoptions(H.parents, H.children[w[|w| - 1]], w[|w| - 1], rep[|rep| - 1], H.children[rep[|rep| - 1]])
  }

  /**
   * After both walks, every parent the first window node had lists the head among its children,
   * and every child the last window node had between the walks lists the tail among its parents.
   */
  lemma RewireReaches(S: GraphState, w: seq<Node>, rep: seq<Node>, H: GraphState, S': GraphState)
    requires Rewired(S, w, rep, H, S') && RewireWalks(S, w, rep, H) && RewireWalked(S, w, rep, H, S')
    ensures forall p <- S.parents[w[0]] :: p in S'.children && rep[0] in S'.children[p]
    ensures forall c <- H.children[w[|w| - 1]] :: c in S'.parents && rep[|rep| - 1] in S'.parents[c]
  {
    var first, last, head, tail := w[0], w[|w| - 1], rep[0], rep[|rep| - 1];
    WalkedReaches(S.children, S.parents[first], first, head, H.children);
    StillReached(H.children, S'.children, S.parents[first], head, tail, H.children[last]);
    WalkedReaches(H.parents, H.children[last], last, tail, S'.parents);
  }

  /**
   * One visit of NodesFuser.__call__: the graph's state when it began, the window collected
   * above the visited node, the window nodes' fields at that moment, the replacement the merge
   * produced ([] when the rule did not accept the window), and the graph's states after the
   * merge (`fused`), between the two walks of the rewiring (`relinked`) and when the visit ended
   * (`after`).
   */
  datatype Turn = Turn(before: GraphState, window: seq<Node>, views: seq<NodeView>, replacement: seq<Node>,
                       fused: GraphState, relinked: GraphState, after: GraphState)

  /** The fields the state `V` holds for the nodes of `w`, in order. */
  function ViewsIn(V: map<Node, NodeView>, w: seq<Node>): seq<NodeView>
    requires forall x <- w :: x in V
  {
    seq(|w|, i requires 0 <= i < |w| => V[w[i]])
  }

  /** The window was full and the rule accepted it. */
  predicate Accepted(rule: Rule, t: Turn)
  {
    |t.views| == WindowLength(rule) && Eligibility(rule, t.views) == Ok(true)
  }

  /** The edge names the visit `t` draws from the fuser's counter: three for a pixel-shuffle window merged. */
  function Draw(rule: Rule, t: Turn): nat
  {
    if rule == PixelShuffle && Accepted(rule, t) then 3 else 0
  }

  /** The edge names the visits `turns` draw, in all. */
  function Drawn(rule: Rule, turns: seq<Turn>): nat
  {
    if turns == [] then 0 else Drawn(rule, turns[..|turns| - 1]) + Draw(rule, turns[|turns| - 1])
  }

  /**
   * `t` is a visit of `node`: its window is the one collected for `node` in the graph state the
   * visit began with, and the rule judged the window nodes' fields in that state.
   */
  predicate Visit(rule: Rule, t: Turn, node: Node)
  {
    && node in t.before.parents
    && Collected(t.before.parents, t.before.children, node, WindowLength(rule), t.window)
    && (forall x <- t.window :: x in t.before.views)
    && t.views == ViewsIn(t.before.views, t.window)
  }

  /** The accepted visit `t` merged its window and rewired the boundary, and both got through. */
  predicate Applied(rule: Rule, t: Turn)
  {
    && Merged(rule, t.before, t.window, t.replacement, t.fused)
    && Rewired(t.fused, t.window, t.replacement, t.relinked, t.after)
    && RewireWalks(t.fused, t.window, t.replacement, t.relinked)
    && RewireWalked(t.fused, t.window, t.replacement, t.relinked, t.after)
  }

  /** A visit carried on is a visit of the same node. */
  lemma VisitCarried(rule: Rule, t: Turn, t': Turn, node: Node)
    requires Visit(rule, t, node) && SameVisit(t, t')
    ensures Visit(rule, t', node)
  { }

  /** `t'` continues the visit `t`: the same state when it began, the same window, the same fields judged. */
  predicate SameVisit(t: Turn, t': Turn)
  {
    t'.before == t.before && t'.window == t.window && t'.views == t.views
  }

  /**
   * What can make an accepted visit raise `e`: its merge, or else a walk of the rewiring that
   * cannot take all its turns, which is a ValueError.
   */
  predicate Raising(rule: Rule, t: Turn, e: Error)
  {
    || MergeMayRaise(rule, t.before, t.window, e)
    || (&& Merged(rule, t.before, t.window, t.replacement, t.fused)
        && Rewired(t.fused, t.window, t.replacement, t.relinked, t.after)
        && !RewireWalks(t.fused, t.window, t.replacement, t.relinked) && e == ValueError)
  }

  /**
   * `t` is a completed visit of `node`: the rule did not raise on a full window, an accepted
   * window was merged and rewired, and any other visit changed nothing.
   */
  predicate TurnAt(rule: Rule, t: Turn, node: Node)
  {
    && Visit(rule, t, node)
    && (|t.views| == WindowLength(rule) ==> Eligibility(rule, t.views).Ok?)
    && (!Accepted(rule, t) || Applied(rule, t))
    && (Accepted(rule, t) || t.after == t.before)
  }

  /**
   * Read against the nodes in a state whose links and fields are `t.before`, a visit's window is
   * a strict chain of those nodes, full exactly when the links above `node` are linear, and its
   * views are the nodes' fields.
   */
  lemma VisitLinks(rule: Rule, t: Turn, node: Node, R: set<Node>)
    requires Closed(R) && t.before == StateOf(R) && Visit(rule, t, node)
    ensures forall x <- t.window :: x in R
    ensures StrictChain(t.window) && t.views == Views(t.window)
    ensures |t.window| == WindowLength(rule) <==> LinearAbove(node, WindowLength(rule) - 1)
  {
    CollectedLinks(R, node, WindowLength(rule), t.window);
  }

  /**
   * The visit `t` raised `e`: its window was full, and the rule raised `e` on it, or accepted it
   * and then the merge or the rewiring raised.
   */
  predicate RaisedAt(rule: Rule, t: Turn, e: Error)
  {
    && |t.views| == WindowLength(rule)
    && (Eligibility(rule, t.views) == Fail(e) || (Eligibility(rule, t.views) == Ok(true) && Raising(rule, t, e)))
  }

  /** Each visit begins in the state the visit before it left. */
  predicate Chained(turns: seq<Turn>)
  {
    forall i: nat :: i + 1 < |turns| ==> ResumedAt(turns, i)
  }

  /** The visit after `turns[i]` begins where `turns[i]` ended. */
  predicate ResumedAt(turns: seq<Turn>, i: nat)
    requires i + 1 < |turns|
  {
    turns[i + 1].before == turns[i].after
  }

  /** A visit that begins where the last visit ended extends the chain. */
  lemma ChainedSnoc(turns: seq<Turn>, t: Turn)
    requires Chained(turns)
    requires turns != [] ==> t.before == turns[|turns| - 1].after
    ensures Chained(turns + [t])
  {
    forall i: nat | i + 1 < |turns| + 1
      ensures ResumedAt(turns + [t], i)
    {
      assert (turns + [t])[i] == turns[i];
      if i < |turns| - 1 {
        assert ResumedAt(turns, i);
        assert (turns + [t])[i + 1] == turns[i + 1];
      }
    }
  }

  /** A raising visit of the next node extends a list of completed visits of the nodes before it. */
  lemma VisitsSnoc(rule: Rule, turns: seq<Turn>, t: Turn, nodes: seq<Node>)
    requires |turns| < |nodes| && forall i :: 0 <= i < |turns| ==> TurnAt(rule, turns[i], nodes[i])
    requires Visit(rule, t, nodes[|turns|])
    ensures forall i :: 0 <= i < |turns| + 1 ==> Visit(rule, (turns + [t])[i], nodes[i])
    ensures forall i :: 0 <= i < |turns| ==> TurnAt(rule, (turns + [t])[i], nodes[i])
    ensures (turns + [t])[..|turns|] == turns
  {
  }

  /** `merged_nodes` after the visit `t`: the replacement of an accepted window is written over it. */
  function RecordTurn(rule: Rule, merged: map<string, seq<Node>>, t: Turn): map<string, seq<Node>>
  {
    if Accepted(rule, t) then Overwrite(merged, t.window, t.replacement) else merged
  }

  /** `merged_nodes` after the visits `turns`: each accepted window written over the record in order. */
  function RecordAll(rule: Rule, merged: map<string, seq<Node>>, turns: seq<Turn>): (m: map<string, seq<Node>>)
    ensures merged.Keys <= m.Keys
    decreases |turns|
  {
    if turns == [] then merged
    else RecordTurn(rule, RecordAll(rule, merged, turns[..|turns| - 1]), turns[|turns| - 1])
  }

  /** One more visit: its window is written over the record when the rule accepted it. */
  lemma RecordAllSnoc(rule: Rule, merged: map<string, seq<Node>>, turns: seq<Turn>, t: Turn)
    ensures RecordAll(rule, merged, turns + [t]) == RecordTurn(rule, RecordAll(rule, merged, turns), t)
  {
  }

  /**
   * What a visit's outcome says about the visit, read off its window: a window that is not full
   * leaves the record and the graph as they were; on a full window a raise of the rule is the
   * visit's raise and a refusal leaves both as they were; a two-node rule's accepted window is
   * replaced by its first node.
   */
  lemma VisitOutcome(rule: Rule, t: Turn, node: Node, merged: map<string, seq<Node>>, r: Result<map<string, seq<Node>>>)
    requires Visit(rule, t, node)
    requires r.Ok? ==> TurnAt(rule, t, node) && r.value == RecordTurn(rule, merged, t)
    requires r.Fail? ==> RaisedAt(rule, t, r.error)
    ensures |t.window| <= WindowLength(rule) && (t.window != [] ==> t.window[|t.window| - 1] == node)
    ensures |t.window| != WindowLength(rule) ==> r == Ok(merged) && t.after == t.before
    ensures |t.window| == WindowLength(rule) && Eligibility(rule, t.views).Fail? ==>
      r == Fail(Eligibility(rule, t.views).error)
    ensures |t.window| == WindowLength(rule) && Eligibility(rule, t.views) == Ok(false) ==>
      r == Ok(merged) && t.after == t.before
    ensures r.Ok? && Accepted(rule, t) && rule != PixelShuffle ==> t.replacement == [t.window[0]]
  {
  }

  /**
   * A visit the rule did not accept, `v` being the rule's verdict on it (a window that is not
   * full counts as turned down): when the rule raised, the visit raised the same; otherwise it is
   * a completed visit that leaves the record as it was. Either way no edge name is drawn.
   */
  lemma Declined(rule: Rule, t: Turn, node: Node, merged: map<string, seq<Node>>, v: Result<bool>)
    ensures && Visit(rule, t, node) && t.after == t.before && v != Ok(true)
            && v == (if |t.views| == WindowLength(rule) then Eligibility(rule, t.views) else Ok(false))
            ==>
            && (v.Ok? ==> TurnAt(rule, t, node) && RecordTurn(rule, merged, t) == merged)
            && (v.Fail? ==> RaisedAt(rule, t, v.error))
            && Draw(rule, t) == 0
  {
  }

  /**
   * The accepted visit `t`, carried on as `turn`: when the merge and the rewiring went through,
   * the visit is completed and its replacement is written over the record; when one of them
   * raised, the visit raised. The pixel shuffle draws three edge names.
   */
  lemma Went(rule: Rule, t: Turn, turn: Turn, node: Node, merged: map<string, seq<Node>>,
             r: Result<map<string, seq<Node>>>)
    ensures && Visit(rule, t, node) && Accepted(rule, t)
            && SameVisit(t, turn)
            && (r.Ok? ==> Applied(rule, turn) && r.value == Overwrite(merged, turn.window, turn.replacement))
            && (r.Fail? ==> Raising(rule, turn, r.error))
            ==>
            && (r.Ok? ==> TurnAt(rule, turn, node) && r.value == RecordTurn(rule, merged, turn))
            && (r.Fail? ==> RaisedAt(rule, turn, r.error))
            && Draw(rule, turn) == if rule == PixelShuffle then 3 else 0
  {
  }

  /** A merge followed by a rewiring: the visit applied when both walks took all their turns, else it raised. */
  lemma Rewiring(rule: Rule, t: Turn, ok: bool)
    ensures && Merged(rule, t.before, t.window, t.replacement, t.fused)
            && Rewired(t.fused, t.window, t.replacement, t.relinked, t.after)
            && (ok <==> RewireWalks(t.fused, t.window, t.replacement, t.relinked))
            && (ok ==> RewireWalked(t.fused, t.window, t.replacement, t.relinked, t.after))
            ==> (ok ==> Applied(rule, t)) && (!ok ==> Raising(rule, t, ValueError))
  {
  }

  /** A completed visit of the next node extends a list of completed visits of the nodes before it. */
  lemma TurnsSnoc(rule: Rule, turns: seq<Turn>, t: Turn, nodes: seq<Node>)
    requires |turns| < |nodes| && forall i :: 0 <= i < |turns| ==> TurnAt(rule, turns[i], nodes[i])
    requires TurnAt(rule, t, nodes[|turns|])
    ensures forall i :: 0 <= i < |turns| + 1 ==> TurnAt(rule, (turns + [t])[i], nodes[i])
  {
  }

  /** A name is recorded exactly when it was already or an accepted window holds a node of that name. */
  lemma {:induction false} RecordAllKeys(rule: Rule, merged: map<string, seq<Node>>, turns: seq<Turn>, name: string)
    ensures name in RecordAll(rule, merged, turns) <==>
      name in merged || exists i :: 0 <= i < |turns| && Accepted(rule, turns[i]) && name in Names(turns[i].window)
    decreases |turns|
  {
    if turns != [] {
      var front := turns[..|turns| - 1];
      RecordAllKeys(rule, merged, front, name);
      assert forall i :: 0 <= i < |front| ==> front[i] == turns[i];
    }
  }

  /** A name no accepted window holds keeps the entry it started with. */
  lemma {:induction false} RecordAllUntouched(rule: Rule, merged: map<string, seq<Node>>, turns: seq<Turn>, name: string)
    requires name in merged
    requires forall i :: 0 <= i < |turns| && Accepted(rule, turns[i]) ==> name !in Names(turns[i].window)
    ensures RecordAll(rule, merged, turns)[name] == merged[name]
    decreases |turns|
  {
    if turns != [] {
      var front := turns[..|turns| - 1];
      assert forall i :: 0 <= i < |front| ==> front[i] == turns[i];
      RecordAllUntouched(rule, merged, front, name);
    }
  }

  /** A name held by an accepted window maps to the replacement of the last accepted window holding it. */
  lemma {:induction false} RecordAllLatest(rule: Rule, merged: map<string, seq<Node>>, turns: seq<Turn>, name: string, i: nat)
    requires i < |turns| && Accepted(rule, turns[i]) && name in Names(turns[i].window)
    requires forall j :: i < j < |turns| && Accepted(rule, turns[j]) ==> name !in Names(turns[j].window)
    ensures name in RecordAll(rule, merged, turns) && RecordAll(rule, merged, turns)[name] == turns[i].replacement
    decreases |turns|
  {
    var front := turns[..|turns| - 1];
    if i < |turns| - 1 {
      assert forall j :: 0 <= j < |front| ==> front[j] == turns[j];
      RecordAllLatest(rule, merged, front, name, i);
    } else {
      var x :| x in turns[i].window && x.name == name;
    }
  }

  /**
   * The first node's fields after the merge of a two-node rule, from both nodes' fields before
   * it; a raise in the merge is passed on.
   */
  function PairFused(rule: Rule, pv: NodeView, name: string, cv: NodeView): Result<NodeView>
    requires rule != PixelShuffle
  {
    match rule
    case ConvAdd => ConvAddFused(pv, name, cv)
    case BNBroadcastedMul => BNMulFused(pv, cv)
    case BNBroadcastedAdd => BNAddFused(pv, cv)
    case DropoutRemove => Ok(pv.(outputs := cv.outputs))
  }

  /**
   * A NodesFuser for one rule. `numAdded` is PixelShuffleFuser's count of edge names drawn;
   * the other rules never touch it.
   */
  class NodesFuser {
    const rule: Rule
    const numNodes: nat
    var numAdded: nat

    ghost predicate Valid()
    {
      numNodes == WindowLength(rule)
    }

    constructor (rule: Rule)
      ensures Valid() && this.rule == rule && numAdded == 0
    {
      this.rule := rule;
      numNodes := WindowLength(rule);
      numAdded := 0;
    }

    /**
     * PixelShuffleFuser.merge: Reshape [1, C, s, s, H, W] -> Transpose [0, 1, 4, 2, 5, 3] ->
     * Reshape becomes Reshape [C, s*s, H, W] -> Transpose [0, 2, 1, 3] -> Reshape [C*H, s, s, W]
     * -> Transpose [0, 1, 3, 2] -> the final Reshape. The middle two nodes are new, with the fixed
     * names "pixel_shuffle_reshape" and "pixel_shuffle_transpose"; the five form a chain in which
     * each node feeds the next through a single new edge, and the final node keeps its outputs.
     * The three new edges are named with the counter values `added + 1`, `added + 2` and `added + 3`.
     */
    method PixelShuffleMerge(graph: Graph, reshape1: Node, transpose1: Node, final: Node, added: nat, ghost R: set<Node>)
      returns (merged: seq<Node>)
      requires PixelShuffleEligibility(reshape1.View(), transpose1.View(), final.View()) == Ok(true)
      requires Closed(R) && reshape1 in R && transpose1 in R && final in R
      modifies reshape1, transpose1, final
      ensures |merged| == 5 && merged[0] == reshape1 && merged[1] == transpose1 && merged[4] == final
      ensures merged == [reshape1, transpose1, merged[2], merged[3], final]
      ensures fresh(merged[2]) && fresh(merged[3])
      ensures Closed(R + {merged[2], merged[3]})
      ensures var shape := old(reshape1.attrs["shape"].ints);
        var c, s, h, w := shape[1], shape[2], shape[4], shape[5];
        && reshape1.View() == old(reshape1.View()).(attrs := old(reshape1.attrs)["shape" := IntsAttr([c, s * s, h, w])])
        && transpose1.attrs == old(transpose1.attrs)["perm" := IntsAttr([0, 2, 1, 3])]
        && merged[2].attrs == map["shape" := IntsAttr([c * h, s, s, w])]
        && merged[3].attrs == map["perm" := IntsAttr([0, 1, 3, 2])]
      ensures merged[2].name == "pixel_shuffle_reshape" && merged[2].opType == "Reshape"
      ensures merged[3].name == "pixel_shuffle_transpose" && merged[3].opType == "Transpose"
      ensures reshape1.parents == old(reshape1.parents) && reshape1.children == old(reshape1.children)
      ensures transpose1.parents == old(transpose1.parents) && transpose1.children == [merged[2]]
      ensures merged[2].parents == [transpose1] && merged[2].children == [merged[3]]
      ensures merged[3].parents == [merged[2]] && merged[3].children == [final]
      ensures final.parents == [merged[3]] && final.children == old(final.children)
      ensures transpose1.inputs == old(transpose1.inputs) && transpose1.inputTensors == old(transpose1.inputTensors)
      ensures |transpose1.outputs| == 1 && merged[2].inputs == transpose1.outputs
      ensures |merged[2].outputs| == 1 && merged[3].inputs == merged[2].outputs
      ensures |merged[3].outputs| == 1 && final.inputs == merged[3].outputs
      ensures merged[2].inputTensors == map[] && merged[3].inputTensors == map[]
      ensures final.outputs == old(final.outputs) && final.attrs == old(final.attrs)
      ensures final.inputTensors == old(final.inputTensors)
    {
      PixelShuffleEligibleShapes(reshape1.View(), transpose1.View(), final.View());
      assert reshape1 != final by {
        assert |reshape1.attrs["shape"].ints| != |final.attrs["shape"].ints|;
      }
      var c, s, h, w := RetargetFirstPair(reshape1, transpose1, R);
      var reshape2, transpose2 := BuildMiddle(graph, transpose1, c, s, h, w, added, R);
      AttachFinal(transpose2, final, R + {reshape2, transpose2});
      merged := [reshape1, transpose1, reshape2, transpose2, final];
    }

    /** PixelShuffleMerge, together with what it leaves as it was: every node of `R` outside the window. */
    method ShuffleKept(graph: Graph, reshape1: Node, transpose1: Node, final: Node, added: nat, ghost R: set<Node>)
      returns (merged: seq<Node>)
      requires PixelShuffleEligibility(reshape1.View(), transpose1.View(), final.View()) == Ok(true)
      requires Closed(R) && reshape1 in R && transpose1 in R && final in R
      modifies reshape1, transpose1, final
      ensures |merged| == 5 && merged[0] == reshape1 && merged[1] == transpose1 && merged[4] == final
      ensures merged == [reshape1, transpose1, merged[2], merged[3], final]
      ensures fresh(merged[2]) && fresh(merged[3])
      ensures Closed(R + {merged[2], merged[3]})
      ensures KeptOutside(old(StateOf(R)), StateOf(R + {merged[2], merged[3]}), [merged[0], merged[1], merged[4]])
      ensures ShuffledFields(old(StateOf(R)).views, merged, StateOf(R + {merged[2], merged[3]}).views)
      ensures ShuffledLinks(old(StateOf(R)), merged, StateOf(R + {merged[2], merged[3]}))
    {
      ghost var S0 := StateOf(R);
      label Before:
      merged := PixelShuffleMerge(graph, reshape1, transpose1, final, added, R);
      ghost var S1 := StateOf(R + {merged[2], merged[3]});
      forall n <- S0.views | n !in [merged[0], merged[1], merged[4]]
        ensures SameAt(S0, S1, n)
      {
        assert n in R && n != reshape1 && n != transpose1 && n != final;
        assert unchanged@Before(n);
        assert S1.views[n] == n.View() && S1.parents[n] == n.parents && S1.children[n] == n.children;
      }
      ShuffleRead(R, merged);
    }

    /** PixelShuffleMerge read on the graph's state: the chain it builds, from the state before to the state after. */
    method ShuffleMergeState(graph: Graph, reshape1: Node, transpose1: Node, final: Node, added: nat, ghost R: set<Node>)
      returns (merged: seq<Node>, ghost R': set<Node>)
      requires PixelShuffleEligibility(reshape1.View(), transpose1.View(), final.View()) == Ok(true)
      requires Closed(R) && reshape1 in R && transpose1 in R && final in R
      modifies reshape1, transpose1, final
      ensures |merged| == 5 && merged[0] == reshape1 && merged[1] == transpose1 && merged[4] == final
      ensures merged == [reshape1, transpose1, merged[2], merged[3], final]
      ensures R' == R + {merged[2], merged[3]} && Closed(R') && fresh(R' - R)
      ensures merged[0] != merged[1] && merged[1] != merged[4] && merged[0] != merged[4] && merged[2] != merged[3]
      ensures Keyed(old(StateOf(R))) && Keyed(StateOf(R'))
      ensures merged[2] !in old(StateOf(R)).views && merged[3] !in old(StateOf(R)).views
      ensures StateOf(R').views.Keys == old(StateOf(R)).views.Keys + {merged[2], merged[3]}
      ensures KeptOutside(old(StateOf(R)), StateOf(R'), [merged[0], merged[1], merged[4]])
      ensures ShuffledFields(old(StateOf(R)).views, merged, StateOf(R').views)
      ensures ShuffledLinks(old(StateOf(R)), merged, StateOf(R'))
    {
      ghost var S0 := StateOf(R);
      PixelShuffleEligibleShapes(reshape1.View(), transpose1.View(), final.View());
      merged := ShuffleKept(graph, reshape1, transpose1, final, added, R);
      R' := R + {merged[2], merged[3]};
      FreshPair(R, R', merged[2], merged[3]);
    }

    /**
     * The middle of the pixel-shuffle merge: the Transpose writes a fresh edge, read by a new
     * Reshape [C*H, s, s, W], whose fresh output edge is read by a new Transpose [0, 1, 3, 2]
     * writing a third fresh edge; each new node hangs below the previous one.
     */
    method BuildMiddle(graph: Graph, transpose1: Node, c: int, s: int, h: int, w: int, added: nat, ghost R: set<Node>)
      returns (reshape2: Node, transpose2: Node)
      requires Closed(R) && transpose1 in R && transpose1.children == []
      modifies transpose1
      ensures fresh(reshape2) && fresh(transpose2) && reshape2 != transpose2
      ensures Closed(R + {reshape2, transpose2})
      ensures transpose1.View() == old(transpose1.View()).(outputs := reshape2.inputs)
      ensures transpose1.parents == old(transpose1.parents) && transpose1.children == [reshape2]
      ensures reshape2.name == "pixel_shuffle_reshape" && reshape2.opType == "Reshape"
      ensures reshape2.attrs == map["shape" := IntsAttr([c * h, s, s, w])]
      ensures |reshape2.inputs| == 1 && |reshape2.outputs| == 1 && reshape2.inputTensors == map[]
      ensures reshape2.parents == [transpose1] && reshape2.children == [transpose2]
      ensures transpose2.name == "pixel_shuffle_transpose" && transpose2.opType == "Transpose"
      ensures transpose2.attrs == map["perm" := IntsAttr([0, 1, 3, 2])]
      ensures transpose2.inputs == reshape2.outputs && |transpose2.outputs| == 1 && transpose2.inputTensors == map[]
      ensures transpose2.parents == [reshape2] && transpose2.children == []
    {
      var transposeEdge := Graphs.UniqueEdgeName(graph, NumberedName("pixel_shuffle_transpose", added + 1));
      transpose1.outputs := [transposeEdge];
      ghost var view := transpose1.View();
      assert view == old(transpose1.View()).(outputs := [transposeEdge]);
      reshape2 := Extend(graph, transpose1, "pixel_shuffle_reshape", "Reshape",
                         map["shape" := IntsAttr([c * h, s, s, w])], added + 2, R);
      assert reshape2.inputs == [transposeEdge];
      transpose2 := Extend(graph, reshape2, "pixel_shuffle_transpose", "Transpose",
                           map["perm" := IntsAttr([0, 1, 3, 2])], added + 3, R + {reshape2});
      assert transpose1.View() == view;
      assert R + {reshape2} + {transpose2} == R + {reshape2, transpose2};
    }

    /**
     * A node named `name` below `above`, reading `above`'s outputs and writing the edge the graph
     * has free for `name` numbered with the counter value `count`.
     */
    method Extend(graph: Graph, above: Node, name: string, opType: string, attrs: map<string, Attr>, count: nat, ghost R: set<Node>)
      returns (n: Node)
      requires Closed(R) && above in R && above.children == []
      modifies above
      ensures n.outputs == [old(Graphs.UniqueEdgeName(graph, NumberedName(name, count)))]
      ensures fresh(n) && Closed(R + {n})
      ensures n.name == name && n.opType == opType && n.attrs == attrs
      ensures n.inputs == above.outputs && |n.outputs| == 1 && n.inputTensors == map[]
      ensures n.parents == [above] && n.children == [] && above.children == [n]
      ensures above.View() == old(above.View()) && above.parents == old(above.parents)
    {
      var edge := Graphs.UniqueEdgeName(graph, NumberedName(name, count));
      n := NewBelow(above, name, opType, attrs, edge, R);
    }

    /**
     * `self.merge(graph, nodes_window)` for an eligible window of this fuser's rule. `added` is
     * the fuser's count of edge names drawn when the merge begins, and `added'` when it ends.
     */
    method Merge(graph: Graph, window: seq<Node>, added: nat, ghost R: set<Node>)
      returns (r: Result<seq<Node>>, added': nat, ghost R': set<Node>)
      requires Valid() && |window| == numNodes
      requires Eligibility(rule, Views(window)) == Ok(true)
      requires Closed(R) && forall x <- window :: x in R
      modifies window
      ensures Closed(R') && R <= R' && fresh(R' - R)
      ensures rule != PixelShuffle ==> R' == R && added' == added
      ensures rule == PixelShuffle ==> r.Ok? && added' == added + 3
      ensures !r.Ok? || Merged(rule, old(StateOf(R)), window, r.value, StateOf(R'))
      ensures !r.Fail? || MergeMayRaise(rule, old(StateOf(R)), window, r.error)
    {
      R', added' := R, added;
      if rule == PixelShuffle {
        ghost var S0 := StateOf(R);
        var merged;
        merged, R' := ShuffleMergeState(graph, window[0], window[1], window[2], added, R);
        ShuffleMergedOfParts(S0, merged, StateOf(R'));
        r, added' := Ok(merged), added + 3;
      } else if window[0] != window[1] {
        r := MergePairState(window[0], window[1], R);
      } else {
        r := MergePair(window[0], window[1], R);
      }
    }

    /** The merge of the two-node rules; each keeps the window's first node as the replacement. */
    method MergePair(parent: Node, child: Node, ghost R: set<Node>) returns (r: Result<seq<Node>>)
      requires rule != PixelShuffle
      requires Closed(R) && parent in R && child in R
      modifies parent, child
      ensures Closed(R)
      ensures r.Ok? ==> r.value == [parent]
      ensures parent != child ==>
        (r.Ok? <==> PairFused(rule, old(parent.View()), parent.name, old(child.View())).Ok?
                    && child in old(parent.children) && parent in old(child.parents))
      ensures parent != child && r.Fail? ==>
        var fused := PairFused(rule, old(parent.View()), parent.name, old(child.View()));
        r.error == if fused.Fail? then fused.error else ValueError
      ensures parent != child && r.Ok? ==>
        && parent.View() == PairFused(rule, old(parent.View()), parent.name, old(child.View())).value
        && parent.children == RemoveFirst(old(parent.children), child) && parent.parents == old(parent.parents)
        && child.parents == RemoveFirst(old(child.parents), parent) && child.children == old(child.children)
        && child.View() == old(child.View())
    {
      match rule
      case ConvAdd =>
        r := ConvAddMerge(parent, child, R);
      case BNBroadcastedMul =>
        r := BNMulMerge(parent, child, R);
      case BNBroadcastedAdd =>
        r := BNAddMerge(parent, child, R);
      case DropoutRemove =>
        r := DropoutMerge(parent, child, R);
    }

    /** MergePair read on the graph's state: the pair merge from the state before to the state after, or the reason it raised. */
    method MergePairState(parent: Node, child: Node, ghost R: set<Node>) returns (r: Result<seq<Node>>)
      requires rule != PixelShuffle && parent != child
      requires Closed(R) && parent in R && child in R
      modifies parent, child
      ensures Closed(R)
      ensures r.Ok? ==> r.value == [parent]
      ensures r.Ok? <==> PairFused(rule, old(parent.View()), parent.name, old(child.View())).Ok?
                         && child in old(parent.children) && parent in old(child.parents)
      ensures r.Ok? ==>
        && parent.View() == PairFused(rule, old(parent.View()), parent.name, old(child.View())).value
        && parent.children == RemoveFirst(old(parent.children), child) && parent.parents == old(parent.parents)
        && child.parents == RemoveFirst(old(child.parents), parent) && child.children == old(child.children)
        && child.View() == old(child.View())
      ensures r.Ok? ==> PairMerged(rule, old(StateOf(R)), parent, child, StateOf(R))
      ensures r.Fail? ==> !PairMergeable(rule, old(StateOf(R)), parent, child)
      ensures r.Fail? ==> r.error == PairRaise(rule, old(StateOf(R)), parent, child)
    {
      ghost var S0 := StateOf(R);
      label Before:
      r := MergePair(parent, child, R);
      ghost var S1 := StateOf(R);
      forall n <- S0.views | n !in [parent, child]
        ensures SameAt(S0, S1, n)
      {
        assert unchanged@Before(n);
      }
    }

    /**
     * The boundary rewiring after a merge: each parent of the window's first node drops it and
     * gets the replacement's head as a child, and each child of the window's last node drops it
     * and gets the replacement's tail as a parent. Both lists are walked as they stand, and the
     * walk does not change them. A link missing on the way is a ValueError.
     *
     * `H` is the graph's state between the two walks. The first walk rewires the children of
     * `first`'s parents and may append to `head`'s parents; the second rewires the parents of the
     * children `last` has in `H` (its old children, unless `last` is itself a parent of `first`)
     * and may append to `tail`'s children. No other link and no node's fields change; a first
     * walk that raises leaves the second untaken.
     */
    method Rewire(window: seq<Node>, replacement: seq<Node>, ghost R: set<Node>) returns (r: Result<()>, ghost H: GraphState)
      requires Closed(R) && window != [] && window[0] in R && window[|window| - 1] in R
      requires replacement != [] && replacement[0] in R && replacement[|replacement| - 1] in R
      modifies R`children, R`parents
      ensures Closed(R)
      ensures Rewired(old(StateOf(R)), window, replacement, H, StateOf(R))
      ensures r.Ok? <==> RewireWalks(old(StateOf(R)), window, replacement, H)
      ensures r.Ok? ==> RewireWalked(old(StateOf(R)), window, replacement, H, StateOf(R))
      ensures r.Fail? ==> r.error == ValueError
    {
      var first, last, head, tail := window[0], window[|window| - 1], replacement[0], replacement[|replacement| - 1];
      ghost var S0 := StateOf(R);
      r := HeadWalk(first, head, R);
      H := StateOf(R);
      if r.Fail? {
        assert tail.children[..|tail.children|] == tail.children;
        RewiredOf(S0, window, replacement, H, H, false);
        return;
      }
      r := TailWalk(last, tail, R);
      RewiredOf(S0, window, replacement, H, StateOf(R), r.Ok?);
    }

    /** The first walk of the rewiring, read on the graph's state: RewireParents, which changes links only. */
    method HeadWalk(first: Node, head: Node, ghost R: set<Node>) returns (r: Result<()>)
      requires Closed(R) && first in R && head in R
      modifies R`children, R`parents
      ensures Closed(R) && StateOf(R).views == old(StateOf(R)).views
      ensures Traded(old(StateOf(R)).children, old(StateOf(R)).parents, first, head, StateOf(R).children, StateOf(R).parents)
      ensures r.Ok? <==> Walkable(old(StateOf(R)).children, old(StateOf(R)).parents[first], first, head)
      ensures r.Ok? ==> Walked(old(StateOf(R)).children, old(StateOf(R)).parents[first], first, head, StateOf(R).children)
      ensures StateOf(R).parents[first] == old(StateOf(R)).parents[first]
      ensures r.Ok? ==> Adopted(old(StateOf(R)).children, old(StateOf(R)).parents[first], head, StateOf(R).parents)
      ensures r.Ok? ==> StateOf(R).parents[head]
                        == Adoptions(old(StateOf(R)).children, old(StateOf(R)).parents[first], first, head, old(StateOf(R)).parents[head])
      ensures r.Fail? ==> r.error == ValueError
    {
      ghost var C, P;
      r, C, P := RewireParents(first, head, R, ChildLists(R), ParentLists(R));
      LinkedLists(R, C, P);
      ViewsKept(R);
    }

    /** The second walk of the rewiring, read on the graph's state: RewireChildren, which changes links only. */
    method TailWalk(last: Node, tail: Node, ghost R: set<Node>) returns (r: Result<()>)
      requires Closed(R) && last in R && tail in R
      modifies R`children, R`parents
      ensures Closed(R) && StateOf(R).views == old(StateOf(R)).views
      ensures Traded(old(StateOf(R)).parents, old(StateOf(R)).children, last, tail, StateOf(R).parents, StateOf(R).children)
      ensures r.Ok? <==> Walkable(old(StateOf(R)).parents, old(StateOf(R)).children[last], last, tail)
      ensures r.Ok? ==> Walked(old(StateOf(R)).parents, old(StateOf(R)).children[last], last, tail, StateOf(R).parents)
      ensures StateOf(R).children[last] == old(StateOf(R)).children[last]
      ensures r.Ok? ==> Adopted(old(StateOf(R)).parents, old(StateOf(R)).children[last], tail, StateOf(R).children)
      ensures r.Ok? ==> StateOf(R).children[tail]
                        == Adoptions(old(StateOf(R)).parents, old(StateOf(R)).children[last], last, tail, old(StateOf(R)).children[tail])
      ensures r.Fail? ==> r.error == ValueError
    {
      ghost var C, P;
      r, C, P := RewireChildren(last, tail, R, ChildLists(R), ParentLists(R));
      LinkedLists(R, C, P);
      ViewsKept(R);
    }

    /**
     * The first half of the rewiring: every parent of `first` trades it for `head`, turn by turn,
     * as often as it is listed among `first`'s parents. `C0` and `P0` are every node's children
     * and parents before it, `C` and `P` after it.
     */
    method RewireParents(first: Node, head: Node, ghost R: set<Node>, ghost C0: map<Node, seq<Node>>,
                         ghost P0: map<Node, seq<Node>>)
      returns (r: Result<()>, ghost C: map<Node, seq<Node>>, ghost P: map<Node, seq<Node>>)
      requires Closed(R) && first in R && head in R && Linked(R, C0, P0)
      modifies R`children, R`parents
      ensures Closed(R) && Linked(R, C, P)
      ensures P[first] == P0[first]
      ensures Traded(C0, P0, first, head, C, P)
      ensures r.Ok? <==> Walkable(C0, P0[first], first, head)
      ensures r.Ok? ==> Walked(C0, P0[first], first, head, C)
      ensures r.Ok? ==> Adopted(C0, P0[first], head, P)
      ensures r.Ok? ==> P[head] == Adoptions(C0, P0[first], first, head, P0[head])
      ensures r.Fail? ==> r.error == ValueError
    {
      ghost var ps := first.parents;
      C, P := C0, P0;
      assert forall p <- ps :: p in C0;
      var i := 0;
      while i < |first.parents|
        invariant Closed(R) && Linked(R, C, P)
        invariant P[first] == ps && 0 <= i <= |ps|
        invariant Walked(C0, ps[..i], first, head, C)
        invariant Untouched(P0, [head], P)
        invariant Grown(P0[head], P[head], ps)
        invariant Adopted(C0, ps[..i], head, P)
        invariant P[head] == Adoptions(C0, ps[..i], first, head, P0[head])
        decreases |ps| - i
      {
        assert i < |ps|;
        r, C, P, i := ParentTurn(first, head, R, C0, P0, ps, i, C, P);
        if r.Fail? {
          return;
        }
      }
      assert ps[..i] == ps;
      WalkedUntouched(C0, ps, ps, first, head, C);
      r := Ok(());
    }

    /**
     * The second half of the rewiring: every child of `last` trades it for `tail`, turn by turn,
     * as often as it is listed among `last`'s children. `C0` and `P0` are every node's children
     * and parents before it, `C` and `P` after it.
     */
    method RewireChildren(last: Node, tail: Node, ghost R: set<Node>, ghost C0: map<Node, seq<Node>>,
                          ghost P0: map<Node, seq<Node>>)
      returns (r: Result<()>, ghost C: map<Node, seq<Node>>, ghost P: map<Node, seq<Node>>)
      requires Closed(R) && last in R && tail in R && Linked(R, C0, P0)
      modifies R`children, R`parents
      ensures Closed(R) && Linked(R, C, P)
      ensures C[last] == C0[last]
      ensures Traded(P0, C0, last, tail, P, C)
      ensures r.Ok? <==> Walkable(P0, C0[last], last, tail)
      ensures r.Ok? ==> Walked(P0, C0[last], last, tail, P)
      ensures r.Ok? ==> Adopted(P0, C0[last], tail, C)
      ensures r.Ok? ==> C[tail] == Adoptions(P0, C0[last], last, tail, C0[tail])
      ensures r.Fail? ==> r.error == ValueError
    {
      ghost var kids := last.children;
      C, P := C0, P0;
      assert forall c <- kids :: c in P0;
      var k := 0;
      while k < |last.children|
        invariant Closed(R) && Linked(R, C, P)
        invariant C[last] == kids && 0 <= k <= |kids|
        invariant Walked(P0, kids[..k], last, tail, P)
        invariant Untouched(C0, [tail], C)
        invariant Grown(C0[tail], C[tail], kids)
        invariant Adopted(P0, kids[..k], tail, C)
        invariant C[tail] == Adoptions(P0, kids[..k], last, tail, C0[tail])
        decreases |kids| - k
      {
        assert k < |kids|;
        r, C, P, k := ChildTurn(last, tail, R, C0, P0, kids, k, C, P);
        if r.Fail? {
          return;
        }
      }
      assert kids[..k] == kids;
      WalkedUntouched(P0, kids, kids, last, tail, P);
      r := Ok(());
    }

    /** The turn of the `i`-th parent of `first` in the first half of the rewiring. */
    method ParentTurn(first: Node, head: Node, ghost R: set<Node>, ghost C0: map<Node, seq<Node>>,
                      ghost P0: map<Node, seq<Node>>, ghost ps: seq<Node>, i: nat,
                      ghost C: map<Node, seq<Node>>, ghost P: map<Node, seq<Node>>)
      returns (r: Result<()>, ghost C': map<Node, seq<Node>>, ghost P': map<Node, seq<Node>>, next: nat)
      requires Closed(R) && Linked(R, C, P) && first in R && head in R
      requires i < |ps| && P[first] == ps && forall p <- ps :: p in C0
      requires Walked(C0, ps[..i], first, head, C) && Untouched(P0, [head], P) && Grown(P0[head], P[head], ps)
      requires Adopted(C0, ps[..i], head, P) && P[head] == Adoptions(C0, ps[..i], first, head, P0[head])
      modifies R`children, R`parents
      ensures Closed(R) && Linked(R, C', P')
      ensures r.Fail? ==> r.error == ValueError
      ensures r.Fail? ==> !Walkable(C0, ps, first, head) && Untouched(C0, ps, C')
      ensures r.Fail? ==> Untouched(P0, [head], P') && Grown(P0[head], P'[head], ps)
      ensures P'[first] == ps
      ensures next == i + 1 && (r.Ok? ==> Walked(C0, ps[..next], first, head, C'))
      ensures r.Ok? ==> Adopted(C0, ps[..next], head, P')
      ensures r.Ok? ==> P'[head] == Adoptions(C0, ps[..next], first, head, P0[head])
      ensures r.Ok? ==> Untouched(P0, [head], P') && Grown(P0[head], P'[head], ps)
    {
      next := i + 1;
      var parent := first.parents[i];
      assert parent == ps[i];
      r, C', P' := ReplaceChild(parent, first, head, R, C, P);
      TurnStep(C0, P0, ps, i, first, head, C, P, C', P');
      if r.Ok? {
        AdoptedStep(C0, ps, i, first, head, C, P, P');
        AdoptionsStep(C0, ps, i, first, head, C, P0[head]);
      }
    }

    /** The turn of the `k`-th child of `last` in the second half of the rewiring. */
    method ChildTurn(last: Node, tail: Node, ghost R: set<Node>, ghost C0: map<Node, seq<Node>>,
                     ghost P0: map<Node, seq<Node>>, ghost kids: seq<Node>, k: nat,
                     ghost C: map<Node, seq<Node>>, ghost P: map<Node, seq<Node>>)
      returns (r: Result<()>, ghost C': map<Node, seq<Node>>, ghost P': map<Node, seq<Node>>, next: nat)
      requires Closed(R) && Linked(R, C, P) && last in R && tail in R
      requires k < |kids| && C[last] == kids && forall c <- kids :: c in P0
      requires Walked(P0, kids[..k], last, tail, P) && Untouched(C0, [tail], C) && Grown(C0[tail], C[tail], kids)
      requires Adopted(P0, kids[..k], tail, C) && C[tail] == Adoptions(P0, kids[..k], last, tail, C0[tail])
      modifies R`children, R`parents
      ensures Closed(R) && Linked(R, C', P')
      ensures r.Fail? ==> r.error == ValueError
      ensures r.Fail? ==> !Walkable(P0, kids, last, tail) && Untouched(P0, kids, P')
      ensures r.Fail? ==> Untouched(C0, [tail], C') && Grown(C0[tail], C'[tail], kids)
      ensures C'[last] == kids
      ensures next == k + 1 && (r.Ok? ==> Walked(P0, kids[..next], last, tail, P'))
      ensures r.Ok? ==> Adopted(P0, kids[..next], tail, C')
      ensures r.Ok? ==> C'[tail] == Adoptions(P0, kids[..next], last, tail, C0[tail])
      ensures r.Ok? ==> Untouched(C0, [tail], C') && Grown(C0[tail], C'[tail], kids)
    {
      next := k + 1;
      var child := last.children[k];
      assert child == kids[k];
      r, C', P' := ReplaceParent(child, last, tail, R, C, P);
      TurnStep(P0, C0, kids, k, last, tail, P, C, P', C');
      if r.Ok? {
        AdoptedStep(P0, kids, k, last, tail, P, C, C');
        AdoptionsStep(P0, kids, k, last, tail, P, C0[tail]);
      }
    }

    /**
     * What `merged_nodes` holds between two turns of NodesFuser.__call__: non-empty replacements
     * of the rule's length, made of nodes of `R`; outside the pixel shuffle, a replacement is the
     * window's first node, which is one of the listed nodes.
     */
    ghost predicate Recorded(merged: map<string, seq<Node>>, R: set<Node>, nodes: seq<Node>)
    {
      && NonEmptyReplacements(merged)
      && (forall name <- merged :: |merged[name]| == if rule == PixelShuffle then 5 else 1)
      && (forall name <- merged :: forall n <- merged[name] :: n in R)
      && (rule != PixelShuffle ==> forall name <- merged :: merged[name][0] in nodes)
    }

    /**
     * A record stays one when a merge's replacement, made of nodes of `R'`, is written over it:
     * it has the rule's shape, and a two-node rule's replacement is its window's first node.
     */
    lemma RecordedOverwrite(merged: map<string, seq<Node>>, window: seq<Node>, replacement: seq<Node>,
                            R: set<Node>, R': set<Node>, nodes: seq<Node>, S: GraphState, S': GraphState)
      ensures && Recorded(merged, R, nodes) && R <= R' && Merged(rule, S, window, replacement, S')
              && (forall x <- replacement :: x in R') && (rule != PixelShuffle ==> window[0] in nodes)
              ==> Recorded(Overwrite(merged, window, replacement), R', nodes)
    {
      if Merged(rule, S, window, replacement, S') {
        assert |replacement| == (if rule == PixelShuffle then 5 else 1) && replacement != [];
        assert rule != PixelShuffle ==> replacement[0] == window[0];
      }
    }

    /**
     * The window of NodesFuser.__call__'s visit of `node`, and what the visit saw: the graph's
     * state, the window and its nodes' fields. Nothing changes.
     */
    method CollectTurn(node: Node, ghost Repr: set<Node>) returns (window: seq<Node>, ghost turn: Turn)
      requires Valid() && Closed(Repr) && node in Repr
      ensures turn.window == window && turn.replacement == [] && turn.views == Views(window)
      ensures turn.before == StateOf(Repr) && turn.after == turn.before && Visit(rule, turn, node)
      ensures forall x <- window :: x in Repr
      ensures Closed(Repr) && turn.before == old(StateOf(Repr))
    {
      window := CollectWindow(node, numNodes, Repr);
      if window != [] {
        ChainInside(window, Repr);
      }
      CollectedNow(Repr, node, numNodes, window);
      turn := Turn(StateOf(Repr), window, Views(window), [], StateOf(Repr), StateOf(Repr), StateOf(Repr));
    }

    /**
     * One turn of NodesFuser.__call__, at `node`. The window collected above it is handed to the
     * rule only when it is full; a full window the rule accepts is merged, rewired and recorded
     * under its nodes' names. Otherwise the record comes back as it was, or the rule's raise does.
     * `turn` says what this visit saw: the window, its nodes' fields before the turn, and the
     * replacement.
     */
    method FuseAt(graph: Graph, node: Node, added: nat, mergedNodes: map<string, seq<Node>>, ghost Repr: set<Node>)
      returns (r: Result<map<string, seq<Node>>>, added': nat, ghost Repr': set<Node>, ghost turn: Turn)
      requires Valid() && Closed(Repr) && node in Repr
      requires rule != PixelShuffle ==> Repr == NodeSet(graph.nodes)
      requires Recorded(mergedNodes, Repr, graph.nodes)
      modifies Repr
      ensures Visit(rule, turn, node) && turn.before == old(StateOf(Repr)) && turn.after == StateOf(Repr')
      ensures added' == added + Draw(rule, turn)
      ensures Closed(Repr') && Repr <= Repr' && fresh(Repr' - Repr)
      ensures rule != PixelShuffle ==> Repr' == Repr
      ensures VisitEnded(node, turn, mergedNodes, r, Repr', graph.nodes)
    {
      Repr' := Repr;
      var window;
      ghost var t;
      window, t := CollectTurn(node, Repr);
      r, added', Repr', turn := FuseTurn(graph, node, window, added, t, mergedNodes, Repr);
      VisitCarried(rule, t, turn, node);
    }

    /**
     * How the visit `turn` of `node` ended, starting from the record `merged`: completed, with
     * its outcome written over the record and the record still one over `R`, or raised.
     */
    ghost predicate VisitEnded(node: Node, turn: Turn, merged: map<string, seq<Node>>,
                               r: Result<map<string, seq<Node>>>, R: set<Node>, nodes: seq<Node>)
    {
      && (!r.Ok? || (TurnAt(rule, turn, node) && r.value == RecordTurn(rule, merged, turn) && Recorded(r.value, R, nodes)))
      && (!r.Fail? || RaisedAt(rule, turn, r.error))
    }

    /**
     * The rest of the turn at a node whose window is `window` and whose visit is `t`: a full
     * window goes to the rule, and an accepted one is merged, rewired and recorded. A window the
     * rule does not accept changes nothing.
     */
    method FuseTurn(graph: Graph, node: Node, window: seq<Node>, added: nat, ghost t: Turn,
                    mergedNodes: map<string, seq<Node>>, ghost Repr: set<Node>)
      returns (r: Result<map<string, seq<Node>>>, added': nat, ghost Repr': set<Node>, ghost turn: Turn)
      requires Valid() && Closed(Repr) && |window| <= numNodes && forall x <- window :: x in Repr
      requires t.window == window && t.views == Views(window) && Visit(rule, t, node)
      requires t.before == StateOf(Repr) && t.replacement == [] && t.after == t.before
      requires rule != PixelShuffle ==> Repr == NodeSet(graph.nodes)
      requires Recorded(mergedNodes, Repr, graph.nodes)
      modifies Repr
      ensures turn.before == t.before && turn.window == window && turn.views == t.views
      ensures turn.after == StateOf(Repr') && added' == added + Draw(rule, turn)
      ensures Closed(Repr') && Repr <= Repr' && fresh(Repr' - Repr)
      ensures rule != PixelShuffle ==> Repr' == Repr
      ensures VisitEnded(node, turn, mergedNodes, r, Repr', graph.nodes)
    {
      Repr', turn, added' := Repr, t, added;
      var eligible := if |window| == numNodes then Eligibility(rule, Views(window)) else Ok(false);
      if eligible != Ok(true) {
        Declined(rule, t, node, mergedNodes, eligible);
        return if eligible.Fail? then Fail(eligible.error) else Ok(mergedNodes), added', Repr', turn;
      }
      r, added', Repr', turn := FuseAccepted(graph, node, window, added, t, mergedNodes, Repr);
    }

    /** The turn at `node` once the rule accepted its window: merge, rewire, record. */
    method FuseAccepted(graph: Graph, node: Node, window: seq<Node>, added: nat, ghost t: Turn,
                        mergedNodes: map<string, seq<Node>>, ghost Repr: set<Node>)
      returns (r: Result<map<string, seq<Node>>>, added': nat, ghost Repr': set<Node>, ghost turn: Turn)
      requires Valid() && Closed(Repr) && |window| == numNodes && forall x <- window :: x in Repr
      requires t.window == window && t.views == Views(window) && Visit(rule, t, node)
      requires Eligibility(rule, Views(window)) == Ok(true)
      requires t.before == StateOf(Repr)
      requires rule != PixelShuffle ==> Repr == NodeSet(graph.nodes)
      requires Recorded(mergedNodes, Repr, graph.nodes)
      modifies Repr
      ensures turn.before == t.before && turn.window == window && turn.views == t.views
      ensures turn.after == StateOf(Repr') && added' == added + Draw(rule, turn)
      ensures Closed(Repr') && Repr <= Repr' && fresh(Repr' - Repr)
      ensures rule != PixelShuffle ==> Repr' == Repr
      ensures VisitEnded(node, turn, mergedNodes, r, Repr', graph.nodes)
    {
      r, added', Repr', turn := FuseWindow(graph, window, added, mergedNodes, t, Repr);
      Went(rule, t, turn, node, mergedNodes, r);
    }


    /**
     * How the turn `turn` of an accepted window ended, starting from the record `merged`: the
     * window was merged and rewired and its replacement written over the record, which stays one
     * over `R`, or the merge or the rewiring raised.
     */
    ghost predicate WindowEnded(turn: Turn, merged: map<string, seq<Node>>, r: Result<map<string, seq<Node>>>,
                                R: set<Node>, nodes: seq<Node>)
    {
      && (!r.Ok? || (Applied(rule, turn) && r.value == Overwrite(merged, turn.window, turn.replacement)
                     && Recorded(r.value, R, nodes)))
      && (!r.Fail? || Raising(rule, turn, r.error))
    }

    /**
     * The accepted window's turn: merge, rewire the boundary, record the replacement under the
     * window's names. `turn` is the visit `t` with what the turn made of the graph: the
     * replacement, the states after the merge and between the two walks, and the state it left.
     */
    method FuseWindow(graph: Graph, window: seq<Node>, added: nat, mergedNodes: map<string, seq<Node>>,
                      ghost t: Turn, ghost Repr: set<Node>)
      returns (r: Result<map<string, seq<Node>>>, added': nat, ghost Repr': set<Node>, ghost turn: Turn)
      requires Valid() && |window| == numNodes && Eligibility(rule, Views(window)) == Ok(true)
      requires Closed(Repr) && forall x <- window :: x in Repr
      requires rule != PixelShuffle ==> Repr == NodeSet(graph.nodes)
      requires Recorded(mergedNodes, Repr, graph.nodes)
      requires t.before == StateOf(Repr) && t.window == window
      modifies Repr
      ensures Closed(Repr') && Repr <= Repr' && fresh(Repr' - Repr)
      ensures rule != PixelShuffle ==> Repr' == Repr && added' == added
      ensures rule == PixelShuffle ==> added' == added + 3
      ensures SameVisit(t, turn)
      ensures turn.after == StateOf(Repr')
      ensures WindowEnded(turn, mergedNodes, r, Repr', graph.nodes)
    {
      var merged;
      merged, added', Repr' := Merge(graph, window, added, Repr);
      r, turn := Rejoin(graph, window, merged, mergedNodes, t, Repr, Repr');
    }

    /**
     * The accepted window's turn after the merge left the nodes `R` as they are: a merge that
     * raised ends it; otherwise the boundary is rewired and the replacement recorded under the
     * window's names.
     */
    method Rejoin(graph: Graph, window: seq<Node>, merged: Result<seq<Node>>, mergedNodes: map<string, seq<Node>>,
                  ghost t: Turn, ghost R0: set<Node>, ghost R: set<Node>)
      returns (r: Result<map<string, seq<Node>>>, ghost turn: Turn)
      requires Closed(R) && window != [] && window[0] in R && window[|window| - 1] in R
      requires !merged.Ok? || Merged(rule, t.before, window, merged.value, StateOf(R))
      requires !merged.Fail? || MergeMayRaise(rule, t.before, window, merged.error)
      requires t.window == window
      modifies R`children, R`parents
      ensures Closed(R)
      ensures SameVisit(t, turn)
      ensures turn.after == StateOf(R)
      ensures && Recorded(mergedNodes, R0, graph.nodes) && R0 <= R && (rule != PixelShuffle ==> window[0] in graph.nodes)
              ==> WindowEnded(turn, mergedNodes, r, R, graph.nodes)
    {
      if merged.Fail? {
        return Fail(merged.error), t.(after := StateOf(R));
      }
      MergedHeld(rule, t.before, window, merged.value, StateOf(R));
      r, turn := RewireAndRecord(window, merged.value, mergedNodes, t.(replacement := merged.value), R);
      Rewiring(rule, turn, r.Ok?);
      if r.Ok? {
        RecordedOverwrite(mergedNodes, window, merged.value, R0, R, graph.nodes, t.before, turn.fused);
      }
    }

    /**
     * After the merge: the boundary is rewired, then each window node's name records the
     * replacement. `H` is the graph's state between the two walks of the rewiring.
     */
    method RewireAndRecord(window: seq<Node>, replacement: seq<Node>, mergedNodes: map<string, seq<Node>>,
                           ghost t: Turn, ghost R: set<Node>)
      returns (r: Result<map<string, seq<Node>>>, ghost turn: Turn)
      requires Closed(R) && window != [] && window[0] in R && window[|window| - 1] in R
      requires replacement != [] && replacement[0] in R && replacement[|replacement| - 1] in R
      requires t.window == window && t.replacement == replacement
      modifies R`children, R`parents
      ensures Closed(R)
      ensures turn.before == t.before && turn.window == window && turn.views == t.views && turn.replacement == replacement
      ensures turn.fused == old(StateOf(R)) && turn.after == StateOf(R)
      ensures Rewired(turn.fused, window, replacement, turn.relinked, turn.after)
      ensures r.Ok? <==> RewireWalks(turn.fused, window, replacement, turn.relinked)
      ensures r.Ok? ==> RewireWalked(turn.fused, window, replacement, turn.relinked, turn.after)
      ensures r.Ok? ==> r.value == Overwrite(mergedNodes, window, replacement)
      ensures r.Fail? ==> r.error == ValueError
    {
      var recorded := Record(mergedNodes, window, replacement);
      StateKept(R);
      ghost var S0 := StateOf(R);
      var rewired, H := Rewire(window, replacement, R);
      ghost var S1 := StateOf(R);
      turn := t.(fused := S0, relinked := H, after := S1);
      if rewired.Fail? {
        return Fail(rewired.error), turn;
      }
      r := Ok(recorded);
    }

    /**
     * The loop of NodesFuser.__call__: the visit of each node in list order. `turns[i]` is the
     * visit of `graph.nodes[i]`: the graph's state when the visit began, the window collected
     * there, the nodes' fields the rule judged, the replacement of an accepted window, and the
     * states the visit went through. The first visit begins in the graph as it was handed over,
     * each next one where the last ended, and a visit the rule did not accept changes nothing.
     * The record is the replacements written over each other in visiting order, under the names
     * of their windows' nodes. A raise ends the loop; its visit is the last of `turns`, and
     * `merged` is the record made before it. The nodes `Repr` are left as the last visit left
     * them, and the fuser's counter has advanced by the edge names the visits drew.
     */
    method FuseAll(graph: Graph) returns (r: Result<map<string, seq<Node>>>, ghost merged: map<string, seq<Node>>,
                                          ghost turns: seq<Turn>, ghost Repr: set<Node>)
      requires Valid()
      requires Closed(NodeSet(graph.nodes))
      modifies this, graph.nodes
      ensures r.Ok? ==> r.value == merged == RecordAll(rule, map[], turns)
      ensures r.Fail? ==> turns != [] && merged == RecordAll(rule, map[], turns[..|turns| - 1])
      ensures r.Fail? ==> RaisedAt(rule, turns[|turns| - 1], r.error)
      ensures |turns| <= |graph.nodes| && (r.Ok? ==> |turns| == |graph.nodes|)
      ensures r.Fail? ==> Visit(rule, turns[|turns| - 1], graph.nodes[|turns| - 1])
      ensures forall i :: 0 <= i < |turns| && (r.Ok? || i < |turns| - 1) ==> TurnAt(rule, turns[i], graph.nodes[i])
      ensures turns != [] ==> turns[0].before == old(StateOf(NodeSet(graph.nodes)))
      ensures Chained(turns)
      ensures Recorded(merged, Repr, graph.nodes) && NodeSet(graph.nodes) <= Repr && fresh(Repr - NodeSet(graph.nodes))
      ensures turns != [] ==> StateOf(Repr) == turns[|turns| - 1].after
      ensures numAdded == old(numAdded) + Drawn(rule, turns)
    {
      Repr := NodeSet(graph.nodes);
      ghost var initial := StateOf(Repr);
      var added;
      r, added, merged, turns, Repr := FuseLoop(graph, numAdded, Repr, initial);
      Store(added, Repr);
    }

    /** The counter takes the value the pass carried; no node changes. */
    method Store(added: nat, ghost R: set<Node>)
      modifies this`numAdded
      ensures numAdded == added && StateOf(R) == old(StateOf(R))
    {
      numAdded := added;
    }

    /**
     * The loop itself, run from the graph as it was handed over (`initial`): it ends with every
     * node visited, as Progress states, or Halted at the visit that raised. On a raise `Repr'`
     * is the node set as it stood before that visit.
     */
    method FuseLoop(graph: Graph, added: nat, ghost Repr: set<Node>, ghost initial: GraphState)
      returns (r: Result<map<string, seq<Node>>>, added': nat, ghost merged: map<string, seq<Node>>,
               ghost turns: seq<Turn>, ghost Repr': set<Node>)
      requires Valid() && Progress(graph.nodes, 0, map[], [], Repr, initial)
      modifies Repr
      ensures Repr <= Repr' && fresh(Repr' - Repr)
      ensures added' == added + Drawn(rule, turns)
      ensures r.Ok? ==> r.value == merged && Progress(graph.nodes, |graph.nodes|, merged, turns, Repr', initial)
      ensures r.Fail? ==> Halted(graph.nodes, merged, turns, Repr', initial, r.error)
    {
      var mergedNodes: map<string, seq<Node>> := map[];
      turns, Repr', added' := [], Repr, added;
      r := Ok(mergedNodes);
      for idx := 0 to |graph.nodes|
        invariant r == Ok(mergedNodes)
        invariant Progress(graph.nodes, idx, mergedNodes, turns, Repr', initial)
        invariant Repr <= Repr' && fresh(Repr' - Repr)
        invariant added' == added + Drawn(rule, turns)
      {
        ghost var before := turns;
        r, added', Repr', turns := FuseNext(graph, idx, added', mergedNodes, turns, Repr', initial);
        assert turns[..|turns| - 1] == before;
        if r.Fail? {
          break;
        }
        mergedNodes := r.value;
      }
      merged := mergedNodes;
    }

    /**
     * The visits `turns` of the first nodes stopped at a raise `e` in the last: the record made
     * before it is `merged`, each visit before the last is a turn at its node, the first began in
     * `initial`, they are chained, and the nodes of `R` are as the last visit left them.
     */
    ghost predicate Halted(nodes: seq<Node>, merged: map<string, seq<Node>>, turns: seq<Turn>, R: set<Node>,
                           initial: GraphState, e: Error)
      reads R
    {
      && Closed(R) && NodeSet(nodes) <= R
      && 0 < |turns| <= |nodes|
      && merged == RecordAll(rule, map[], turns[..|turns| - 1])
      && Recorded(merged, R, nodes)
      && RaisedAt(rule, turns[|turns| - 1], e)
      && Visit(rule, turns[|turns| - 1], nodes[|turns| - 1])
      && (forall i :: 0 <= i < |turns| - 1 ==> TurnAt(rule, turns[i], nodes[i]))
      && turns[0].before == initial
      && Chained(turns)
      && StateOf(R) == turns[|turns| - 1].after
    }

    /**
     * FuseLoop after the visits `turns` of the first `idx` nodes: the record is theirs, each
     * visit that went through is a turn at its node, the first began in `initial`, the visits are
     * chained, and after a visit the rule did not accept the graph is as that visit found it.
     */
    ghost predicate Progress(nodes: seq<Node>, idx: nat, merged: map<string, seq<Node>>, turns: seq<Turn>,
                             Repr: set<Node>, initial: GraphState)
      reads Repr
    {
      && Closed(Repr) && NodeSet(nodes) <= Repr
      && (rule != PixelShuffle ==> Repr == NodeSet(nodes))
      && Recorded(merged, Repr, nodes)
      && merged == RecordAll(rule, map[], turns)
      && |turns| == idx <= |nodes|
      && (forall i :: 0 <= i < idx ==> TurnAt(rule, turns[i], nodes[i]))
      && (turns == [] ==> StateOf(Repr) == initial)
      && (turns != [] ==> turns[0].before == initial)
      && (turns != [] ==> StateOf(Repr) == turns[|turns| - 1].after)
      && Chained(turns)
    }

    /** The visit of `graph.nodes[idx]` in FuseLoop: one more turn, chained to the last. */
    method FuseNext(graph: Graph, idx: nat, added: nat, mergedNodes: map<string, seq<Node>>, ghost turns: seq<Turn>,
                    ghost Repr: set<Node>, ghost initial: GraphState)
      returns (step: Result<map<string, seq<Node>>>, added': nat, ghost Repr': set<Node>, ghost turns': seq<Turn>)
      requires Valid() && idx < |graph.nodes| && Progress(graph.nodes, idx, mergedNodes, turns, Repr, initial)
      modifies Repr
      ensures Repr <= Repr' && fresh(Repr' - Repr)
      ensures |turns'| == idx + 1 && turns'[..idx] == turns
      ensures added' == added + Draw(rule, turns'[idx])
      ensures step.Ok? ==> Progress(graph.nodes, idx + 1, step.value, turns', Repr', initial)
      ensures step.Fail? ==> Halted(graph.nodes, mergedNodes, turns', Repr', initial, step.error)
    {
      ghost var turn;
      step, added', Repr', turn := FuseAt(graph, graph.nodes[idx], added, mergedNodes, Repr);
      ChainedSnoc(turns, turn);
      VisitsSnoc(rule, turns, turn, graph.nodes);
      if step.Ok? {
        RecordAllSnoc(rule, map[], turns, turn);
        TurnsSnoc(rule, turns, turn, graph.nodes);
      }
      turns' := turns + [turn];
    }

    /** Emit, with the nodes `R` left as they are: the listing reads the graph and changes none of it. */
    method EmitAll(nodes: seq<Node>, merged: map<string, seq<Node>>, ghost R: set<Node>) returns (transformed: seq<Node>)
      requires NonEmptyReplacements(merged)
      ensures transformed == Emitted(nodes, merged) && StateOf(R) == old(StateOf(R))
    {
      transformed := Emit(nodes, merged);
    }

    /**
     * NodesFuser.__call__. The visits and the record are FuseAll's. The result lists the nodes as
     * Emitted describes: untouched nodes in their original order, each replacement once where the
     * window member that comes first in the node list stood. A raise in the rule or on the way
     * aborts the pass.
     */
    method Call(graph: Graph)
      returns (r: Result<Graph>, ghost merged: map<string, seq<Node>>, ghost turns: seq<Turn>, ghost Repr: set<Node>)
      requires Valid()
      requires Closed(NodeSet(graph.nodes))
      modifies this, graph.nodes
      ensures r.Ok? ==> merged == RecordAll(rule, map[], turns)
      ensures r.Fail? ==> turns != [] && merged == RecordAll(rule, map[], turns[..|turns| - 1])
      ensures r.Fail? ==> RaisedAt(rule, turns[|turns| - 1], r.error)
      ensures |turns| <= |graph.nodes| && (r.Ok? ==> |turns| == |graph.nodes|)
      ensures r.Fail? ==> Visit(rule, turns[|turns| - 1], graph.nodes[|turns| - 1])
      ensures forall i :: 0 <= i < |turns| && (r.Ok? || i < |turns| - 1) ==> TurnAt(rule, turns[i], graph.nodes[i])
      ensures turns != [] ==> turns[0].before == old(StateOf(NodeSet(graph.nodes)))
      ensures Chained(turns)
      ensures NonEmptyReplacements(merged)
      ensures forall name <- merged :: |merged[name]| == if rule == PixelShuffle then 5 else 1
      ensures forall name <- merged :: forall n <- merged[name] :: n in graph.nodes || fresh(n)
      ensures rule != PixelShuffle ==> forall name <- merged :: merged[name][0] in graph.nodes
      ensures r.Ok? ==> r.value == Graph(Emitted(graph.nodes, merged), graph.inputs, graph.outputs)
      ensures r.Ok? ==> IsSubseq(Unmerged(graph.nodes, merged), r.value.nodes)
      ensures r.Ok? && merged == map[] ==> r.value.nodes == graph.nodes
      ensures NodeSet(graph.nodes) <= Repr && fresh(Repr - NodeSet(graph.nodes))
      ensures turns != [] ==> StateOf(Repr) == turns[|turns| - 1].after
      ensures numAdded == old(numAdded) + Drawn(rule, turns)
    {
      var step;
      step, merged, turns, Repr := FuseAll(graph);
      if step.Fail? {
        return Fail(step.error), merged, turns, Repr;
      }
      var nodes, mergedNodes := graph.nodes, step.value;
      var transformed := EmitAll(nodes, mergedNodes, Repr);
      EmittedKeepsUnmergedOrder(nodes, mergedNodes);
      if mergedNodes == map[] {
        EmittedWithoutMerges(nodes);
      }
      r := Ok(Graph(transformed, graph.inputs, graph.outputs));
    }
  }
}
