# onnx-coreml graph transformers, modelled in Dafny

The ONNX to CoreML converter rewrites an ONNX graph before it translates it. The graph is a list
of nodes. Each node has an operator type, attributes, ordered input and output edge names, and
constant tensors keyed by input edge. Parent and child links are kept on both sides. The
rewriting passes in `onnx_coreml/_transformers.py` change this graph in place. This project
models those passes and proves what each one does.

- **NodesFuser** (modules `Windows`, `Rules`, `Merges`, `Fusers`):
  - For each node, the pass walks up single-parent / single-child links to collect a window of
    the rule's length.
  - It asks the rule whether the window is eligible, and if so merges it in place.
  - It then rewires the window's boundary and records the replacement under the names of the
    window's nodes.
  - Finally it re-emits the node list. Each replacement stands where the member of its window
    that comes first in the node list stood, which need not be the window's first node.
  - The five rules are ConvAdd, BatchNorm-Mul, BatchNorm-Add, Dropout removal and pixel shuffle.
    The pixel-shuffle rule turns a 6-d Reshape / Transpose / Reshape chain into five 4-d nodes.
- **ReshapeInitTensorFuser** (`ReshapeFold`): a Reshape with exactly one constant, sitting on its
  first input, is computed once; its other inputs need not be constants. The result is handed to
  the node's children, and the Reshape leaves the node list.
- **DanglingOutputsRemover** (`Dangling`): every node drops the outputs that are neither graph
  outputs nor read by one of its children.
- **OutputRenamer** (`Renaming`): renames outputs through a mapping that is used up as it is
  applied. Each rename is propagated to the children's inputs.
  - `Renaming.Pass` is the reference definition of the whole pass.
  - `Renaming.PassFirstOccurrence` gives it in closed form: each key renames the first slot that
    carries it, in visiting order.
  - Renames can chain inside one node, as `Renaming.ChainedRenames` shows. With outputs `[a, b]`
    and the mapping `{a: b, b: c}`, a child that read `a` ends up reading `c`.
    `Renaming.ReplaceAllUnchained` shows the renames are exact when no new name is also an old
    name.
  - Declared graph outputs are not renamed, because the source does not rename them either.

Nodes are a Dafny `class`, since the passes update their fields in place. The ghost set `R`
together with `Closed(R)` keeps every neighbour of a touched node inside the method's frame.

Python exceptions are a `Fail` result carrying an `Error` value: KeyError, IndexError,
ValueError from `list.remove`, TypeError, and AssertionError. Whatever the pass changed before
the raise stays changed, as in Python.

Tensors are a shape plus their elements in row-major order, with integer elements.
`ReshapeInitTensorFuser` reads the single constant's key with `input_tensors.keys()[0]`. That is
the Python 2 reading the file's `__future__` imports point to: the one key of a one-entry
dictionary.

## Model

| member | source | states |
|---|---|---|
| Graphs.Node.constructor | onnx_coreml/_transformers.py:399-405 | a new node has the given name, type, attributes, inputs and outputs, no constants and no links |
| Graphs.Node.AddChild | onnx_coreml/_transformers.py:406 | `add_child` appends the child, and appends this node to the child's parents unless it is already there; nothing else changes |
| Graphs.Node.AddParent | onnx_coreml/_transformers.py:54 | `add_parent` appends the parent, and appends this node to the parent's children unless it is already there |
| Graphs.UniqueEdgeName | onnx_coreml/_transformers.py:361 | the edge name drawn is used by no node and no declared graph input or output; the requested name itself when it is free |
| Sequences.RemoveFirst | onnx_coreml/_transformers.py:48 | `list.remove` drops exactly one element: the length falls by one and no new element appears |
| Sequences.RemoveFirstCount | onnx_coreml/_transformers.py:48 | `list.remove(x)` takes exactly one copy of x away: the multiset of the list loses one x and keeps every other element |
| Sequences.Filter | onnx_coreml/_transformers.py:279-280 | a list comprehension with a condition keeps only elements of the list that pass the test |
| Sequences.FilterIsSubseq | onnx_coreml/_transformers.py:255 | the filtered list is a subsequence of the original: the order is kept |
| Sequences.FilterCount | onnx_coreml/_transformers.py:279-280 | a kept element keeps all its occurrences, and a dropped element keeps none |
| Tensors.Zeros | onnx_coreml/_transformers.py:118-120 | `np.zeros((n,))` is a well-formed 1-d tensor of n zeros |
| Tensors.Elementwise | onnx_coreml/_transformers.py:122 | an elementwise operation succeeds exactly on equal shapes, and each element is the operation applied to the two operands' elements at that index |
| Tensors.Reshape | onnx_coreml/_transformers.py:249 | a reshape keeps the elements in order and is well formed; explicit dimensions are kept; for a shape of non-negative dimensions it succeeds exactly when the element counts agree |
| Tensors.InferredShape | onnx_coreml/_transformers.py:249 | the dimension inferred for a single -1 makes the shape non-negative and describe exactly the tensor's elements |
| Tensors.FillProduct | onnx_coreml/_transformers.py:249 | filling the one -1 with v multiplies the known product by v; a shape without -1 is unchanged |
| Windows.CollectWindow | onnx_coreml/_transformers.py:22-40 | the window is empty or has 2 to k nodes, ends at the node, is a strict single-link chain, and is full exactly when the k-1 links above the node are linear; no node changes |
| Windows.CollectedNow | onnx_coreml/_transformers.py:22-40 | a window collected on the live nodes is `Collected` in the link lists of the graph's current state |
| Windows.CollectedLinks | onnx_coreml/_transformers.py:22-40 | conversely, a window `Collected` in the current link lists lies in the graph, is a strict chain, and is full exactly when the links above the node are linear |
| Windows.AncestorAgrees | onnx_coreml/_transformers.py:27-33 | following first parents t times on the live nodes stays in the graph and reaches the node the parent lists of its current state lead to |
| Windows.CollectedAncestor | onnx_coreml/_transformers.py:22-40 | in a full window, the node j places before the visited node is the one reached by following first parents j times |
| Windows.CollectedFull | onnx_coreml/_transformers.py:22-40 | a full window lists the visited node's first-parent ancestors, farthest first, ending at the node |
| Windows.Emit | onnx_coreml/_transformers.py:58-68 | the emission loop returns `Emitted`, the reference definition of the re-emitted node list |
| Windows.EmittedWithoutMerges | onnx_coreml/_transformers.py:58-68 | with nothing recorded, the node list comes back unchanged |
| Windows.EmittedKeepsUnmergedOrder | onnx_coreml/_transformers.py:58-68 | the untouched nodes survive in their original relative order |
| Windows.EmittedCountsUnmerged | onnx_coreml/_transformers.py:60-68 | an untouched node that no replacement reuses occurs as often in the output as in the input |
| Windows.HeadsComplete | onnx_coreml/_transformers.py:61-66 | after the loop, `added_merged` holds the head of every recorded replacement met |
| Windows.EmittedHeadCount | onnx_coreml/_transformers.py:61-66 | a replacement head occurs once in the output when it has been added, and not at all otherwise |
| Windows.EmittedHeadOnce | onnx_coreml/_transformers.py:61-66 | each recorded replacement is emitted exactly once |
| Windows.EmittedPrefix | onnx_coreml/_transformers.py:58-68 | the output for a prefix of the nodes is a prefix of the output |
| Windows.EmittedAtFirstMember | onnx_coreml/_transformers.py:61-66 | a replacement is emitted where the first of its members stood |
| Rules.Eligibility | onnx_coreml/_transformers.py:88-357 | only the BatchNorm-Mul check (Mul with fewer than two inputs) and the pixel-shuffle check (missing or scalar `shape`) can raise; a missing or non-1 `broadcast` or `axis` means not eligible; Dropout removal is eligible exactly when the second node is a Dropout |
| Rules.PixelShuffleEligibleShapes | onnx_coreml/_transformers.py:321-357 | an eligible pixel-shuffle window is Reshape [1, C, s, s, H, W], Transpose [0, 1, 4, 2, 5, 3], Reshape [b, C, H*s, W*s] |
| Rules.PixelShuffleEligibleForAnyBatch | onnx_coreml/_transformers.py:321-357 | conversely, every window of that form is eligible, whatever the final batch entry b |
| Merges.InputTensor | onnx_coreml/_transformers.py:111 | `input_tensors[inputs[i]]` is the constant on the i-th input; it raises IndexError for a missing input and KeyError for a non-constant one |
| Merges.Lookup | onnx_coreml/_transformers.py:114 | a dictionary lookup succeeds exactly when the key is present |
| Merges.ConvBias | onnx_coreml/_transformers.py:112-121 | the Conv's bias is its third input's constant, or zeros with one per output channel when it has no third input |
| Merges.ConvAddFusedBias | onnx_coreml/_transformers.py:109-124 | the fused Conv gets `<name>_bias` appended when it had two inputs; its third input's constant is the old bias plus the Add's constant, channel by channel; it takes over the Add's outputs; its other constants are unchanged |
| Merges.ConvWithoutBiasTakesAddend | onnx_coreml/_transformers.py:115-123 | a Conv without bias ends with exactly the Add's constant as its bias |
| Merges.ConvBiasDoubles | onnx_coreml/_transformers.py:113-123 | when the bias and the Add's constant are the same tensor, the new bias is twice it |
| Merges.ConvAddFusedOutput | onnx_coreml/_transformers.py:122-123 | the fusion preserves the computation: each channel's fused output equals the Conv's output plus the Add's constant |
| Merges.BNMulFusedOutput | onnx_coreml/_transformers.py:155-162 | the fused BatchNorm computes (scale * x + bias) * W on every channel, even when scale and bias share one edge |
| Merges.BNAddFusedOutput | onnx_coreml/_transformers.py:195-200 | the fused BatchNorm computes (scale * x + bias) + b on every channel |
| Merges.Unlink | onnx_coreml/_transformers.py:125-126 | it gets through exactly when both links exist; the first occurrence is then removed on each side; a missing link is a ValueError; both nodes keep their fields |
| Merges.ConvAddMerge | onnx_coreml/_transformers.py:109-127 | the merge succeeds exactly when `ConvAddFused` does and the link exists; the Conv then has the fused fields; the link is cut on both sides; the replacement is the Conv alone; a raise carries the fusion's own error (IndexError, KeyError, ValueError or ShapeMismatch) when the fusion fails, else the ValueError of the missing link |
| Merges.BNMulMerge | onnx_coreml/_transformers.py:155-165 | the same for BatchNorm-Mul with `BNMulFused`, the error of a raise included |
| Merges.BNAddMerge | onnx_coreml/_transformers.py:195-203 | the same for BatchNorm-Add with `BNAddFused`, the error of a raise included |
| Merges.DropoutMerge | onnx_coreml/_transformers.py:217-222 | the link is cut first; the parent then takes the Dropout's outputs and nothing else changes; a missing link is a ValueError, and then the parent's outputs are untouched |
| Merges.DefaultMerge | onnx_coreml/_transformers.py:75-78 | the base class's merge: the first node takes the last node's outputs and is the replacement; an empty window raises IndexError. All five rules override it, so no pass reaches it |
| Fusers.NatToString | onnx_coreml/_transformers.py:361 | `str(n)` is a non-empty string of decimal digits |
| Fusers.ChainInside | onnx_coreml/_transformers.py:22-40 | a window that ends at a graph node lies wholly inside the closed node set |
| Fusers.PixelShuffleElementCount | onnx_coreml/_transformers.py:365-376 | the 6-d reshape, the two 4-d reshapes that replace it and the final reshape all describe C*s*s*H*W elements (times the batch entry) |
| Fusers.RetargetFirstPair | onnx_coreml/_transformers.py:378-390 | the Transpose loses its children; the first Reshape's shape becomes [C, s*s, H, W] and the perm becomes [0, 2, 1, 3] |
| Fusers.NewBelow | onnx_coreml/_transformers.py:399-406 | a new node reads the node above's outputs, writes one edge, and is that node's only child |
| Fusers.AttachFinal | onnx_coreml/_transformers.py:417-420 | the final Reshape reads the new Transpose's output and hangs below it alone; its outputs, attributes and constants are kept |
| Fusers.RelinkedOutcome | onnx_coreml/_transformers.py:47-54 | k turns of `remove(x)` then "append y unless present" on one link list get through exactly when k is 0, or the list holds x (when y is x itself) or at least k copies of x; y is then in the list, and x has lost k copies when y is another node |
| Fusers.RelinkedFailsLater | onnx_coreml/_transformers.py:47-54 | once a turn on a list raises, any number of further turns raises too |
| Fusers.ReplaceChild | onnx_coreml/_transformers.py:48-50 | it succeeds exactly when `first` was among the parent's children; the parent's children are then the old list with the first `first` removed and the head appended unless already there; the head gains the parent exactly when neither side held the link; a raise changes nothing; only the parent's children and the head's parents change |
| Fusers.ReplaceParent | onnx_coreml/_transformers.py:52-54 | it succeeds exactly when `last` was among the child's parents; the child's parents are then the old list with the first `last` removed and the tail appended unless already there; the tail gains the child exactly when neither side held the link; a raise changes nothing; only the child's parents and the tail's children change |
| Fusers.GrownTrans | onnx_coreml/_transformers.py:47-50 | links appended one turn after another, each drawn from the walked list, keep the old list as a prefix |
| Fusers.StillReached | onnx_coreml/_transformers.py:51-54 | the head links the parent walk placed survive the child walk, which can only append to the tail's children |
| Fusers.WalkedStep | onnx_coreml/_transformers.py:47-50 | one more turn of a walk rewires that node's list once more and leaves the other lists as they were |
| Fusers.WalkStops | onnx_coreml/_transformers.py:48 | a node whose list no longer holds the removed node when its turn comes makes the walk raise |
| Fusers.WalkedUntouched | onnx_coreml/_transformers.py:47-54 | a walk changes the link lists of the nodes it visits and of no other node |
| Fusers.WalkedReaches | onnx_coreml/_transformers.py:47-54 | after a walk, every node it visited links to the replacement's end |
| Fusers.Overwrite | onnx_coreml/_transformers.py:55-56 | the record gains exactly the window's names; each maps to the replacement; every other entry keeps its value; no entry holds anything but the replacement or its old value |
| Fusers.OverwriteSnoc | onnx_coreml/_transformers.py:55-56 | recording one more window node is one more single-key update |
| Fusers.Record | onnx_coreml/_transformers.py:55-56 | the loop leaves the record as `Overwrite` describes: the window's names map to the replacement, every other entry is kept |
| Fusers.RecordAll | onnx_coreml/_transformers.py:18-56 | the record after a sequence of visits keeps every key it started with |
| Fusers.RecordAllSnoc | onnx_coreml/_transformers.py:55-56 | one more visit writes its window over the record exactly when the rule accepted it |
| Fusers.ChainedSnoc | onnx_coreml/_transformers.py:20-56 | a visit that begins in the state the last visit left, whatever that visit did, keeps the visits chained |
| Fusers.VisitsSnoc | onnx_coreml/_transformers.py:20-56 | a visit of the next node, added to completed visits of the nodes before it, gives a visit per node, the earlier ones still completed |
| Fusers.TurnsSnoc | onnx_coreml/_transformers.py:20-56 | a completed visit of the next node, added to completed visits of the nodes before it, gives a completed visit per node |
| Fusers.VisitOutcome | onnx_coreml/_transformers.py:41-56 | read off a visit's outcome: the window ends at the node and has at most the rule's length; a window that is not full leaves the record and the graph; on a full window a rule raise is the visit's raise and a refusal leaves both; a two-node rule's accepted window is replaced by its first node |
| Fusers.Declined | onnx_coreml/_transformers.py:41-44 | a visit the rule did not accept: a refusal or a window that is not full is a completed visit that leaves the record as it was, a rule raise is the visit's raise, and no edge name is drawn |
| Fusers.Went | onnx_coreml/_transformers.py:45-56 | an accepted visit whose merge and rewiring went through is a completed visit whose replacement is written over the record; one whose merge or rewiring raised is `RaisedAt` with that error; the pixel shuffle draws three names, the two-node rules none |
| Fusers.Rewiring | onnx_coreml/_transformers.py:46-54 | a merge followed by a rewiring is `Applied` when both walks take all their turns, and `Raising` with a ValueError otherwise |
| Fusers.MergedHeld | onnx_coreml/_transformers.py:45 | a merge's replacement is non-empty and made of nodes of the state after it |
| Fusers.VisitLinks | onnx_coreml/_transformers.py:22-40 | read against the nodes in the state a visit began in, its window is a strict chain of those nodes, full exactly when the links above the node are linear, and its views are those nodes' fields |
| Fusers.RecordAllKeys | onnx_coreml/_transformers.py:20-56 | a name is recorded exactly when it was at the start or some accepted window holds a node of that name |
| Fusers.RecordAllUntouched | onnx_coreml/_transformers.py:20-56 | a name that no accepted window holds keeps its starting entry |
| Fusers.RecordAllLatest | onnx_coreml/_transformers.py:20-56 | a name's entry is the replacement of the last accepted window that holds it |
| Fusers.NodesFuser.constructor | onnx_coreml/_transformers.py:15-16 | the window length is the rule's (3 for pixel shuffle, 2 otherwise) and the name counter starts at 0 |
| Fusers.NodesFuser.PixelShuffleMerge | onnx_coreml/_transformers.py:363-421 | the window becomes the five-node chain Reshape [C, s*s, H, W], Transpose [0, 2, 1, 3], new Reshape [C*H, s, s, W] named pixel_shuffle_reshape, new Transpose [0, 1, 3, 2] named pixel_shuffle_transpose, final Reshape; each node feeds the next through one edge and is its only parent; the final node keeps its outputs, attributes and constants |
| Fusers.NodesFuser.ShuffleKept | onnx_coreml/_transformers.py:363-421 | the pixel-shuffle merge read on the graph's state before and after: every node outside the window is kept, and the chain's fields and links are those `ShuffledFields` and `ShuffledLinks` describe |
| Fusers.NodesFuser.ShuffleMergeState | onnx_coreml/_transformers.py:363-421 | the same with the node set grown by the two new nodes, which the state before did not hold; the window's three nodes are distinct |
| Fusers.NodesFuser.BuildMiddle | onnx_coreml/_transformers.py:392-415 | the Transpose's output becomes one edge, read by the new Reshape [C*H, s, s, W], whose one output edge is read by the new Transpose [0, 1, 3, 2]; each new node is the previous one's only child; the Transpose keeps its other fields and its parents |
| Fusers.NodesFuser.Extend | onnx_coreml/_transformers.py:399-406 | a fresh node below `above` reads its outputs and writes one edge, the graph's unique edge name for `name_<count>`; it is `above`'s only child, and `above` keeps its fields and parents |
| Fusers.NodesFuser.Merge | onnx_coreml/_transformers.py:45 | a merge that gets through is `Merged`: for the two-node rules the replacement is the first node and, for two distinct nodes, the first node takes the rule's fused fields and the link is cut once on each side; for the pixel shuffle it is the five-node chain from the first to the last node with two new nodes, every other node kept. A raise is one `MergeMayRaise` allows, with its error: only a two-node rule; for two distinct nodes, when the fusion fails (its own error) or a link is missing (ValueError), as `PairRaise` says. The pixel shuffle draws three edge names, the two-node rules none |
| Fusers.NodesFuser.MergePair | onnx_coreml/_transformers.py:109-222 | the same for the rule's own merge (ConvAdd, BatchNorm-Mul, BatchNorm-Add, Dropout removal), the error of a raise included |
| Fusers.NodesFuser.MergePairState | onnx_coreml/_transformers.py:109-222 | for two distinct nodes, read on the graph's state: the merge gets through exactly when the nodes are `PairMergeable`, and then the two states are `PairMerged`; a raise carries `PairRaise`: the fusion's error, or the ValueError of a missing link |
| Fusers.NodesFuser.Rewire | onnx_coreml/_transformers.py:46-54 | the rewiring is `Rewired` through the state between its two walks: no node's fields change; the first walk changes only the children lists of the first node's parents, and the head's parents, which only grow by those parents; the second changes only the parents lists of the children the last node then has, and the tail's children, which only grow by those children; the first node keeps its parents and the last its children. It gets through exactly when both walks can take all their turns (`RewireWalks`); then every walked list has lost the window node and gained the head or tail once per listing, and the head's parents and the tail's children are exactly the old lists with the walked nodes appended in walk order, each only when its own list lacked the head or tail after the removal and it was not listed yet (`Adoptions`, inside `RewireWalked`). A raise is a ValueError |
| Fusers.NodesFuser.RewireParents | onnx_coreml/_transformers.py:47-50 | on the link lists before and after: it succeeds exactly when every parent of the first node can take its turns (`Walkable`); each parent's children are then its old list with the first node removed and the head added, once per listing (`Walked`), and the head's parents are exactly what the `add_child` calls leave (`Adoptions`): the old list with each parent appended, in walk order, when its children lacked the head after the removal and it was not listed yet; so every parent whose list lacked the head is listed (`Adopted`); only those children lists change, and the head's parents only grow by those parents (`Traded`); the first node's parents are kept; a raise is a ValueError |
| Fusers.NodesFuser.RewireChildren | onnx_coreml/_transformers.py:51-54 | on the link lists before and after: it succeeds exactly when every child of the last node can take its turns; each child's parents are then its old list with the last node removed and the tail added, once per listing, and the tail's children are exactly what the `add_parent` calls leave (`Adoptions`): the old list with each child appended, in walk order, when its parents lacked the tail after the removal and it was not listed yet; only those parents lists change, and the tail's children only grow by those children; the last node's children are kept; a raise is a ValueError |
| Fusers.NodesFuser.HeadWalk | onnx_coreml/_transformers.py:47-50 | `RewireParents` read on the graph's state: the same outcome, the same exact mirror list (`Adoptions`), the first node's parents kept, the same ValueError, and no node's fields change |
| Fusers.NodesFuser.TailWalk | onnx_coreml/_transformers.py:51-54 | `RewireChildren` read on the graph's state: the same outcome, the same exact mirror list (`Adoptions`), the last node's children kept, the same ValueError, and no node's fields change |
| Fusers.RewireReaches | onnx_coreml/_transformers.py:47-54 | after a rewiring that got through, every former parent of the first window node lists the head among its children, and every child the last window node had between the walks lists the tail among its parents |
| Fusers.NodesFuser.ParentTurn | onnx_coreml/_transformers.py:47-50 | one turn of the parent walk either extends the walk by that parent, the head's parents then being `Adoptions` of the longer walk, or raises, and it raises only when the walk cannot get through |
| Fusers.NodesFuser.ChildTurn | onnx_coreml/_transformers.py:51-54 | one turn of the child walk either extends the walk by that child, the tail's children then being `Adoptions` of the longer walk, or raises, and it raises only when the walk cannot get through |
| Fusers.NodesFuser.RecordedOverwrite | onnx_coreml/_transformers.py:55-56 | writing a merge's replacement over a record of non-empty, rule-length replacements made of known nodes keeps it such a record, and a two-node rule's replacement is a graph node |
| Fusers.TurnStep | onnx_coreml/_transformers.py:47-54 | on link lists: a turn at a list that holds the walked node relinks it and extends the walk by one; a turn at a list that does not means the whole walk cannot get through, and only the lists of walked nodes differ from where the walk began; the new end's list only grows by walked nodes |
| Fusers.Adoptions | onnx_coreml/_transformers.py:47-54 | the mirror list a walk leaves keeps the old list as a prefix and gains only walked nodes, each absent from the list until it is appended: no duplicate is ever added |
| Fusers.AdoptionsStep | onnx_coreml/_transformers.py:49-50 | a turn that finds the window node appends its node to the mirror list exactly when, after the removal, the node's own list lacks the head (or tail) and the node is not in the mirror list yet |
| Fusers.NodesFuser.FuseAt | onnx_coreml/_transformers.py:21-56 | the visit is a `Visit` of the node that began in the graph as it stood before the turn and ends in the graph as the turn leaves it: its window is the one collected above the node in that state and its fields are that state's; the window ends at the node and has at most the rule's length; a window that is not full or that the rule rejects leaves the record and the graph as they were; a raise in the rule is passed on; an accepted window that gets through is written over the record under its names, with the first node as replacement for the two-node rules; a turn that gets through is a `TurnAt` the node, and a raise happens only at a full window the rule raised on or accepted (`RaisedAt`); the counter advances by the names the visit drew |
| Fusers.NodesFuser.CollectTurn | onnx_coreml/_transformers.py:22-40 | the collected window, its nodes' fields and the graph's state before the turn make a `Visit` of the node; no node changes |
| Fusers.NodesFuser.FuseTurn | onnx_coreml/_transformers.py:41-56 | the rest of the turn keeps what the visit saw and ends it in the graph's state after the turn; a window that is not full or that the rule rejects changes neither the record nor the graph; a rule raise is passed on; an accepted window that gets through is written over the record; the turn ends as a `TurnAt` the node or `RaisedAt` |
| Fusers.NodesFuser.FuseAccepted | onnx_coreml/_transformers.py:45-56 | an accepted window's visit: when the merge and the rewiring get through, it is a `TurnAt` the node and its replacement is written over the record; when either raises, it is `RaisedAt`; it ends in the graph's state after the turn; the pixel shuffle draws three edge names, the two-node rules none |
| Fusers.NodesFuser.FuseWindow | onnx_coreml/_transformers.py:45-56 | an accepted window that is merged and rewired makes the visit `Applied`: merged (`Merged`), then rewired with both walks through, ending in the graph's state after the turn, and the replacement is written over the record under the window's names; a raise is one `Raising` explains, with its error: the merge's, as `MergeMayRaise` allows, or a ValueError when a walk cannot take all its turns |
| Fusers.NodesFuser.Rejoin | onnx_coreml/_transformers.py:46-56 | after the merge: a merge that raised ends the visit with its error, as `Raising` explains; otherwise the boundary is rewired; when both walks get through the visit is `Applied` and the replacement written over the record, and when one raises the visit is `Raising` with a ValueError |
| Fusers.NodesFuser.RewireAndRecord | onnx_coreml/_transformers.py:46-56 | the rewiring from the state after the merge is `Rewired` through the state between its two walks; it gets through exactly when both walks can take all their turns (`RewireWalks`), and then every walked node links to the replacement's end (`RewireWalked`) and the replacement is written over the record under the window's names, other entries kept; a raise is a ValueError |
| Fusers.NodesFuser.Call | onnx_coreml/_transformers.py:18-69 | there is one visit per node, in list order, until a raise: each completed visit is a `TurnAt` its node, a raising one a `Visit` explained by `RaisedAt`; the first visit begins in the graph as it was handed over, each next one in the state the last left (`Chained`), and the nodes are left in the state the last visit ended in; the record is the accepted windows written over each other in that order; the returned graph lists `Emitted(nodes, merged)`; the untouched nodes keep their order; an empty record returns the nodes unchanged; every replacement is non-empty, of the rule's length, and made of graph nodes or new nodes; the counter advances by the names the visits drew |
| Fusers.NodesFuser.FuseAll | onnx_coreml/_transformers.py:18-56 | the visiting loop: one visit per node in order, the first from the graph as handed over, each next from where the last ended; the record is `RecordAll` of the visits, or of those before the raising one, which is `RaisedAt`; the nodes are left as the last visit left them |
| Fusers.NodesFuser.Store | onnx_coreml/_transformers.py:359-360 | the counter takes the value carried through the pass; no node changes |
| Fusers.NodesFuser.FuseLoop | onnx_coreml/_transformers.py:20-56 | from the graph as handed over, the loop ends with every node visited (`Progress` at the end of the list), or `Halted` at the visit that raised with the record made before it |
| Fusers.NodesFuser.FuseNext | onnx_coreml/_transformers.py:21-56 | one more visit keeps the earlier ones and extends `Progress` by one node, or stops the loop `Halted` with the record unchanged |
| ReshapeFold.FoldCheck | onnx_coreml/_transformers.py:235-241 | a node is folded exactly when it is a Reshape whose single constant sits on its first input; it raises exactly when a one-constant Reshape has no inputs |
| ReshapeFold.Folded | onnx_coreml/_transformers.py:245-249 | the folded constant holds the same elements and is well formed, with one dimension per `shape` entry, each explicit entry kept; it needs an output and a list `shape` |
| ReshapeFold.HandOver | onnx_coreml/_transformers.py:252-253 | the child drops the node from its parents and gets the constant under the output name; a missing parent link is a ValueError and changes nothing |
| ReshapeFold.HandOverAll | onnx_coreml/_transformers.py:251-253 | it gets through exactly when every child lists the node among its parents at least as often as the node lists the child, and raises ValueError otherwise; each child has then lost that many copies of the node and holds the constant; the node itself is unchanged |
| ReshapeFold.HandOverEach | onnx_coreml/_transformers.py:251-253 | the hand-over loop against the children's parents and constants before it: it walks every child, each then holding the constant and having lost one copy of the node per listing (`HandedOver`), or raises ValueError when some child lists the node less often than the node lists it; the node is unchanged |
| ReshapeFold.HandOverNext | onnx_coreml/_transformers.py:251-253 | one turn of the hand-over loop: the child drops one more copy of the node and holds the constant, or the node lists that child more often than it lists the node |
| ReshapeFold.FoldInto | onnx_coreml/_transformers.py:245-253 | a raise of the reshape is passed on; otherwise the fold gets through exactly when every child lists the node among its parents as often as the node lists it; each node then has lost those copies of the node, each child holds the constant under the node's first output, and no children list or other field changes |
| ReshapeFold.TensorsAfterStores | onnx_coreml/_transformers.py:251-253 | every fold that lists a node among its children leaves a constant under its output name there |
| ReshapeFold.TrackedSkip | onnx_coreml/_transformers.py:234-241 | a turn that selects nothing keeps the record of selections and folds |
| ReshapeFold.TrackedFold | onnx_coreml/_transformers.py:242-253 | a turn that folds its node adds that node and its fold to the record |
| ReshapeFold.HoldsFold | onnx_coreml/_transformers.py:251-253 | after a fold that got through, every node holds the constants and parents the earlier folds and this one leave it |
| ReshapeFold.FoldedOnward | onnx_coreml/_transformers.py:251-253 | after a fold, every node has the fields, constants and parents the folds so far, and this one, leave it |
| ReshapeFold.FoldedRemoved | onnx_coreml/_transformers.py:244-253 | a fold leaves the nodes removed so far, and its own node, without parents and still selected |
| ReshapeFold.FoldHeld | onnx_coreml/_transformers.py:245-253 | the fold of a selected parentless node against the nodes as earlier folds left them: a reshape raise is passed on; otherwise it gets through exactly when no child is short of parent links, and the nodes then hold what the folds so far and this one leave them |
| ReshapeFold.FoldSelected | onnx_coreml/_transformers.py:244-253 | a selected node with no parents is folded and the record gains it; a raise is the reshape's or a ValueError for a child short of parent links |
| ReshapeFold.FoldTurn | onnx_coreml/_transformers.py:235-253 | one turn sees the node's fields with the constants of the folds so far; a check raise, the `assert` on a selected node with parents, a reshape raise or a short child explains a raise; otherwise the record and the nodes advance by this turn |
| ReshapeFold.FoldTurns | onnx_coreml/_transformers.py:234-253 | the loop visits every node in order until a raise, keeping the record and the nodes' state, and says why the last turn raised |
| ReshapeFold.FoldAll | onnx_coreml/_transformers.py:234-253 | each turn saw its node's fields with the constants of the folds before it; exactly the nodes selected at their visit were folded, each with no parents left and no child short of parent links; every node ends with the constants and parents its folds leave it; a raise is explained by the last turn; attributes, inputs, outputs and children lists never change |
| ReshapeFold.FoldInitializerReshapes | onnx_coreml/_transformers.py:231-256 | what FoldAll states, and the returned list is the input list without the folded nodes, in order |
| Dangling.OutputNames | onnx_coreml/_transformers.py:266 | the set holds exactly the declared graph outputs' names |
| Dangling.LiveOutputs | onnx_coreml/_transformers.py:279-280 | every kept output was an output and is read by somebody |
| Dangling.LiveOutputsExactly | onnx_coreml/_transformers.py:268-280 | the kept outputs are exactly the live ones, with all their occurrences, in order; a node whose outputs are all read keeps its list |
| Dangling.LiveOutputsIdempotent | onnx_coreml/_transformers.py:267-280 | pruning a node a second time changes nothing |
| Dangling.ChildrenInputs | onnx_coreml/_transformers.py:272-275 | the loop collects exactly the inputs of all children |
| Dangling.PruneOutputs | onnx_coreml/_transformers.py:268-280 | the node's outputs become its live outputs of before; the other fields are kept |
| Dangling.PruneVisit | onnx_coreml/_transformers.py:267-280 | one turn of the node loop: the node is done, and a node met a second time keeps what the first visit left |
| Dangling.RemoveDanglingOutputs | onnx_coreml/_transformers.py:264-281 | every node's outputs become its live outputs of before, judged by its children's inputs; only `outputs` lists change; the same graph is returned |
| Renaming.Replace | onnx_coreml/_transformers.py:301-305 | renaming keeps the list's length, leaves no occurrence of the old name, and brings in no name but the new one |
| Renaming.ReplaceIdempotent | onnx_coreml/_transformers.py:300-305 | a child listed twice gets the same renaming as one listed once |
| Renaming.ReplaceAllAppend | onnx_coreml/_transformers.py:300-305 | applying two batches of renames one after the other is applying their concatenation |
| Renaming.ReplaceAllUnchained | onnx_coreml/_transformers.py:300-305 | when no new name is an old name, an input carrying an old name ends with that rename's new name, and the others are kept |
| Renaming.ChainedRenames | onnx_coreml/_transformers.py:295-306 | with outputs [a, b] and mapping {a: b, b: c}, the outputs become [b, c] and a child's input `a` becomes `c` |
| Renaming.RenameOutputs | onnx_coreml/_transformers.py:295-308 | one node's visit renames slots without changing their number |
| Renaming.RenameOutputsRest | onnx_coreml/_transformers.py:306 | the keys a visit leaves are exactly those no slot of the node carries |
| Renaming.RenameOutputsSlots | onnx_coreml/_transformers.py:295-299 | a slot is renamed exactly when it carries a key that no slot to its left carries, and then to that key's new name |
| Renaming.RenameOutputsRenames | onnx_coreml/_transformers.py:297-306 | a visit records one rename per key its slots carry, each to the key's own new name, and never two for the same key |
| Renaming.RenameOutputsUnmatched | onnx_coreml/_transformers.py:297-298 | a node none of whose outputs is a key is left alone, and so is the mapping |
| Renaming.RenameOutputsStep | onnx_coreml/_transformers.py:296-306 | visiting one more slot renames it when its name is a key still left, and uses the key up |
| Renaming.RenameOutputsAfterEmpty | onnx_coreml/_transformers.py:307-308 | once the mapping is used up, the remaining slots keep their names |
| Renaming.Pass | onnx_coreml/_transformers.py:292-308 | the pass keeps every output list's length, touches only the listed nodes, and makes one visit per node |
| Renaming.RenameOutputsFroms | onnx_coreml/_transformers.py:306 | the keys a visit uses up are the keys its slots carry |
| Renaming.PassRest | onnx_coreml/_transformers.py:306 | the keys left at the end are the ones no rename used, with their entries unchanged |
| Renaming.PassRenamesOnce | onnx_coreml/_transformers.py:292-308 | over the whole pass, each key renames at most one slot, always to its own new name |
| Renaming.PassDistinctRest | onnx_coreml/_transformers.py:292-308 | with no node listed twice, the keys left at the end are the ones no output carried |
| Renaming.PassFirstOccurrence | onnx_coreml/_transformers.py:292-308 | with no node listed twice, each slot is renamed exactly when it is the first occurrence of a key in visiting order |
| Renaming.ReplaceInputs | onnx_coreml/_transformers.py:301-305 | every input of the child equal to the old name becomes the new name |
| Renaming.RenameChildInputs | onnx_coreml/_transformers.py:300-305 | every child's inputs get the rename, once even when the child is listed twice |
| Renaming.RenameSlot | onnx_coreml/_transformers.py:299-305 | the slot takes the new name and the children's inputs follow |
| Renaming.RenameNode | onnx_coreml/_transformers.py:295-308 | the node's outputs and the mapping left are `RenameOutputs` of before; each child's inputs go through that visit's renames |
| Renaming.RenameStep | onnx_coreml/_transformers.py:296-306 | one turn of the slot loop advances the node's visit by one slot |
| Renaming.ConsumersAfterVisit | onnx_coreml/_transformers.py:300-305 | a visit's renames reach exactly the nodes the visited node lists as children |
| Renaming.VisitNode | onnx_coreml/_transformers.py:294-308 | one turn of the node loop advances the pass by one visit and applies its renames to the consumers |
| Renaming.OutputRenamer.constructor | onnx_coreml/_transformers.py:288-289 | the renamer keeps the mapping it is given |
| Renaming.OutputRenamer.Call | onnx_coreml/_transformers.py:291-309 | every node's outputs are what `Pass` makes of them; every child's inputs went through the renames of the visits to its parents, in order; only `outputs` and `inputs` lists change; the mapping itself is not consumed |

## Left out

- Tensors: element types are integers. numpy's float dtypes and broadcasting are not modelled; elementwise operations on different shapes are a ShapeMismatch failure.
- Attributes: only integer and integer-list attribute values, the only kinds the passes consult. Float and string values are not modelled.
- `_graph.py` is not part of this model. Its behaviour is replaced by stated contracts:
  - `Node`, `add_child` and `add_parent` are modelled from their uses;
  - `get_only_parent` is read as `parents[0]` behind the one-parent check;
  - `get_unique_edge_name` is modelled only by the stated contract of `Graphs.UniqueEdgeName`;
  - the `Graph` constructor's rebuilding of links is not modelled: a pass returns the node list it built.
- List aliasing: after `parent.outputs = child.outputs`, Python shares one list between two nodes, and a later in-place write through one node shows in the other. The model copies values, so that sharing is not captured.
- The abstract `NodesFuser.is_eligible`, which raises NotImplementedError, is replaced by the closed `Rules.Rule` datatype of the five subclasses.
- Merges.ConvAddMerge: the fused fields are stated only for a window of two distinct nodes. A window [n, n] needs a node that is its own only parent and only child: a cyclic graph, which ONNX does not allow.
- Merges.BNMulMerge: likewise stated only for two distinct nodes.
- Merges.BNAddMerge: likewise stated only for two distinct nodes.
- Merges.BNAddFusedOutput: stated only when scale and bias are on different edges.
- Fusers.NodesFuser.PixelShuffleMerge: the three new edge names are not stated; the contract says only that each node of the chain writes one edge that the next node reads. `Fusers.NodesFuser.Extend` states how a new node's edge is drawn.
- Fusers.NodesFuser.PixelShuffleMerge: the claim that the five-node chain computes the same tensor as the 6-d Reshape / Transpose / Reshape it replaces is not proved, since tensor values flowing through operators are not modelled. Only the element counts of the four shapes are proved to agree (`Fusers.PixelShuffleElementCount`).
- Fusers.NodesFuser.Merge: for the two-node rules the fused fields are stated only for two distinct nodes, as for Merges.ConvAddMerge. A window of one node twice is stated only to keep that node as the replacement; it may raise, and the error it raises is not stated.
- Fusers.NodesFuser.MergePair: the fused fields are stated only for two distinct nodes, as for Merges.ConvAddMerge.
- Fusers.NodesFuser.Rewire: after a walk that raises, the head's parents (or the tail's children) are stated only to keep their old list as a prefix and to have gained walked nodes, not exactly which; the raise ends the pass, so no later visit reads them.
- Fusers.NodesFuser.Call: each visit's window and fields are stated against the nodes as they stood when that visit began (`Fusers.Visit`), not against the graph handed to the pass. The two agree up to the first accepted window; each later visit is stated against the state the visit before it left, merged and rewired, to which `Fusers.Chained` ties it.
- Fusers.NodesFuser.Store: the counter `num_added` is advanced on each draw in the source; the model carries it as a value through the pass and stores it once when the pass ends or raises, with the same final value.
- Renaming.OutputRenamer.Call: stated against the reference `Renaming.Pass`. The closed first-occurrence form, `Renaming.PassFirstOccurrence`, assumes no node is listed twice.
- The tests under `tests/` and the converter that runs the passes are not modelled.
