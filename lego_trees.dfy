/**
 * The tree helpers of LEGOClassifier: numbering the inner nodes of a sentiment tree,
 * printing their vectors or class scores with the same numbering, and labelling each
 * inner node with its predicted class. The shape of a tree and its RNN annotations are
 * values; each node refers to a Label object, whose value the helpers overwrite in
 * place. Printing is modelled by the rows printed together with the threaded index.
 */
module LegoTrees {
  import opened JavaText

  /** A node label object: setValue changes its value; whether it is a CoreLabel is fixed. */
  class Label {
    var value: string
    const isCoreLabel: bool
  }

  /** A sentiment tree node with the RNN annotations the helpers read. */
  datatype Tree = Tree(nodeLabel: Label, predictedClass: int, nodeVector: seq<real>,
                       predictions: seq<real>, children: seq<Tree>)

  predicate IsLeaf(t: Tree) {
    t.children == []
  }

  /** The inner (non-leaf) nodes in pre-order: a node before its children, children left to right. */
  function NonLeaves(t: Tree): (nodes: seq<Tree>)
    decreases t
  {
    if IsLeaf(t) then [] else [t] + ForestNonLeaves(t.children)
  }

  function ForestNonLeaves(ts: seq<Tree>): (nodes: seq<Tree>)
    decreases ts
  {
    if ts == [] then [] else NonLeaves(ts[0]) + ForestNonLeaves(ts[1..])
  }

  lemma {:induction false} ForestNonLeavesConcat(a: seq<Tree>, b: seq<Tree>)
    ensures ForestNonLeaves(a + b) == ForestNonLeaves(a) + ForestNonLeaves(b)
  {
    if a != [] {
      assert (a + b)[0] == a[0] && (a + b)[1..] == a[1..] + b;
      ForestNonLeavesConcat(a[1..], b);
    } else {
      assert a + b == b;
    }
  }

  /** The inner nodes of a forest are those of the children before ts[i], of ts[i], and of those after. */
  lemma ForestNonLeavesSplit(ts: seq<Tree>, i: nat)
    requires i < |ts|
    ensures ForestNonLeaves(ts[..i + 1]) == ForestNonLeaves(ts[..i]) + NonLeaves(ts[i])
    ensures ForestNonLeaves(ts) == ForestNonLeaves(ts[..i]) + NonLeaves(ts[i]) + ForestNonLeaves(ts[i + 1..])
  {
    ForestNonLeavesPrefix(ts, i);
    ForestNonLeavesAround(ts, i);
  }

  lemma ForestNonLeavesPrefix(ts: seq<Tree>, i: nat)
    requires i < |ts|
    ensures ForestNonLeaves(ts[..i + 1]) == ForestNonLeaves(ts[..i]) + NonLeaves(ts[i])
  {
    var front := ts[..i + 1];
    assert front[..i] + front[i..] == front && front[..i] == ts[..i];
    ForestNonLeavesConcat(front[..i], front[i..]);
    ForestNonLeavesAt(front, i);
    assert front[i + 1..] == [];
    assert NonLeaves(ts[i]) + [] == NonLeaves(ts[i]);
  }

  lemma ForestNonLeavesAround(ts: seq<Tree>, i: nat)
    requires i < |ts|
    ensures ForestNonLeaves(ts) == ForestNonLeaves(ts[..i]) + NonLeaves(ts[i]) + ForestNonLeaves(ts[i + 1..])
  {
    assert ts[..i] + ts[i..] == ts;
    ForestNonLeavesConcat(ts[..i], ts[i..]);
    ForestNonLeavesAt(ts, i);
    Associative(ForestNonLeaves(ts[..i]), NonLeaves(ts[i]), ForestNonLeaves(ts[i + 1..]));
  }

  lemma Associative<T>(a: seq<T>, b: seq<T>, c: seq<T>)
    ensures a + (b + c) == a + b + c
  {
  }

  /** The forest from position i on: the inner nodes of ts[i], then those after it. */
  lemma ForestNonLeavesAt(ts: seq<Tree>, i: nat)
    requires i < |ts|
    ensures ForestNonLeaves(ts[i..]) == NonLeaves(ts[i]) + ForestNonLeaves(ts[i + 1..])
  {
    assert ts[i..][0] == ts[i];
    assert ts[i..][1..] == ts[i + 1..];
  }

  // ------------------------------------------------------------------ label objects

  /** The label objects of some nodes. */
  function LabelsOf(nodes: seq<Tree>): (labels: set<Label>) {
    set k | 0 <= k < |nodes| :: nodes[k].nodeLabel
  }

  /** No two of the nodes share a label object, as in a tree the parser builds. */
  predicate DistinctLabels(nodes: seq<Tree>) {
    forall i, j :: 0 <= i < |nodes| && 0 <= j < |nodes| && i != j ==> nodes[i].nodeLabel != nodes[j].nodeLabel
  }

  /** The nodes of b are among those of a + b + c. */
  lemma LabelsWithin(a: seq<Tree>, b: seq<Tree>, c: seq<Tree>)
    ensures LabelsOf(b) <= LabelsOf(a + b + c)
  {
    forall m | m in LabelsOf(b) ensures m in LabelsOf(a + b + c) {
      var k :| 0 <= k < |b| && b[k].nodeLabel == m;
      assert (a + b + c)[|a| + k] == b[k];
    }
  }

  /** The labels of an allocated tree's inner nodes are allocated. */
  lemma {:induction false} NonLeavesAllocated(t: Tree)
    requires allocated(t)
    ensures forall k :: 0 <= k < |NonLeaves(t)| ==> allocated(NonLeaves(t)[k].nodeLabel)
    decreases t
  {
    if !IsLeaf(t) {
      ForestNonLeavesAllocated(t.children);
      forall k | 0 <= k < |NonLeaves(t)| ensures allocated(NonLeaves(t)[k].nodeLabel) {
        if k > 0 {
          assert NonLeaves(t)[k] == ForestNonLeaves(t.children)[k - 1];
        }
      }
    }
  }

  lemma {:induction false} ForestNonLeavesAllocated(ts: seq<Tree>)
    requires allocated(ts)
    ensures forall k :: 0 <= k < |ForestNonLeaves(ts)| ==> allocated(ForestNonLeaves(ts)[k].nodeLabel)
    decreases ts
  {
    if ts != [] {
      NonLeavesAllocated(ts[0]);
      ForestNonLeavesAllocated(ts[1..]);
      var first: seq<Tree>, rest: seq<Tree> := NonLeaves(ts[0]), ForestNonLeaves(ts[1..]);
      forall k | 0 <= k < |first + rest| ensures allocated((first + rest)[k].nodeLabel) {
        if k >= |first| {
          assert (first + rest)[k] == rest[k - |first|];
        }
      }
    }
  }

  /** No label object of a node of a is the label object of a node of b. */
  predicate Apart(a: seq<Tree>, b: seq<Tree>) {
    forall i :: 0 <= i < |a| ==> a[i].nodeLabel !in LabelsOf(b)
  }

  /**
   * In a node list without shared labels, the part c has no shared labels, and no label
   * of c belongs to a node of a or b.
   */
  lemma DistinctParts(a: seq<Tree>, b: seq<Tree>, c: seq<Tree>, d: seq<Tree>)
    requires DistinctLabels(a + b + c + d)
    ensures DistinctLabels(c)
    ensures Apart(a, c) && Apart(b, c)
  {
    var all := a + b + c + d;
    var base := |a| + |b|;
    forall i, j | 0 <= i < |c| && 0 <= j < |c| && i != j ensures c[i].nodeLabel != c[j].nodeLabel {
      assert all[base + i] == c[i] && all[base + j] == c[j];
    }
    forall i | 0 <= i < |a| ensures a[i].nodeLabel !in LabelsOf(c) {
      assert all[i] == a[i];
      forall j | 0 <= j < |c| ensures c[j].nodeLabel != a[i].nodeLabel {
        assert all[base + j] == c[j];
      }
    }
    forall i | 0 <= i < |b| ensures b[i].nodeLabel !in LabelsOf(c) {
      assert all[|a| + i] == b[i];
      forall j | 0 <= j < |c| ensures c[j].nodeLabel != b[i].nodeLabel {
        assert all[base + j] == c[j];
      }
    }
  }

  // ------------------------------------------------------------- setIndexLabels

  /** The nodes' label values are the numbers index, index + 1, ... in order. */
  predicate NumberedFrom(nodes: seq<Tree>, index: int)
    reads LabelsOf(nodes)
  {
    forall k :: 0 <= k < |nodes| ==> nodes[k].nodeLabel.value == IntToString(index + k)
  }

  lemma NumberedConcat(a: seq<Tree>, b: seq<Tree>, index: int)
    requires NumberedFrom(a, index) && NumberedFrom(b, index + |a|)
    ensures NumberedFrom(a + b, index)
  {
    forall k | 0 <= k < |a + b|
      ensures (a + b)[k].nodeLabel.value == IntToString(index + k)
    {
      if k >= |a| {
        assert (a + b)[k] == b[k - |a|];
      }
    }
  }

  /**
   * setIndexLabels: the inner nodes' labels get the values index, index + 1, ... in
   * pre-order, the leaves' labels are not touched, and the next unused index is
   * returned. The numbering holds when no two inner nodes share a label object.
   */
  method SetIndexLabels(t: Tree, index: int) returns (next: int)
    modifies LabelsOf(NonLeaves(t))
    ensures next == index + |NonLeaves(t)|
    ensures DistinctLabels(NonLeaves(t)) ==> NumberedFrom(NonLeaves(t), index)
    decreases t, 2
  {
    if IsLeaf(t) {
      return index;
    }
    assert NonLeaves(t)[0] == t;
    t.nodeLabel.value := IntToString(index);
    next := SetChildrenIndexLabels(t, index + 1);
    if DistinctLabels(NonLeaves(t)) {
      assert NumberedFrom([t], index);
      NumberedConcat([t], ForestNonLeaves(t.children), index);
    }
  }

  /**
   * The loop over the children in setIndexLabels: numbers the children's inner nodes
   * from first on, threading the index from one child to the next.
   */
  method SetChildrenIndexLabels(t: Tree, first: int) returns (next: int)
    requires !IsLeaf(t)
    modifies LabelsOf(NonLeaves(t))
    ensures next == first + |ForestNonLeaves(t.children)|
    ensures DistinctLabels(NonLeaves(t)) ==> t.nodeLabel.value == old(t.nodeLabel.value)
    ensures DistinctLabels(NonLeaves(t)) ==> NumberedFrom(ForestNonLeaves(t.children), first)
    decreases t, 1
  {
    ghost var distinct := DistinctLabels(NonLeaves(t));
    next := first;
    var i := 0;
    while i < |t.children|
      invariant 0 <= i <= |t.children|
      invariant next == first + |ForestNonLeaves(t.children[..i])|
      invariant distinct ==> t.nodeLabel.value == old(t.nodeLabel.value)
      invariant distinct ==> NumberedFrom(ForestNonLeaves(t.children[..i]), first)
    {
      next := SetChildIndexLabels(t, i, first, next);
      i := i + 1;
    }
    assert t.children[..i] == t.children;
  }

  /**
   * One pass of the loop over the children in setIndexLabels: numbers the inner nodes
   * of the i-th child from next, leaving the labels numbered before it as they are.
   */
  method SetChildIndexLabels(t: Tree, i: nat, first: int, next: int) returns (after: int)
    requires i < |t.children|
    requires next == first + |ForestNonLeaves(t.children[..i])|
    modifies LabelsOf(NonLeaves(t))
    ensures after == first + |ForestNonLeaves(t.children[..i + 1])|
    ensures DistinctLabels(NonLeaves(t)) ==> t.nodeLabel.value == old(t.nodeLabel.value)
    ensures DistinctLabels(NonLeaves(t)) && old(NumberedFrom(ForestNonLeaves(t.children[..i]), first))
            ==> NumberedFrom(ForestNonLeaves(t.children[..i + 1]), first)
    decreases t, 0
  {
    var child := t.children[i];
    ghost var done := ForestNonLeaves(t.children[..i]);
    ghost var cur := NonLeaves(child);
    ghost var numbered := DistinctLabels(NonLeaves(t)) && NumberedFrom(done, first);
    ChildParts(t, i);
    ghost var values := seq(|done|, k requires 0 <= k < |done| reads LabelsOf(done) => done[k].nodeLabel.value);
    after := SetIndexLabels(child, next);
    if numbered {
      forall k | 0 <= k < |done| ensures done[k].nodeLabel.value == IntToString(first + k) {
        assert done[k].nodeLabel.value == values[k];
      }
      NumberedConcat(done, cur, first);
    }
  }

  /**
   * The inner nodes of t around its i-th child: t, those of the children before it, its
   * own, and those after it. Without shared labels in t, the child's labels are its own.
   */
  lemma ChildParts(t: Tree, i: nat)
    requires i < |t.children| && allocated(t)
    ensures var done, cur := ForestNonLeaves(t.children[..i]), NonLeaves(t.children[i]);
            && ForestNonLeaves(t.children[..i + 1]) == done + cur
            && LabelsOf(cur) <= LabelsOf(NonLeaves(t))
            && (AllCore(NonLeaves(t)) ==> AllCore(cur))
            && (forall k :: 0 <= k < |done| ==> allocated(done[k].nodeLabel))
            && (DistinctLabels(NonLeaves(t)) ==> DistinctLabels(cur) && t.nodeLabel !in LabelsOf(cur) && Apart(done, cur))
  {
    var nodes := NonLeaves(t);
    var done, cur := ForestNonLeaves(t.children[..i]), NonLeaves(t.children[i]);
    var later := ForestNonLeaves(t.children[i + 1..]);
    ForestNonLeavesSplit(t.children, i);
    assert nodes == [t] + done + cur + later by {
      Associative([t], done + cur, later);
      Associative([t], done, cur);
    }
    LabelsWithin([t] + done, cur, later);
    AllCoreConcat([t] + done, cur);
    AllCoreConcat([t] + done + cur, later);
    NonLeavesAllocated(t);
    forall k | 0 <= k < |done| ensures allocated(done[k].nodeLabel) {
      assert nodes[1 + k] == done[k];
    }
    if DistinctLabels(nodes) {
      DistinctParts([t], done, cur, later);
      assert [t][0] == t;
    }
  }

  // ------------------------------------------------ outputTreeVectors / outputTreeScores

  /** The k-th row is numbered index + k and holds what select picks from the k-th node. */
  predicate RowsOf(rows: seq<(int, seq<real>)>, nodes: seq<Tree>, index: int, select: Tree -> seq<real>) {
    |rows| == |nodes| && forall k :: 0 <= k < |rows| ==> rows[k] == (index + k, select(nodes[k]))
  }

  lemma RowsOfConcat(rows: seq<(int, seq<real>)>, nodes: seq<Tree>, rows': seq<(int, seq<real>)>, nodes': seq<Tree>,
                     index: int, select: Tree -> seq<real>)
    requires RowsOf(rows, nodes, index, select) && RowsOf(rows', nodes', index + |nodes|, select)
    ensures RowsOf(rows + rows', nodes + nodes', index, select)
  {
    forall k | 0 <= k < |rows + rows'|
      ensures (rows + rows')[k] == (index + k, select((nodes + nodes')[k]))
    {
      if k >= |rows| {
        assert (rows + rows')[k] == rows'[k - |rows|] && (nodes + nodes')[k] == nodes'[k - |nodes|];
      }
    }
  }

  /**
   * The rows outputTreeVectors or outputTreeScores prints, as (index, values) pairs:
   * one per inner node in pre-order, numbered from index; select picks the node's
   * vector or its predictions. Returns the next unused index.
   */
  function OutputTreeRows(t: Tree, index: int, select: Tree -> seq<real>): (r: (seq<(int, seq<real>)>, int))
    ensures r.1 == index + |NonLeaves(t)|
    ensures RowsOf(r.0, NonLeaves(t), index, select)
    decreases t
  {
    if IsLeaf(t) then ([], index)
    else
      var rest := ForestOutputRows(t.children, index + 1, select);
      RowsOfConcat([(index, select(t))], [t], rest.0, ForestNonLeaves(t.children), index, select);
      ([(index, select(t))] + rest.0, rest.1)
  }

  function ForestOutputRows(ts: seq<Tree>, index: int, select: Tree -> seq<real>): (r: (seq<(int, seq<real>)>, int))
    ensures r.1 == index + |ForestNonLeaves(ts)|
    ensures RowsOf(r.0, ForestNonLeaves(ts), index, select)
    decreases ts
  {
    if ts == [] then ([], index)
    else
      var first := OutputTreeRows(ts[0], index, select);
      var rest := ForestOutputRows(ts[1..], first.1, select);
      RowsOfConcat(first.0, NonLeaves(ts[0]), rest.0, ForestNonLeaves(ts[1..]), index, select);
      (first.0 + rest.0, rest.1)
  }

  function NodeVector(t: Tree): (vector: seq<real>) { t.nodeVector }

  function Predictions(t: Tree): (scores: seq<real>) { t.predictions }

  /** outputTreeVectors: one row per inner node in pre-order, numbered from index, with the node's vector. */
  function OutputTreeVectors(t: Tree, index: int): (r: (seq<(int, seq<real>)>, int))
    ensures r.1 == index + |NonLeaves(t)|
    ensures RowsOf(r.0, NonLeaves(t), index, NodeVector)
  {
    OutputTreeRows(t, index, NodeVector)
  }

  /** outputTreeScores: one row per inner node in pre-order, numbered from index, with the node's class scores. */
  function OutputTreeScores(t: Tree, index: int): (r: (seq<(int, seq<real>)>, int))
    ensures r.1 == index + |NonLeaves(t)|
    ensures RowsOf(r.0, NonLeaves(t), index, Predictions)
  {
    OutputTreeRows(t, index, Predictions)
  }

  /**
   * outputTreeVectors and outputTreeScores count the nodes the same as setIndexLabels:
   * both return the index SetIndexLabels returns, and once the labels are numbered from
   * index, the k-th printed row of either carries the number in the k-th inner node's
   * label and that node's vector or class scores.
   */
  lemma OutputAgreesWithIndexLabels(t: Tree, index: int)
    requires NumberedFrom(NonLeaves(t), index)
    ensures OutputTreeVectors(t, index).1 == OutputTreeScores(t, index).1 == index + |NonLeaves(t)|
    ensures var nodes := NonLeaves(t);
            var vectors := OutputTreeVectors(t, index).0;
            var scores := OutputTreeScores(t, index).0;
            && |vectors| == |scores| == |nodes|
            && forall k :: 0 <= k < |nodes| ==>
                 nodes[k].nodeLabel.value == IntToString(vectors[k].0) == IntToString(scores[k].0)
                 && vectors[k].1 == nodes[k].nodeVector && scores[k].1 == nodes[k].predictions
  {
  }

  // --------------------------------------------------------- setSentimentLabels

  /** Every inner node carries a CoreLabel. */
  predicate AllCoreLabels(t: Tree)
    decreases t
  {
    IsLeaf(t) || (t.nodeLabel.isCoreLabel && ForestAllCoreLabels(t.children))
  }

  predicate ForestAllCoreLabels(ts: seq<Tree>)
    decreases ts
  {
    ts == [] || (AllCoreLabels(ts[0]) && ForestAllCoreLabels(ts[1..]))
  }

  /** Every node of a node list carries a CoreLabel. */
  predicate AllCore(nodes: seq<Tree>) {
    forall k :: 0 <= k < |nodes| ==> nodes[k].nodeLabel.isCoreLabel
  }

  lemma AllCoreConcat(a: seq<Tree>, b: seq<Tree>)
    ensures AllCore(a + b) <==> AllCore(a) && AllCore(b)
  {
    if AllCore(a) && AllCore(b) {
      forall k | 0 <= k < |a + b|
        ensures (a + b)[k].nodeLabel.isCoreLabel
      {
        if k >= |a| {
          assert (a + b)[k] == b[k - |a|];
        }
      }
    }
    if AllCore(a + b) {
      forall k | 0 <= k < |a|
        ensures a[k].nodeLabel.isCoreLabel
      {
        assert (a + b)[k] == a[k];
      }
      forall k | 0 <= k < |b|
        ensures b[k].nodeLabel.isCoreLabel
      {
        assert (a + b)[|a| + k] == b[k];
      }
    }
  }

  /** The recursive test agrees with looking at every inner node. */
  lemma {:induction false} AllCoreLabelsNonLeaves(t: Tree)
    ensures AllCoreLabels(t) <==> AllCore(NonLeaves(t))
    decreases t
  {
    if !IsLeaf(t) {
      ForestAllCoreLabelsNonLeaves(t.children);
      AllCoreConcat([t], ForestNonLeaves(t.children));
      assert AllCore([t]) <==> t.nodeLabel.isCoreLabel by {
        assert [t][0] == t;
      }
    }
  }

  lemma {:induction false} ForestAllCoreLabelsNonLeaves(ts: seq<Tree>)
    ensures ForestAllCoreLabels(ts) <==> AllCore(ForestNonLeaves(ts))
    decreases ts
  {
    if ts != [] {
      AllCoreLabelsNonLeaves(ts[0]);
      ForestAllCoreLabelsNonLeaves(ts[1..]);
      AllCoreConcat(NonLeaves(ts[0]), ForestNonLeaves(ts[1..]));
    }
  }

  /** Each node's label value is its predicted class. */
  predicate LabelledByClass(nodes: seq<Tree>)
    reads LabelsOf(nodes)
  {
    forall k :: 0 <= k < |nodes| ==> nodes[k].nodeLabel.value == IntToString(nodes[k].predictedClass)
  }

  lemma LabelledByClassConcat(a: seq<Tree>, b: seq<Tree>)
    requires LabelledByClass(a) && LabelledByClass(b)
    ensures LabelledByClass(a + b)
  {
    forall k | 0 <= k < |a + b|
      ensures (a + b)[k].nodeLabel.value == IntToString((a + b)[k].predictedClass)
    {
      if k >= |a| {
        assert (a + b)[k] == b[k - |a|];
      }
    }
  }

  /**
   * setSentimentLabels: the children first, then the node itself, whose label value
   * becomes its predicted class; leaves are not touched. An inner label that is not a
   * CoreLabel raises IllegalArgumentException (false), which ends the whole traversal.
   * The labelling holds when no two inner nodes share a label object.
   */
  method SetSentimentLabels(t: Tree) returns (ok: bool)
    modifies LabelsOf(NonLeaves(t))
    ensures ok <==> AllCoreLabels(t)
    ensures ok && DistinctLabels(NonLeaves(t)) ==> LabelledByClass(NonLeaves(t))
    decreases t, 2
  {
    if IsLeaf(t) {
      return true;
    }
    ghost var distinct := DistinctLabels(NonLeaves(t));
    ok := SetChildrenSentimentLabels(t);
    assert AllCoreLabels(t) <==> AllCore(NonLeaves(t)) by {
      AllCoreLabelsNonLeaves(t);
    }
    if !ok {
      return false;
    }
    assert AllCore(NonLeaves(t)) <==> t.nodeLabel.isCoreLabel by {
      AllCoreConcat([t], ForestNonLeaves(t.children));
      assert [t][0] == t;
    }
    if !t.nodeLabel.isCoreLabel {
      return false;
    }
    assert NonLeaves(t)[0] == t;
    if distinct {
      RootApart(t);
    }
    t.nodeLabel.value := IntToString(t.predictedClass);
    if distinct {
      assert LabelledByClass([t]);
      LabelledByClassConcat([t], ForestNonLeaves(t.children));
    }
  }

  /**
   * The loop over the children in setSentimentLabels, child after child; false as soon
   * as a child raises IllegalArgumentException.
   */
  method SetChildrenSentimentLabels(t: Tree) returns (ok: bool)
    requires !IsLeaf(t)
    modifies LabelsOf(NonLeaves(t))
    ensures ok ==> AllCore(ForestNonLeaves(t.children))
    ensures !ok ==> !AllCore(NonLeaves(t))
    ensures ok && DistinctLabels(NonLeaves(t)) ==> LabelledByClass(ForestNonLeaves(t.children))
    decreases t, 1
  {
    ghost var distinct := DistinctLabels(NonLeaves(t));
    var i := 0;
    while i < |t.children|
      invariant 0 <= i <= |t.children|
      invariant AllCore(ForestNonLeaves(t.children[..i]))
      invariant distinct ==> LabelledByClass(ForestNonLeaves(t.children[..i]))
    {
      ok := SetChildSentimentLabels(t, i);
      if !ok {
        return false;
      }
      i := i + 1;
    }
    assert t.children[..i] == t.children;
    ok := true;
  }

  /**
   * One pass of the loop over the children in setSentimentLabels: labels the inner
   * nodes of the i-th child, leaving those of the children before it as they are; false
   * when the child raises IllegalArgumentException.
   */
  method SetChildSentimentLabels(t: Tree, i: nat) returns (ok: bool)
    requires i < |t.children|
    requires AllCore(ForestNonLeaves(t.children[..i]))
    modifies LabelsOf(NonLeaves(t))
    ensures ok ==> AllCore(ForestNonLeaves(t.children[..i + 1]))
    ensures !ok ==> !AllCore(NonLeaves(t))
    ensures ok && DistinctLabels(NonLeaves(t)) && old(LabelledByClass(ForestNonLeaves(t.children[..i])))
            ==> LabelledByClass(ForestNonLeaves(t.children[..i + 1]))
    decreases t, 0
  {
    var child := t.children[i];
    ghost var done := ForestNonLeaves(t.children[..i]);
    ghost var cur := NonLeaves(child);
    ghost var labelled := DistinctLabels(NonLeaves(t)) && LabelledByClass(done);
    ChildParts(t, i);
    ghost var values := seq(|done|, k requires 0 <= k < |done| reads LabelsOf(done) => done[k].nodeLabel.value);
    ok := SetSentimentLabels(child);
    AllCoreLabelsNonLeaves(child);
    AllCoreConcat(done, cur);
    if ok && labelled {
      forall k | 0 <= k < |done| ensures done[k].nodeLabel.value == IntToString(done[k].predictedClass) {
        assert done[k].nodeLabel.value == values[k];
      }
      LabelledByClassConcat(done, cur);
    }
  }

  /** Without shared labels, the root's label is none of its descendants' inner labels. */
  lemma RootApart(t: Tree)
    requires !IsLeaf(t) && DistinctLabels(NonLeaves(t))
    ensures t.nodeLabel !in LabelsOf(ForestNonLeaves(t.children))
  {
    var nodes := NonLeaves(t);
    forall j | 0 <= j < |ForestNonLeaves(t.children)| ensures ForestNonLeaves(t.children)[j].nodeLabel != t.nodeLabel {
      assert nodes[1 + j] == ForestNonLeaves(t.children)[j] && nodes[0] == t;
    }
  }
}
