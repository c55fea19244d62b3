/** Quorum slices of the R-149 operation analysis: uniform thresholds, and what faulty nodes do to them. */
module Quorums {
  import opened FiniteSets

  type Node = nat
  type Slices = map<Node, set<set<Node>>>

  /** threshold_slices: every node trusts all groups of the threshold's size that it belongs to. */
  function ThresholdSlices(nodes: set<Node>, threshold: nat): Slices {
    map n <- nodes :: set s | s <= nodes && s != {} && |s| == threshold && n in s
  }

  /** is_quorum: a group that holds a slice of each of its members. */
  predicate IsQuorum(group: set<Node>, slices: Slices) {
    group != {} && forall n <- group :: n in slices && exists s <- slices[n] :: s <= group
  }

  /** delete_faults: faulty nodes disappear, and with them their part in the slices of the others. */
  function DeleteFaults(slices: Slices, faulty: set<Node>): Slices {
    map n <- slices | n !in faulty :: set s <- slices[n] :: s - faulty
  }

  /** No two quorums are disjoint. */
  ghost predicate Intersect(slices: Slices) {
    forall a, b :: IsQuorum(a, slices) && IsQuorum(b, slices) ==> a * b != {}
  }

  /** The quorums are all the large enough groups. */
  ghost predicate BySize(slices: Slices, nodes: set<Node>, size: nat) {
    forall g :: IsQuorum(g, slices) <==> g != {} && g <= nodes && |g| >= size
  }

  // ---------- without faults ----------

  /** What the slices are. */
  lemma SlicesOf(nodes: set<Node>, threshold: nat)
    ensures ThresholdSlices(nodes, threshold).Keys == nodes
    ensures forall n <- nodes, s: set<Node> :: s in ThresholdSlices(nodes, threshold)[n] <==> IsSlice(nodes, threshold, n, s)
  {
  }

  predicate IsSlice(nodes: set<Node>, threshold: nat, n: Node, s: set<Node>) {
    s <= nodes && s != {} && |s| == threshold && n in s
  }

  lemma SliceIn(g: set<Node>, slices: Slices, n: Node) returns (s: set<Node>)
    requires IsQuorum(g, slices) && n in g
    ensures n in slices && s in slices[n] && s <= g
  {
    s :| s in slices[n] && s <= g;
  }

  lemma QuorumIsLarge(nodes: set<Node>, threshold: nat, g: set<Node>)
    requires IsQuorum(g, ThresholdSlices(nodes, threshold))
    ensures g != {} && g <= nodes && |g| >= threshold
  {
    hide ThresholdSlices;
    var slices := ThresholdSlices(nodes, threshold);
    SlicesOf(nodes, threshold);
    forall m | m in g ensures m in nodes { assert m in slices; }
    var n :| n in g;
    var s := SliceIn(g, slices, n);
    assert IsSlice(nodes, threshold, n, s);
    SubsetSize(s, g);
  }

  lemma LargeIsQuorum(nodes: set<Node>, threshold: nat, g: set<Node>)
    requires threshold >= 1 && g != {} && g <= nodes && |g| >= threshold
    ensures IsQuorum(g, ThresholdSlices(nodes, threshold))
  {
    hide ThresholdSlices;
    var slices := ThresholdSlices(nodes, threshold);
    SlicesOf(nodes, threshold);
    forall n | n in g ensures n in slices && exists s <- slices[n] :: s <= g {
      var s := SubsetWith(g, n, threshold);
      assert IsSlice(nodes, threshold, n, s);
      assert s in slices[n];
    }
  }

  /** The quorums of a uniform threshold are exactly the groups of at least its size. */
  lemma ThresholdQuorums(nodes: set<Node>, threshold: nat)
    requires threshold >= 1
    ensures BySize(ThresholdSlices(nodes, threshold), nodes, threshold)
  {
    hide IsQuorum, ThresholdSlices;
    var slices := ThresholdSlices(nodes, threshold);
    forall g: set<Node> ensures IsQuorum(g, slices) <==> g != {} && g <= nodes && |g| >= threshold {
      if IsQuorum(g, slices) { QuorumIsLarge(nodes, threshold, g); }
      if g != {} && g <= nodes && |g| >= threshold { LargeIsQuorum(nodes, threshold, g); }
    }
  }

  /** Quorums given by size all meet exactly if two of them do not fit side by side. */
  lemma IntersectBySize(slices: Slices, nodes: set<Node>, size: nat)
    requires size >= 1 && BySize(slices, nodes, size)
    ensures Intersect(slices) <==> 2 * size > |nodes|
  {
    hide IsQuorum;
    if 2 * size > |nodes| {
      forall a, b | IsQuorum(a, slices) && IsQuorum(b, slices) ensures a * b != {} {
        Excess(a, b, nodes);
      }
    } else {
      var a := SubsetOf(nodes, size);
      SubsetSize(a, nodes);
      var b := SubsetOf(nodes - a, size);
      assert IsQuorum(a, slices) && IsQuorum(b, slices) && a * b == {};
    }
  }

  /** Ordinary intersection: all quorums of t of n meet if and only if 2t > n. */
  lemma ThresholdIntersection(nodes: set<Node>, threshold: nat)
    requires threshold >= 1
    ensures Intersect(ThresholdSlices(nodes, threshold)) <==> 2 * threshold > |nodes|
  {
    ThresholdQuorums(nodes, threshold);
    IntersectBySize(ThresholdSlices(nodes, threshold), nodes, threshold);
  }

  /** Crashes: some quorum survives among the rest exactly if the threshold does. */
  lemma SurvivingQuorum(nodes: set<Node>, threshold: nat, crashed: set<Node>)
    requires threshold >= 1 && crashed <= nodes
    ensures (exists g :: IsQuorum(g, ThresholdSlices(nodes, threshold)) && g * crashed == {})
            <==> |nodes| - |crashed| >= threshold
  {
    hide IsQuorum, ThresholdSlices;
    var slices := ThresholdSlices(nodes, threshold);
    ThresholdQuorums(nodes, threshold);
    SubsetSize(crashed, nodes);
    if |nodes| - |crashed| >= threshold {
      var rest := nodes - crashed;
      assert rest * crashed == {} && IsQuorum(rest, slices);
    } else {
      forall g | IsQuorum(g, slices) ensures g * crashed != {} {
        Excess(g, crashed, nodes);
      }
    }
  }

  // ---------- with faulty nodes ----------

  /** After deleting f < t faulty nodes, t - f of the others suffice. */
  lemma ReducedQuorums(nodes: set<Node>, threshold: nat, faulty: set<Node>)
    requires faulty <= nodes && |faulty| < threshold
    ensures BySize(DeleteFaults(ThresholdSlices(nodes, threshold), faulty), nodes - faulty, threshold - |faulty|)
  {
    var slices := ThresholdSlices(nodes, threshold);
    var reduced := DeleteFaults(slices, faulty);
    var size := threshold - |faulty|;
    hide IsQuorum, ThresholdSlices, DeleteFaults;
    forall g: set<Node> ensures IsQuorum(g, reduced) <==> g != {} && g <= nodes - faulty && |g| >= size {
      if IsQuorum(g, reduced) { ReducedIsLarge(nodes, threshold, faulty, g); }
      if g != {} && g <= nodes - faulty && |g| >= size { LargeIsReduced(nodes, threshold, faulty, g); }
    }
  }

  /** What is left of the slices. */
  lemma ReducedSlicesOf(nodes: set<Node>, threshold: nat, faulty: set<Node>)
    ensures DeleteFaults(ThresholdSlices(nodes, threshold), faulty).Keys == nodes - faulty
    ensures forall n <- nodes - faulty, left: set<Node> ::
              left in DeleteFaults(ThresholdSlices(nodes, threshold), faulty)[n]
              <==> exists s :: IsSlice(nodes, threshold, n, s) && left == s - faulty
  {
    hide ThresholdSlices;
    var slices := ThresholdSlices(nodes, threshold);
    SlicesOf(nodes, threshold);
    var reduced := DeleteFaults(slices, faulty);
    forall n, s: set<Node> | n in nodes - faulty && IsSlice(nodes, threshold, n, s) ensures s - faulty in reduced[n] {
      assert s in slices[n];
    }
    forall n, left: set<Node> | n in nodes - faulty && left in reduced[n]
      ensures exists s :: IsSlice(nodes, threshold, n, s) && left == s - faulty
    {
      var s :| s in slices[n] && left == s - faulty;
      assert IsSlice(nodes, threshold, n, s);
    }
  }

  lemma ReducedIsLarge(nodes: set<Node>, threshold: nat, faulty: set<Node>, g: set<Node>)
    requires faulty <= nodes && |faulty| < threshold
    requires IsQuorum(g, DeleteFaults(ThresholdSlices(nodes, threshold), faulty))
    ensures g <= nodes - faulty && |g| >= threshold - |faulty|
  {
    hide ThresholdSlices, DeleteFaults;
    var reduced := DeleteFaults(ThresholdSlices(nodes, threshold), faulty);
    ReducedSlicesOf(nodes, threshold, faulty);
    forall m | m in g ensures m in nodes - faulty { assert m in reduced; }
    var n :| n in g;
    var left := SliceIn(g, reduced, n);
    var s :| IsSlice(nodes, threshold, n, s) && left == s - faulty;
    SubsetSize(s * faulty, faulty);
    assert s == (s * faulty) + left;
    SubsetSize(left, g);
  }

  lemma LargeIsReduced(nodes: set<Node>, threshold: nat, faulty: set<Node>, g: set<Node>)
    requires faulty <= nodes && |faulty| < threshold
    requires g != {} && g <= nodes - faulty && |g| >= threshold - |faulty|
    ensures IsQuorum(g, DeleteFaults(ThresholdSlices(nodes, threshold), faulty))
  {
    hide ThresholdSlices, DeleteFaults;
    var reduced := DeleteFaults(ThresholdSlices(nodes, threshold), faulty);
    ReducedSlicesOf(nodes, threshold, faulty);
    forall n | n in g ensures n in reduced && exists left <- reduced[n] :: left <= g {
      var part := SubsetWith(g, n, threshold - |faulty|);
      var s := part + faulty;
      assert IsSlice(nodes, threshold, n, s) && s - faulty == part;
      assert part in reduced[n];
    }
  }

  /** Intersection despite faults: the reduced quorums all meet if and only if 2t - n > f. */
  lemma ReducedIntersection(nodes: set<Node>, threshold: nat, faulty: set<Node>)
    requires faulty <= nodes && |faulty| < threshold
    ensures Intersect(DeleteFaults(ThresholdSlices(nodes, threshold), faulty)) <==> 2 * threshold - |nodes| > |faulty|
  {
    ReducedQuorums(nodes, threshold, faulty);
    SubsetSize(faulty, nodes);
    IntersectBySize(DeleteFaults(ThresholdSlices(nodes, threshold), faulty), nodes - faulty, threshold - |faulty|);
  }
}
