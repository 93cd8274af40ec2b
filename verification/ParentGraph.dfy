/**
 * Parent links between table rows. Both the location table (`parent_id`) and the device table
 * (`parent_device_id`) are read as a graph in which every row has at most one parent. Nothing here
 * assumes that a parent exists or that the links are free of cycles.
 */
module ParentGraph {
  import opened Basics

  type Id = int
  type Graph = map<Id, Option<Id>>

  /** The row `x`'s parent points at, when that row exists. */
  function Parent(g: Graph, x: Id): (p: Option<Id>)
    ensures p.Some? ==> p.value in g
  {
    if x in g && g[x].Some? && g[x].value in g then g[x] else None
  }

  /** The row reached from `x` by following `k` parent links; None when the chain has ended. */
  function Up(g: Graph, x: Id, k: nat): (r: Option<Id>)
    ensures r.Some? ==> r.value in g && x in g
  {
    if k == 0 then
      if x in g then Some(x) else None
    else
      var y := Up(g, x, k - 1);
      if y.None? then None else Parent(g, y.value)
  }

  lemma {:induction false} UpAdd(g: Graph, x: Id, a: nat, b: nat)
    ensures Up(g, x, a).None? ==> Up(g, x, a + b).None?
    ensures Up(g, x, a).Some? ==> Up(g, x, a + b) == Up(g, Up(g, x, a).value, b)
  {
    if b > 0 {
      UpAdd(g, x, a, b - 1);
    }
  }

  /** The chain above `x` is finite. */
  ghost predicate Ends(g: Graph, x: Id) {
    exists n: nat :: Up(g, x, n).None?
  }

  ghost predicate OnCycle(g: Graph, x: Id) {
    exists k: nat :: k >= 1 && Up(g, x, k) == Some(x)
  }

  /** Every upward walk in the table ends. */
  ghost predicate Forest(g: Graph) {
    forall x {:trigger Ends(g, x)} :: x in g ==> Ends(g, x)
  }

  /** `r` is on the chain that starts at `x`, `x` itself included. */
  ghost predicate Below(g: Graph, x: Id, r: Id) {
    exists k: nat :: Up(g, x, k) == Some(r)
  }

  /** `r` is strictly above `x`. */
  ghost predicate ProperlyBelow(g: Graph, x: Id, r: Id) {
    exists k: nat :: k >= 1 && Up(g, x, k) == Some(r)
  }

  /** `r` and all its descendants: what the recursive query of the location service selects. */
  ghost function Subtree(g: Graph, r: Id): set<Id> {
    set x | x in g && Below(g, x, r)
  }

  ghost function Descendants(g: Graph, r: Id): set<Id> {
    set x | x in g && ProperlyBelow(g, x, r)
  }

  lemma {:induction false} CycleRepeats(g: Graph, x: Id, k: nat, m: nat)
    requires k >= 1 && Up(g, x, k) == Some(x)
    ensures Up(g, x, k * m) == Some(x)
  {
    if m == 0 {
      UpAdd(g, x, k, 0);
    } else {
      CycleRepeats(g, x, k, m - 1);
      UpAdd(g, x, k * (m - 1), k);
      assert k * m == k * (m - 1) + k;
    }
  }

  /** A row on a cycle has no end above it. */
  lemma CycleNeverEnds(g: Graph, x: Id)
    requires OnCycle(g, x)
    ensures !Ends(g, x)
  {
    var k: nat :| k >= 1 && Up(g, x, k) == Some(x);
    forall n: nat ensures Up(g, x, n).Some? {
      CycleRepeats(g, x, k, n);
      UpAdd(g, x, n, k * n - n);
    }
  }

  /** The first `n` rows of the chain starting at `x`. */
  ghost function Chain(g: Graph, x: Id, n: nat): (s: seq<Id>)
    requires n > 0 ==> Up(g, x, n - 1).Some?
    ensures |s| == n
    ensures forall i :: 0 <= i < n ==> Up(g, x, i) == Some(s[i])
  {
    if n == 0 then []
    else
      UpAdd(g, x, n - 1, 0);
      ChainStart(g, x, n - 1);
      Chain(g, x, n - 1) + [Up(g, x, n - 1).value]
  }

  lemma ChainStart(g: Graph, x: Id, n: nat)
    requires Up(g, x, n).Some?
    ensures n > 0 ==> Up(g, x, n - 1).Some?
  {}

  /** A walk that is still going after |g| links has met some row twice. */
  lemma LongWalkRepeats(g: Graph, x: Id) returns (i: nat, j: nat)
    requires Up(g, x, |g|).Some?
    ensures i < j <= |g| && Up(g, x, i) == Up(g, x, j) && Up(g, x, i).Some?
  {
    var s := Chain(g, x, |g| + 1);
    if Distinct(s) {
      forall y | y in s ensures y in g.Keys {
        var i :| 0 <= i < |s| && s[i] == y;
        assert Up(g, x, i) == Some(y);
      }
      Pigeonhole(s, g.Keys);
      assert false;
    }
    i, j :| 0 <= i < j < |s| && s[i] == s[j];
  }

  /** A finite chain is over after at most |g| links. */
  lemma EndsInTime(g: Graph, x: Id)
    ensures Ends(g, x) <==> Up(g, x, |g|).None?
  {
    if Up(g, x, |g|).Some? && Ends(g, x) {
      var i, j := LongWalkRepeats(g, x);
      var y := Up(g, x, i).value;
      UpAdd(g, x, i, j - i);
      assert OnCycle(g, y);
      CycleNeverEnds(g, y);
      var n: nat :| Up(g, x, n).None?;
      UpAdd(g, x, n, i);
      UpAdd(g, x, i, n);
      assert false;
    }
  }

  /** A walk ends exactly when no row it meets is on a cycle. */
  lemma EndsIffMeetsNoCycle(g: Graph, x: Id)
    ensures Ends(g, x) <==> forall k: nat :: Up(g, x, k).Some? ==> !OnCycle(g, Up(g, x, k).value)
  {
    EndsInTime(g, x);
    if Up(g, x, |g|).Some? {
      var i, j := LongWalkRepeats(g, x);
      UpAdd(g, x, i, j - i);
      assert OnCycle(g, Up(g, x, i).value);
    } else {
      forall k: nat | Up(g, x, k).Some? ensures !OnCycle(g, Up(g, x, k).value) {
        if OnCycle(g, Up(g, x, k).value) {
          CycleNeverEnds(g, Up(g, x, k).value);
          UpAdd(g, x, |g|, k);
          UpAdd(g, x, k, |g|);
          assert Ends(g, Up(g, x, k).value);
        }
      }
    }
  }

  lemma ChainBounded(g: Graph, x: Id, n: nat)
    requires Ends(g, x) && Up(g, x, n).Some?
    ensures n < |g|
  {
    if n >= |g| {
      UpAdd(g, x, |g|, n - |g|);
    }
    EndsInTime(g, x);
  }

  /** Finite chains everywhere is the same as having no cycle. */
  lemma ForestIffAcyclic(g: Graph)
    ensures Forest(g) <==> forall x :: x in g ==> !OnCycle(g, x)
  {
    if Forest(g) {
      forall x | x in g ensures !OnCycle(g, x) {
        if OnCycle(g, x) { CycleNeverEnds(g, x); }
      }
    }
    if forall x :: x in g ==> !OnCycle(g, x) {
      forall x | x in g ensures Ends(g, x) {
        EndsInTime(g, x);
        if Up(g, x, |g|).Some? {
          var i, j := LongWalkRepeats(g, x);
          var y := Up(g, x, i).value;
          UpAdd(g, x, i, j - i);
          assert OnCycle(g, y);
          assert false;
        }
      }
    }
  }

  /** One step of the recursive query: a row is in the subtree of `r` exactly when it is `r` or its parent is. */
  lemma SubtreeStep(g: Graph, x: Id, r: Id)
    requires x in g
    ensures x in Subtree(g, r) <==> x == r || (Parent(g, x).Some? && Parent(g, x).value in Subtree(g, r))
    ensures x in Descendants(g, r) <==> Parent(g, x).Some? && Parent(g, x).value in Subtree(g, r)
  {
    var p := Parent(g, x);
    assert Up(g, x, 0) == Some(x);
    assert Up(g, x, 1) == p;
    if p.Some? {
      if Below(g, p.value, r) {
        var k: nat :| Up(g, p.value, k) == Some(r);
        UpAdd(g, x, 1, k);
        assert Up(g, x, 1 + k) == Some(r);
      }
    }
    if ProperlyBelow(g, x, r) {
      var k: nat :| k >= 1 && Up(g, x, k) == Some(r);
      UpAdd(g, x, 1, k - 1);
      assert Up(g, p.value, k - 1) == Some(r);
    }
    if Below(g, x, r) && x != r {
      var k: nat :| Up(g, x, k) == Some(r);
      assert k >= 1;
      assert ProperlyBelow(g, x, r);
    }
  }

  /** Below is transitive along links, and a row off every cycle is not its own descendant. */
  lemma SubtreeNested(g: Graph, c: Id, r: Id)
    requires Parent(g, c) == Some(r) && !OnCycle(g, r)
    ensures Subtree(g, c) < Subtree(g, r)
    ensures r !in Subtree(g, c)
  {
    assert Up(g, c, 1) == Some(r) by { assert Up(g, c, 0) == Some(c); }
    forall x | x in Subtree(g, c) ensures x in Subtree(g, r) {
      var k: nat :| Up(g, x, k) == Some(c);
      UpAdd(g, x, k, 1);
      assert Up(g, x, k + 1) == Some(r);
    }
    if r in Subtree(g, c) {
      var k: nat :| Up(g, r, k) == Some(c);
      UpAdd(g, r, k, 1);
      assert false;
    }
    assert Up(g, r, 0) == Some(r);
  }

  lemma UpStep(g: Graph, x: Id, n: nat)
    requires Up(g, x, n).Some?
    ensures Up(g, x, n + 1) == Parent(g, Up(g, x, n).value)
  {}

  /** A set holding `r` and, with every row, the row's children holds the whole subtree. */
  lemma {:induction false} ClosedCovers(g: Graph, r: Id, s: set<Id>, x: Id, k: nat)
    requires r in s && Up(g, x, k) == Some(r)
    requires forall y :: y in g && Parent(g, y).Some? && Parent(g, y).value in s ==> y in s
    ensures x in s
    decreases k
  {
    if k > 0 {
      assert Up(g, x, 0) == Some(x);
      UpAdd(g, x, 1, k - 1);
      assert Up(g, x, 1) == Parent(g, x);
      ClosedCovers(g, r, s, Parent(g, x).value, k - 1);
    }
  }

  lemma ClosedCoversSubtree(g: Graph, r: Id, s: set<Id>)
    requires r in s
    requires forall y :: y in g && Parent(g, y).Some? && Parent(g, y).value in s ==> y in s
    ensures Subtree(g, r) <= s
  {
    forall x | x in Subtree(g, r) ensures x in s {
      var k: nat :| Up(g, x, k) == Some(r);
      ClosedCovers(g, r, s, x, k);
    }
  }
}
