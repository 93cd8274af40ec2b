/**
 * The location tree built through pointers, and the device counts added up in place from the
 * leaves. The reference definition is the recursive query of the status endpoint.
 */
module LocationTree {
  import opened Basics
  import opened ParentGraph
  import L = Locations

  /** A placed device; its status is whatever text the row holds. */
  datatype Device = Device(location: Id, status: string)

  datatype LocationStatus = LocationStatus(up: nat, down: nat, warning: nat, maintenance: nat, unknown: nat) {
    function Plus(o: LocationStatus): LocationStatus {
      LocationStatus(up + o.up, down + o.down, warning + o.warning, maintenance + o.maintenance, unknown + o.unknown)
    }

    function Total(): nat {
      up + down + warning + maintenance + unknown
    }
  }

  function NoDevices(): LocationStatus {
    LocationStatus(0, 0, 0, 0, 0)
  }

  /** The column of the status table a device adds to. */
  function One(status: string): LocationStatus {
    if status == "up" then LocationStatus(1, 0, 0, 0, 0)
    else if status == "down" then LocationStatus(0, 1, 0, 0, 0)
    else if status == "warning" then LocationStatus(0, 0, 1, 0, 0)
    else if status == "maintenance" then LocationStatus(0, 0, 0, 1, 0)
    else LocationStatus(0, 0, 0, 0, 1)
  }

  // ---------- The query: aggregate over a set of locations --------------------

  /** SELECT SUM(CASE ...) over the first `n` devices WHERE location_id IN `at`. */
  ghost function StatusAt(devices: seq<Device>, n: nat, at: set<Id>): LocationStatus
    requires n <= |devices|
  {
    if n == 0 then NoDevices()
    else if devices[n - 1].location in at then StatusAt(devices, n - 1, at).Plus(One(devices[n - 1].status))
    else StatusAt(devices, n - 1, at)
  }

  /** What GetLocationStatus returns for `id`. */
  ghost function QueryStatus(g: Graph, devices: seq<Device>, id: Id): LocationStatus {
    StatusAt(devices, |devices|, Subtree(g, id))
  }

  /** The number of devices the same condition selects. */
  ghost function QueryCount(devices: seq<Device>, n: nat, at: set<Id>): nat
    requires n <= |devices|
  {
    if n == 0 then 0 else QueryCount(devices, n - 1, at) + if devices[n - 1].location in at then 1 else 0
  }

  /** Every selected device is in exactly one of the five columns. */
  lemma {:induction false} CountIsTotal(devices: seq<Device>, n: nat, at: set<Id>)
    requires n <= |devices|
    ensures StatusAt(devices, n, at).Total() == QueryCount(devices, n, at)
  {
    if n > 0 {
      CountIsTotal(devices, n - 1, at);
      PlusOneTotal(StatusAt(devices, n - 1, at), devices[n - 1].status);
    }
  }

  /** Positions below `n` whose device is in `at` and has this status. */
  ghost function Having(devices: seq<Device>, n: nat, at: set<Id>, status: string): set<nat>
    requires n <= |devices|
  {
    set i: nat | i < n && devices[i].location in at && devices[i].status == status
  }

  ghost predicate IsUnnamed(status: string) {
    status != "up" && status != "down" && status != "warning" && status != "maintenance"
  }

  /** Those whose device has none of the four named statuses. */
  ghost function HavingNone(devices: seq<Device>, n: nat, at: set<Id>): set<nat>
    requires n <= |devices|
  {
    set i: nat | i < n && devices[i].location in at && IsUnnamed(devices[i].status)
  }

  /** Each column is the number of devices in `at` whose status it is named after; the last one counts all others. */
  ghost predicate ColumnsRight(devices: seq<Device>, n: nat, at: set<Id>, st: LocationStatus)
    requires n <= |devices|
  {
    && st.up == |Having(devices, n, at, "up")|
    && st.down == |Having(devices, n, at, "down")|
    && st.warning == |Having(devices, n, at, "warning")|
    && st.maintenance == |Having(devices, n, at, "maintenance")|
    && st.unknown == |HavingNone(devices, n, at)|
  }

  lemma HavingStep(devices: seq<Device>, n: nat, at: set<Id>, status: string)
    requires n < |devices|
    ensures |Having(devices, n + 1, at, status)| == |Having(devices, n, at, status)|
              + if devices[n].location in at && devices[n].status == status then 1 else 0
  {
    var before, after := Having(devices, n, at, status), Having(devices, n + 1, at, status);
    assert n !in before;
    assert after == if devices[n].location in at && devices[n].status == status then before + {n} else before;
  }

  lemma HavingNoneStep(devices: seq<Device>, n: nat, at: set<Id>)
    requires n < |devices|
    ensures |HavingNone(devices, n + 1, at)| == |HavingNone(devices, n, at)|
              + if devices[n].location in at && IsUnnamed(devices[n].status) then 1 else 0
  {
    var before, after := HavingNone(devices, n, at), HavingNone(devices, n + 1, at);
    assert n !in before;
    assert after == if devices[n].location in at && IsUnnamed(devices[n].status) then before + {n} else before;
  }

  lemma OneIs(status: string)
    ensures One(status).up == if status == "up" then 1 else 0
    ensures One(status).down == if status == "down" then 1 else 0
    ensures One(status).warning == if status == "warning" then 1 else 0
    ensures One(status).maintenance == if status == "maintenance" then 1 else 0
    ensures One(status).unknown == if IsUnnamed(status) then 1 else 0
  {
    assert |"up"| == 2 && |"down"| == 4 && |"warning"| == 7 && |"maintenance"| == 11;
  }

  lemma ColumnsStep(devices: seq<Device>, n: nat, at: set<Id>, st: LocationStatus)
    requires n < |devices| && ColumnsRight(devices, n, at, st)
    ensures ColumnsRight(devices, n + 1, at, if devices[n].location in at then st.Plus(One(devices[n].status)) else st)
  {
    HavingStep(devices, n, at, "up");
    HavingStep(devices, n, at, "down");
    HavingStep(devices, n, at, "warning");
    HavingStep(devices, n, at, "maintenance");
    HavingNoneStep(devices, n, at);
    OneIs(devices[n].status);
  }

  lemma {:induction false} ColumnsAre(devices: seq<Device>, n: nat, at: set<Id>)
    requires n <= |devices|
    ensures ColumnsRight(devices, n, at, StatusAt(devices, n, at))
  {
    if n == 0 {
      assert Having(devices, 0, at, "up") == Having(devices, 0, at, "down") == Having(devices, 0, at, "warning")
             == Having(devices, 0, at, "maintenance") == HavingNone(devices, 0, at) == {};
    } else {
      ColumnsAre(devices, n - 1, at);
      ColumnsStep(devices, n - 1, at, StatusAt(devices, n - 1, at));
    }
  }

  lemma PlusOneTotal(st: LocationStatus, status: string)
    ensures st.Plus(One(status)).Total() == st.Total() + 1
  {
    OneIs(status);
  }

  lemma PlusLaws(x: LocationStatus, y: LocationStatus, z: LocationStatus)
    ensures x.Plus(y).Plus(z) == x.Plus(z).Plus(y) == x.Plus(y.Plus(z))
  {}

  lemma {:induction false} StatusAdds(devices: seq<Device>, n: nat, a: set<Id>, b: set<Id>)
    requires n <= |devices| && a !! b
    ensures StatusAt(devices, n, a + b) == StatusAt(devices, n, a).Plus(StatusAt(devices, n, b))
  {
    if n > 0 {
      StatusAdds(devices, n - 1, a, b);
      PlusLaws(StatusAt(devices, n - 1, a), StatusAt(devices, n - 1, b), One(devices[n - 1].status));
    }
  }

  /** Counting over a set that holds every location counts every device. */
  lemma {:induction false} CountIsPlaced(devices: seq<Device>, n: nat, at: set<Id>)
    requires n <= |devices| && forall d :: d in devices ==> d.location in at
    ensures QueryCount(devices, n, at) == n
  {
    if n > 0 { CountIsPlaced(devices, n - 1, at); }
  }

  // ---------- Pointer structure ------------------------------------------------

  class Node {
    const id: Id
    const parent: Option<Id>
    var children: seq<Node>
    var deviceCount: nat
    var status: LocationStatus

    constructor (id: Id, parent: Option<Id>)
      ensures this.id == id && this.parent == parent
    {
      this.id, this.parent := id, parent;
      children, deviceCount, status := [], 0, NoDevices();
    }
  }

  /** The rows come from a table whose key is `id`. */
  ghost predicate DistinctIds(locs: seq<Node>) {
    forall i, j {:trigger IdsDiffer(locs, i, j)} :: 0 <= i < j < |locs| ==> IdsDiffer(locs, i, j)
  }

  ghost predicate IdsDiffer(locs: seq<Node>, i: nat, j: nat)
    requires i < |locs| && j < |locs|
  {
    locs[i].id != locs[j].id
  }

  lemma EarlierDiffer(locs: seq<Node>, j: nat)
    requires DistinctIds(locs) && j < |locs|
    ensures forall i :: 0 <= i < j ==> locs[i].id != locs[j].id
  {
    forall i | 0 <= i < j ensures locs[i].id != locs[j].id {
      assert IdsDiffer(locs, i, j);
    }
  }

  /** `locs` are the rows of the table with links `g`, in some order. */
  ghost predicate RowsOf(locs: seq<Node>, g: Graph) {
    && DistinctIds(locs)
    && (forall n :: n in locs ==> n.id in g && g[n.id] == n.parent)
    && (forall k {:trigger HasRow(locs, k)} :: k in g ==> HasRow(locs, k))
  }

  ghost predicate HasRow(locs: seq<Node>, k: Id) {
    exists i :: 0 <= i < |locs| && locs[i].id == k
  }

  /** Those of the first `k` rows whose parent is `p`, in row order. */
  ghost function ChildrenUpTo(locs: seq<Node>, k: nat, p: Id): seq<Node>
    requires k <= |locs|
  {
    if k == 0 then []
    else if locs[k - 1].parent == Some(p) then ChildrenUpTo(locs, k - 1, p) + [locs[k - 1]]
    else ChildrenUpTo(locs, k - 1, p)
  }

  ghost function ChildrenOf(locs: seq<Node>, p: Id): seq<Node> {
    ChildrenUpTo(locs, |locs|, p)
  }

  predicate HasParentIn(n: Node, ids: set<Id>) {
    n.parent.Some? && n.parent.value in ids
  }

  /** Those of the first `k` rows that have no parent among `ids`, in row order. */
  ghost function RootsUpTo(locs: seq<Node>, k: nat, ids: set<Id>): seq<Node>
    requires k <= |locs|
  {
    if k == 0 then []
    else if HasParentIn(locs[k - 1], ids) then RootsUpTo(locs, k - 1, ids)
    else RootsUpTo(locs, k - 1, ids) + [locs[k - 1]]
  }

  ghost function RootsOf(locs: seq<Node>, g: Graph): seq<Node> {
    RootsUpTo(locs, |locs|, g.Keys)
  }

  lemma {:induction false} ChildrenMember(locs: seq<Node>, k: nat, p: Id, n: Node)
    requires k <= |locs|
    ensures n in ChildrenUpTo(locs, k, p) <==> n.parent == Some(p) && exists i :: 0 <= i < k && locs[i] == n
  {
    if k > 0 { ChildrenMember(locs, k - 1, p, n); }
  }

  lemma {:induction false} RootsMember(locs: seq<Node>, k: nat, ids: set<Id>, n: Node)
    requires k <= |locs|
    ensures n in RootsUpTo(locs, k, ids) <==> !HasParentIn(n, ids) && exists i :: 0 <= i < k && locs[i] == n
  {
    if k > 0 { RootsMember(locs, k - 1, ids, n); }
  }

  lemma ChildIs(locs: seq<Node>, p: Id, n: Node)
    ensures n in ChildrenOf(locs, p) <==> n in locs && n.parent == Some(p)
  {
    ChildrenMember(locs, |locs|, p, n);
  }

  lemma RootIs(locs: seq<Node>, g: Graph, n: Node)
    ensures n in RootsOf(locs, g) <==> n in locs && !HasParentIn(n, g.Keys)
  {
    RootsMember(locs, |locs|, g.Keys, n);
  }

  ghost predicate Built(locs: seq<Node>)
    reads locs
  {
    forall n :: n in locs ==> n.children == ChildrenOf(locs, n.id)
  }

  /** The child lists after the first `i` rows were attached. */
  ghost predicate Attached(locs: seq<Node>, i: nat)
    requires i <= |locs|
    reads locs
  {
    forall n :: n in locs ==> n.children == ChildrenUpTo(locs, i, n.id)
  }

  method BuildTree(locs: seq<Node>, ghost g: Graph) returns (roots: seq<Node>)
    requires RowsOf(locs, g)
    modifies locs`children
    ensures roots == RootsOf(locs, g)
    ensures Built(locs)
  {
    var index := IndexById(locs, g);
    roots := [];
    var i := 0;
    while i < |locs|
      invariant 0 <= i <= |locs|
      invariant roots == RootsUpTo(locs, i, g.Keys)
      invariant Attached(locs, i)
    {
      roots := Turn(locs, g, i, index, roots);
      i := i + 1;
    }
  }

  /** One turn of the loop: the row joins its parent's list, or the roots when no row is its parent. */
  method Turn(locs: seq<Node>, ghost g: Graph, i: nat, index: map<Id, Node>, before: seq<Node>) returns (roots: seq<Node>)
    requires RowsOf(locs, g) && i < |locs| && Attached(locs, i) && IndexFor(index, locs, g)
    requires before == RootsUpTo(locs, i, g.Keys)
    modifies locs`children
    ensures Attached(locs, i + 1) && roots == RootsUpTo(locs, i + 1, g.Keys)
  {
    RootsStep(locs, i, g.Keys);
    var attached := Attach(locs, g, i, index);
    roots := if attached then before else before + [locs[i]];
  }

  /** The row joins its parent's list when the parent is among the rows. */
  method Attach(locs: seq<Node>, ghost g: Graph, i: nat, index: map<Id, Node>) returns (attached: bool)
    requires RowsOf(locs, g) && i < |locs| && Attached(locs, i) && IndexFor(index, locs, g)
    modifies locs`children
    ensures attached == HasParentIn(locs[i], g.Keys)
    ensures Attached(locs, i + 1)
  {
    var loc := locs[i];
    attached := loc.parent.Some? && loc.parent.value in index;
    if attached {
      var k := loc.parent.value;
      assert k in index;
      assert index[k] in locs;
      var parent := index[k];
      forall n | n in locs && n.id == parent.id ensures n == parent {
        SameNode(locs, n, parent);
      }
      assert parent.children == ChildrenUpTo(locs, i, parent.id);
      parent.children := parent.children + [loc];
    } else {
      NotAttachedStep(locs, g, i);
    }
  }

  ghost predicate IndexFor(index: map<Id, Node>, locs: seq<Node>, g: Graph) {
    && index.Keys == g.Keys
    && forall k {:trigger index[k]} :: k in index ==> index[k] in locs && index[k].id == k
  }

  /** One turn of the loop on the root list. */
  lemma RootsStep(locs: seq<Node>, i: nat, ids: set<Id>)
    requires i < |locs|
    ensures RootsUpTo(locs, i + 1, ids) == if HasParentIn(locs[i], ids) then RootsUpTo(locs, i, ids) else RootsUpTo(locs, i, ids) + [locs[i]]
  {}

  lemma NotAttachedStep(locs: seq<Node>, g: Graph, i: nat)
    requires RowsOf(locs, g)
    requires i < |locs| && !HasParentIn(locs[i], g.Keys)
    requires Attached(locs, i)
    ensures Attached(locs, i + 1)
  {}

  method IndexById(locs: seq<Node>, ghost g: Graph) returns (index: map<Id, Node>)
    requires RowsOf(locs, g)
    modifies locs`children
    ensures forall n :: n in locs ==> n.children == []
    ensures IndexFor(index, locs, g)
  {
    index := map[];
    var i := 0;
    while i < |locs|
      invariant 0 <= i <= |locs|
      invariant forall j :: 0 <= j < i ==> locs[j].children == []
      invariant forall j :: 0 <= j < i ==> locs[j].id in index
      invariant forall k :: k in index ==> index[k] in locs && index[k].id == k
    {
      locs[i].children := [];
      index := index[locs[i].id := locs[i]];
      i := i + 1;
    }
    forall k ensures k in index <==> k in g {
      assert k in g ==> HasRow(locs, k);
    }
  }

  lemma SameNode(locs: seq<Node>, n: Node, m: Node)
    requires DistinctIds(locs) && n in locs && m in locs && n.id == m.id
    ensures m == n
  {
    var i :| 0 <= i < |locs| && locs[i] == n;
    var j :| 0 <= j < |locs| && locs[j] == m;
    if i < j {
      EarlierDiffer(locs, j);
    } else if j < i {
      EarlierDiffer(locs, i);
    }
  }

  // ---------- Every location once ----------------------------------------------

  /** How often `m` occurs in the child lists of the first `j` rows, reading the first `k` rows as children. */
  ghost function ChildEntries(locs: seq<Node>, k: nat, j: nat, m: Node): nat
    requires k <= |locs| && j <= |locs|
  {
    if j == 0 then 0
    else ChildEntries(locs, k, j - 1, m) + Count(ChildrenUpTo(locs, k, locs[j - 1].id), m)
  }

  ghost predicate ParentAmong(locs: seq<Node>, n: Node, j: nat)
    requires j <= |locs|
  {
    exists i :: 0 <= i < j && n.parent == Some(locs[i].id)
  }

  /** One more row read as a child adds one entry to its parent's list. */
  lemma EntryStep(locs: seq<Node>, k: nat, p: Id, m: Node)
    requires k < |locs|
    ensures Count(ChildrenUpTo(locs, k + 1, p), m) == Count(ChildrenUpTo(locs, k, p), m)
              + if m == locs[k] && m.parent == Some(p) then 1 else 0
  {}

  lemma ParentAmongStep(locs: seq<Node>, g: Graph, m: Node, j: nat)
    requires RowsOf(locs, g) && j < |locs|
    ensures ParentAmong(locs, m, j + 1) <==> ParentAmong(locs, m, j) || m.parent == Some(locs[j].id)
    ensures m.parent == Some(locs[j].id) ==> !ParentAmong(locs, m, j)
  {
    EarlierDiffer(locs, j);
  }

  lemma {:induction false} ChildEntriesStep(locs: seq<Node>, g: Graph, k: nat, j: nat, m: Node)
    requires RowsOf(locs, g) && k < |locs| && j <= |locs|
    ensures ChildEntries(locs, k + 1, j, m) == ChildEntries(locs, k, j, m)
              + if m == locs[k] && ParentAmong(locs, m, j) then 1 else 0
  {
    if j > 0 {
      ChildEntriesStep(locs, g, k, j - 1, m);
      EntryStep(locs, k, locs[j - 1].id, m);
      ParentAmongStep(locs, g, m, j - 1);
    }
  }

  lemma {:induction false} NoRowsNoEntries(locs: seq<Node>, j: nat, m: Node)
    requires j <= |locs|
    ensures ChildEntries(locs, 0, j, m) == 0
  {
    if j > 0 { NoRowsNoEntries(locs, j - 1, m); }
  }

  ghost predicate Seen(locs: seq<Node>, k: nat, m: Node)
    requires k <= |locs|
  {
    exists i :: 0 <= i < k && locs[i] == m
  }

  lemma SeenStep(locs: seq<Node>, g: Graph, k: nat, m: Node)
    requires RowsOf(locs, g) && k < |locs|
    ensures Seen(locs, k + 1, m) <==> Seen(locs, k, m) || m == locs[k]
    ensures m == locs[k] ==> !Seen(locs, k, m)
  {
    EarlierDiffer(locs, k);
  }

  lemma RootEntryStep(locs: seq<Node>, k: nat, ids: set<Id>, m: Node)
    requires k < |locs|
    ensures Count(RootsUpTo(locs, k + 1, ids), m) == Count(RootsUpTo(locs, k, ids), m)
              + if m == locs[k] && !HasParentIn(m, ids) then 1 else 0
  {}

  lemma {:induction false} SeenOnce(locs: seq<Node>, g: Graph, k: nat, m: Node)
    requires RowsOf(locs, g) && k <= |locs|
    ensures Count(RootsUpTo(locs, k, g.Keys), m) + ChildEntries(locs, k, |locs|, m) == if Seen(locs, k, m) then 1 else 0
  {
    if k == 0 {
      NoRowsNoEntries(locs, |locs|, m);
    } else {
      var j := k - 1;
      SeenOnce(locs, g, j, m);
      ChildEntriesStep(locs, g, j, |locs|, m);
      RootEntryStep(locs, j, g.Keys, m);
      SeenStep(locs, g, j, m);
      ParentIsRow(locs, g, m);
      OneMore(Count(RootsUpTo(locs, j, g.Keys), m), ChildEntries(locs, j, |locs|, m), Count(RootsUpTo(locs, k, g.Keys), m), ChildEntries(locs, k, |locs|, m),
              Seen(locs, j, m), m == locs[j], HasParentIn(m, g.Keys));
    }
  }

  /** A row met for the first time becomes a root or a child entry, not both. */
  lemma OneMore(roots: nat, entries: nat, rootsAfter: nat, entriesAfter: nat, seen: bool, isNext: bool, hasParent: bool)
    requires roots + entries == (if seen then 1 else 0) && !(seen && isNext)
    requires rootsAfter == roots + (if isNext && !hasParent then 1 else 0)
    requires entriesAfter == entries + (if isNext && hasParent then 1 else 0)
    ensures rootsAfter + entriesAfter == if seen || isNext then 1 else 0
  {}

  lemma ParentIsRow(locs: seq<Node>, g: Graph, m: Node)
    requires RowsOf(locs, g)
    ensures ParentAmong(locs, m, |locs|) <==> HasParentIn(m, g.Keys)
  {
    if HasParentIn(m, g.Keys) {
      assert HasRow(locs, m.parent.value);
    }
  }

  /** Root list and child lists together hold every location exactly once. */
  ghost predicate EachOnce(locs: seq<Node>, roots: seq<Node>) {
    forall m :: m in locs ==> Count(roots, m) + ChildEntries(locs, |locs|, |locs|, m) == 1
  }

  lemma EachLocationOnce(locs: seq<Node>, g: Graph)
    requires RowsOf(locs, g)
    ensures EachOnce(locs, RootsOf(locs, g))
  {
    forall m | m in locs ensures Count(RootsOf(locs, g), m) + ChildEntries(locs, |locs|, |locs|, m) == 1 {
      SeenOnce(locs, g, |locs|, m);
      assert Seen(locs, |locs|, m);
    }
  }

  // ---------- Disjoint subtrees -------------------------------------------------

  lemma ChainIsLinear(g: Graph, x: Id, a: Id, b: Id, j: nat, k: nat)
    requires Up(g, x, j) == Some(a) && Up(g, x, k) == Some(b) && j <= k
    ensures Below(g, a, b)
  {
    UpAdd(g, x, j, k - j);
  }

  /** Two rows that are not above one another have disjoint subtrees. */
  lemma Unrelated(g: Graph, a: Id, b: Id)
    requires a in g && b in g && !Below(g, a, b) && !Below(g, b, a)
    ensures Subtree(g, a) !! Subtree(g, b)
  {
    forall x | x in Subtree(g, a) ensures x !in Subtree(g, b) {
      var j: nat :| Up(g, x, j) == Some(a);
      forall k: nat ensures Up(g, x, k) != Some(b) {
        if Up(g, x, k) == Some(b) {
          if j <= k {
            ChainIsLinear(g, x, a, b, j, k);
          } else {
            ChainIsLinear(g, x, b, a, k, j);
          }
        }
      }
    }
  }

  lemma SiblingsDisjoint(g: Graph, a: Id, b: Id, p: Id)
    requires Forest(g) && a != b && Parent(g, a) == Some(p) && Parent(g, b) == Some(p)
    ensures Subtree(g, a) !! Subtree(g, b)
  {
    ForestIffAcyclic(g);
    SubtreeNested(g, a, p);
    SubtreeNested(g, b, p);
    SubtreeStep(g, a, b);
    SubtreeStep(g, b, a);
    Unrelated(g, a, b);
  }

  lemma RootsDisjoint(g: Graph, a: Id, b: Id)
    requires a in g && b in g && a != b && Parent(g, a).None? && Parent(g, b).None?
    ensures Subtree(g, a) !! Subtree(g, b)
  {
    SubtreeStep(g, a, b);
    SubtreeStep(g, b, a);
    Unrelated(g, a, b);
  }

  /** The union of the subtrees of the first `k` of some rows. */
  ghost function Covered(g: Graph, nodes: seq<Node>, k: nat): set<Id>
    requires k <= |nodes|
  {
    if k == 0 then {} else Covered(g, nodes, k - 1) + Subtree(g, nodes[k - 1].id)
  }

  lemma {:induction false} CoveredMember(g: Graph, nodes: seq<Node>, k: nat, x: Id)
    requires k <= |nodes|
    ensures x in Covered(g, nodes, k) <==> exists i :: 0 <= i < k && x in Subtree(g, nodes[i].id)
  {
    if k > 0 { CoveredMember(g, nodes, k - 1, x); }
  }

  /** The child of `n` on the way from `x` up to `n`. */
  lemma ChildTowards(locs: seq<Node>, g: Graph, n: Node, x: Id) returns (m: Node)
    requires RowsOf(locs, g) && n in locs
    requires x in Subtree(g, n.id) && x != n.id
    ensures m in locs && m.parent == Some(n.id) && x in Subtree(g, m.id)
  {
    var k: nat :| Up(g, x, k) == Some(n.id);
    var c := Up(g, x, k - 1).value;
    UpStep(g, x, k - 1);
    assert HasRow(locs, c);
    m :| m in locs && m.id == c;
  }

  /** A location's subtree is itself plus the subtrees of its children. */
  lemma SubtreeIsChildren(locs: seq<Node>, g: Graph, n: Node)
    requires RowsOf(locs, g) && n in locs && Forest(g)
    ensures var kids := ChildrenOf(locs, n.id);
            Subtree(g, n.id) == {n.id} + Covered(g, kids, |kids|)
  {
    var kids := ChildrenOf(locs, n.id);
    ForestIffAcyclic(g);
    assert Up(g, n.id, 0) == Some(n.id);
    forall x | x in Covered(g, kids, |kids|) ensures x in Subtree(g, n.id) {
      CoveredMember(g, kids, |kids|, x);
      var i :| 0 <= i < |kids| && x in Subtree(g, kids[i].id);
      ChildIs(locs, n.id, kids[i]);
      SubtreeNested(g, kids[i].id, n.id);
    }
    forall x | x in Subtree(g, n.id) && x != n.id ensures x in Covered(g, kids, |kids|) {
      var m := ChildTowards(locs, g, n, x);
      ChildIs(locs, n.id, m);
      var i :| 0 <= i < |kids| && kids[i] == m;
      CoveredMember(g, kids, |kids|, x);
    }
  }

  /** On a forest every row is below a row without parent. */
  lemma {:induction false} RootAbove(g: Graph, x: Id, n: nat) returns (r: Id)
    requires x in g && Up(g, x, n).None?
    ensures r in g && Parent(g, r).None? && x in Subtree(g, r)
  {
    assert Up(g, x, 0) == Some(x);
    if Up(g, x, n - 1).None? {
      r := RootAbove(g, x, n - 1);
    } else {
      UpStep(g, x, n - 1);
      r := Up(g, x, n - 1).value;
    }
  }

  lemma RootsCoverAll(locs: seq<Node>, g: Graph)
    requires RowsOf(locs, g) && Forest(g)
    ensures Covered(g, RootsOf(locs, g), |RootsOf(locs, g)|) == g.Keys
  {
    var roots := RootsOf(locs, g);
    forall x ensures x in Covered(g, roots, |roots|) <==> x in g {
      CoveredMember(g, roots, |roots|, x);
      if x in g {
        assert Ends(g, x);
        var n: nat :| Up(g, x, n).None?;
        var r := RootAbove(g, x, n);
        assert HasRow(locs, r);
        var m :| m in locs && m.id == r;
        RootIs(locs, g, m);
        var i :| 0 <= i < |roots| && roots[i] == m;
      }
    }
  }

  lemma ExtendDistinct(s: seq<Node>, n: Node)
    requires DistinctIds(s) && forall i :: 0 <= i < |s| ==> s[i].id != n.id
    ensures DistinctIds(s + [n])
  {
    forall i, j | 0 <= i < j < |s + [n]| ensures IdsDiffer(s + [n], i, j) {
      if j < |s| { assert IdsDiffer(s, i, j); }
    }
  }

  lemma {:induction false} ChildrenDistinct(locs: seq<Node>, g: Graph, k: nat, p: Id)
    requires k <= |locs| && RowsOf(locs, g)
    ensures DistinctIds(ChildrenUpTo(locs, k, p))
  {
    if k > 0 {
      ChildrenDistinct(locs, g, k - 1, p);
      var kids := ChildrenUpTo(locs, k - 1, p);
      EarlierDiffer(locs, k - 1);
      forall i | 0 <= i < |kids| ensures kids[i].id != locs[k - 1].id {
        ChildrenMember(locs, k - 1, p, kids[i]);
      }
      ExtendDistinct(kids, locs[k - 1]);
    }
  }

  lemma {:induction false} RootsDistinct(locs: seq<Node>, g: Graph, k: nat, ids: set<Id>)
    requires k <= |locs| && RowsOf(locs, g)
    ensures DistinctIds(RootsUpTo(locs, k, ids))
  {
    if k > 0 {
      RootsDistinct(locs, g, k - 1, ids);
      var roots := RootsUpTo(locs, k - 1, ids);
      EarlierDiffer(locs, k - 1);
      forall i | 0 <= i < |roots| ensures roots[i].id != locs[k - 1].id {
        RootsMember(locs, k - 1, ids, roots[i]);
      }
      ExtendDistinct(roots, locs[k - 1]);
    }
  }

  /** Sibling subtrees are disjoint from each other and from the parent. */
  lemma KidsApart(locs: seq<Node>, g: Graph, n: Node, i: nat, j: nat)
    requires RowsOf(locs, g) && n in locs && Forest(g)
    requires i < j < |ChildrenOf(locs, n.id)|
    ensures var kids := ChildrenOf(locs, n.id);
            Subtree(g, kids[i].id) !! Subtree(g, kids[j].id)
  {
    var kids := ChildrenOf(locs, n.id);
    ChildrenDistinct(locs, g, |locs|, n.id);
    ChildIs(locs, n.id, kids[i]);
    ChildIs(locs, n.id, kids[j]);
    assert IdsDiffer(kids, i, j);
    SiblingsDisjoint(g, kids[i].id, kids[j].id, n.id);
  }

  lemma RootsApart(locs: seq<Node>, g: Graph, i: nat, j: nat)
    requires RowsOf(locs, g) && i < j < |RootsOf(locs, g)|
    ensures var roots := RootsOf(locs, g);
            Subtree(g, roots[i].id) !! Subtree(g, roots[j].id)
  {
    var roots := RootsOf(locs, g);
    RootsDistinct(locs, g, |locs|, g.Keys);
    RootIs(locs, g, roots[i]);
    RootIs(locs, g, roots[j]);
    assert IdsDiffer(roots, i, j);
    RootsDisjoint(g, roots[i].id, roots[j].id);
  }

  // ---------- Per-location rows --------------------------------------------------

  function Own(statusMap: map<Id, LocationStatus>, id: Id): LocationStatus {
    if id in statusMap then statusMap[id] else NoDevices()
  }

  function OwnCount(countMap: map<Id, nat>, id: Id): nat {
    if id in countMap then countMap[id] else 0
  }

  /** Per-location status rows and counts after the first `n` devices. */
  ghost predicate IsAggregate(devices: seq<Device>, n: nat, statusMap: map<Id, LocationStatus>, countMap: map<Id, nat>)
    requires n <= |devices|
  {
    forall id :: Own(statusMap, id) == StatusAt(devices, n, {id}) && OwnCount(countMap, id) == QueryCount(devices, n, {id})
  }

  method Increment(st: LocationStatus, status: string) returns (r: LocationStatus)
    ensures r == st.Plus(One(status))
  {
    match status
    case "up" => r := st.(up := st.up + 1);
    case "down" => r := st.(down := st.down + 1);
    case "warning" => r := st.(warning := st.warning + 1);
    case "maintenance" => r := st.(maintenance := st.maintenance + 1);
    case _ => r := st.(unknown := st.unknown + 1);
  }

  method Aggregate(devices: seq<Device>) returns (statusMap: map<Id, LocationStatus>, countMap: map<Id, nat>)
    ensures IsAggregate(devices, |devices|, statusMap, countMap)
  {
    statusMap, countMap := map[], map[];
    var i := 0;
    while i < |devices|
      invariant 0 <= i <= |devices|
      invariant IsAggregate(devices, i, statusMap, countMap)
    {
      var d := devices[i];
      var st, n := Own(statusMap, d.location), OwnCount(countMap, d.location);
      st := Increment(st, d.status);
      AggregateStep(devices, i, statusMap, countMap, st);
      countMap := countMap[d.location := n + 1];
      statusMap := statusMap[d.location := st];
      i := i + 1;
    }
  }

  lemma AggregateStep(devices: seq<Device>, i: nat, statusMap: map<Id, LocationStatus>, countMap: map<Id, nat>, st: LocationStatus)
    requires i < |devices| && IsAggregate(devices, i, statusMap, countMap)
    requires st == Own(statusMap, devices[i].location).Plus(One(devices[i].status))
    ensures IsAggregate(devices, i + 1, statusMap[devices[i].location := st], countMap[devices[i].location := OwnCount(countMap, devices[i].location) + 1])
  {}

  // ---------- Counting upward ----------------------------------------------------

  /** The results a node should end with. */
  datatype Totals = Totals(status: LocationStatus, count: nat)

  /** The counters of every node equal the query over the node's subtree. */
  ghost predicate Summed(locs: seq<Node>, g: Graph, devices: seq<Device>)
    requires RowsOf(locs, g)
    reads locs
  {
    forall m :: m in locs ==>
      && m.status == QueryStatus(g, devices, m.id)
      && m.deviceCount == QueryCount(devices, |devices|, Subtree(g, m.id))
  }

  /** The columns of every node count the devices in its subtree by their status texts. */
  ghost predicate ColumnsPerNode(locs: seq<Node>, g: Graph, devices: seq<Device>)
    reads locs
  {
    forall m :: m in locs ==> ColumnsRight(devices, |devices|, Subtree(g, m.id), m.status)
  }

  lemma SummedColumns(locs: seq<Node>, g: Graph, devices: seq<Device>)
    requires RowsOf(locs, g) && Summed(locs, g, devices)
    ensures ColumnsPerNode(locs, g, devices)
  {
    forall m | m in locs ensures ColumnsRight(devices, |devices|, Subtree(g, m.id), m.status) {
      ColumnsAre(devices, |devices|, Subtree(g, m.id));
    }
  }

  /** `own` plus the results of the first `i` children, in order. */
  ghost function PlusKids(own: Totals, totals: map<Node, Totals>, kids: seq<Node>, i: nat): Totals
    requires i <= |kids| && forall c :: c in kids ==> c in totals
  {
    if i == 0 then own
    else
      var before := PlusKids(own, totals, kids, i - 1);
      Totals(before.status.Plus(totals[kids[i - 1]].status), before.count + totals[kids[i - 1]].count)
  }

  ghost predicate UnderSome(x: Node, kids: seq<Node>, sub: map<Node, set<Node>>) {
    exists i :: 0 <= i < |kids| && kids[i] in sub && x in sub[kids[i]]
  }

  /** What the upward walk relies on at `n`: `sub` are the subtrees, `totals` the intended results. */
  ghost predicate PlanAt(n: Node, kids: seq<Node>, sub: map<Node, set<Node>>, totals: map<Node, Totals>, own: Totals) {
    && n in sub && n in totals && n in sub[n]
    && (forall c :: c in kids ==> c in sub && c in totals && c in sub[c] && sub[c] < sub[n] && n !in sub[c])
    && (forall i, j :: 0 <= i < j < |kids| ==> sub[kids[i]] !! sub[kids[j]])
    && (forall x :: x in sub[n] && x != n ==> UnderSome(x, kids, sub))
    && PlusKids(own, totals, kids, |kids|) == totals[n]
  }

  ghost function OwnTotals(statusMap: map<Id, LocationStatus>, countMap: map<Id, nat>, id: Id): Totals {
    Totals(Own(statusMap, id), OwnCount(countMap, id))
  }

  ghost predicate Plan(sub: map<Node, set<Node>>, totals: map<Node, Totals>, statusMap: map<Id, LocationStatus>, countMap: map<Id, nat>)
    reads sub.Keys`children
  {
    forall n {:trigger PlanAt(n, n.children, sub, totals, OwnTotals(statusMap, countMap, n.id))} ::
      n in sub ==> PlanAt(n, n.children, sub, totals, OwnTotals(statusMap, countMap, n.id))
  }

  ghost predicate Settled(nodes: set<Node>, totals: map<Node, Totals>)
    reads nodes
  {
    forall m :: m in nodes ==> m in totals && Totals(m.status, m.deviceCount) == totals[m]
  }

  /** The subtrees of the first `i` children are settled. */
  ghost predicate SettledKids(kids: seq<Node>, i: nat, sub: map<Node, set<Node>>, totals: map<Node, Totals>)
    reads set c, m | c in kids && c in sub && m in sub[c] :: m
  {
    forall j :: 0 <= j < i && j < |kids| && kids[j] in sub ==> Settled(sub[kids[j]], totals)
  }

  /** After `i` children, `n` holds its own counters plus theirs and they are settled. */
  ghost predicate Partial(n: Node, i: nat, own: Totals, sub: map<Node, set<Node>>, totals: map<Node, Totals>)
    reads n, set c, m | c in n.children && c in sub && m in sub[c] :: m
  {
    && i <= |n.children| && (forall c :: c in n.children ==> c in totals)
    && Totals(n.status, n.deviceCount) == PlusKids(own, totals, n.children, i)
    && SettledKids(n.children, i, sub, totals)
  }

  /** Post-order walk adding each child's counters to its parent's. */
  method Propagate(n: Node, ghost sub: map<Node, set<Node>>, ghost totals: map<Node, Totals>,
                   statusMap: map<Id, LocationStatus>, countMap: map<Id, nat>)
    requires n in sub && Plan(sub, totals, statusMap, countMap)
    modifies sub[n]`status, sub[n]`deviceCount
    ensures Settled(sub[n], totals)
    decreases sub[n], 1
  {
    NodeInOwnSubtree(n, sub, totals, statusMap, countMap);
    n.status := Own(statusMap, n.id);
    n.deviceCount := OwnCount(countMap, n.id);
    StartPartial(n, sub, totals, statusMap, countMap);
    var i := 0;
    while i < |n.children|
      invariant 0 <= i <= |n.children|
      invariant Partial(n, i, OwnTotals(statusMap, countMap, n.id), sub, totals)
    {
      VisitChild(n, i, sub, totals, statusMap, countMap);
      i := i + 1;
    }
    AllKidsSettle(n, sub, totals, statusMap, countMap);
  }

  /** Walks the `i`-th of some disjoint subtrees; the earlier ones stay as they are. */
  method Visit(nodes: seq<Node>, i: nat, ghost sub: map<Node, set<Node>>, ghost totals: map<Node, Totals>,
               statusMap: map<Id, LocationStatus>, countMap: map<Id, nat>)
    requires Plan(sub, totals, statusMap, countMap) && i < |nodes| && nodes[i] in sub
    requires forall j :: 0 <= j < i && nodes[j] in sub ==> sub[nodes[j]] !! sub[nodes[i]]
    requires SettledKids(nodes, i, sub, totals)
    modifies sub[nodes[i]]`status, sub[nodes[i]]`deviceCount
    ensures SettledKids(nodes, i + 1, sub, totals)
    decreases sub[nodes[i]], 2
  {
    Propagate(nodes[i], sub, totals, statusMap, countMap);
    forall j | 0 <= j < i && nodes[j] in sub ensures Settled(sub[nodes[j]], totals) {
      assert old(Settled(sub[nodes[j]], totals));
    }
  }

  /** One turn of the loop above: walk the `i`-th child, then add its counters. */
  method VisitChild(n: Node, i: nat, ghost sub: map<Node, set<Node>>, ghost totals: map<Node, Totals>,
                    statusMap: map<Id, LocationStatus>, countMap: map<Id, nat>)
    requires n in sub && Plan(sub, totals, statusMap, countMap) && i < |n.children|
    requires Partial(n, i, OwnTotals(statusMap, countMap, n.id), sub, totals)
    modifies sub[n]`status, sub[n]`deviceCount
    ensures Partial(n, i + 1, OwnTotals(statusMap, countMap, n.id), sub, totals)
    decreases sub[n], 0
  {
    ghost var own := OwnTotals(statusMap, countMap, n.id);
    assert PlanAt(n, n.children, sub, totals, own);
    Visit(n.children, i, sub, totals, statusMap, countMap);
    AddSettledChild(n, i, own, sub, totals);
  }

  /** Adds the counters of a settled child; the children's subtrees do not contain `n` and stay as they are. */
  method AddSettledChild(n: Node, i: nat, ghost own: Totals, ghost sub: map<Node, set<Node>>, ghost totals: map<Node, Totals>)
    requires i < |n.children|
    requires forall c :: c in n.children ==> c in totals && c in sub && c in sub[c] && n !in sub[c]
    requires Totals(n.status, n.deviceCount) == PlusKids(own, totals, n.children, i)
    requires SettledKids(n.children, i + 1, sub, totals)
    modifies n`status, n`deviceCount
    ensures Partial(n, i + 1, own, sub, totals)
  {
    var child := n.children[i];
    assert Settled(sub[child], totals);
    AddChild(n, child);
    assert Totals(n.status, n.deviceCount) == PlusKids(own, totals, n.children, i + 1);
  }

  lemma NodeInOwnSubtree(n: Node, sub: map<Node, set<Node>>, totals: map<Node, Totals>, statusMap: map<Id, LocationStatus>, countMap: map<Id, nat>)
    requires n in sub && Plan(sub, totals, statusMap, countMap)
    ensures n in sub[n]
  {
    assert PlanAt(n, n.children, sub, totals, OwnTotals(statusMap, countMap, n.id));
  }

  lemma StartPartial(n: Node, sub: map<Node, set<Node>>, totals: map<Node, Totals>, statusMap: map<Id, LocationStatus>, countMap: map<Id, nat>)
    requires n in sub && Plan(sub, totals, statusMap, countMap)
    requires n.status == Own(statusMap, n.id) && n.deviceCount == OwnCount(countMap, n.id)
    ensures Partial(n, 0, OwnTotals(statusMap, countMap, n.id), sub, totals)
  {
    assert PlanAt(n, n.children, sub, totals, OwnTotals(statusMap, countMap, n.id));
  }

  method AddChild(n: Node, child: Node)
    modifies n`status, n`deviceCount
    ensures n.deviceCount == old(n.deviceCount) + old(child.deviceCount)
    ensures n.status == old(n.status).Plus(old(child.status))
  {
    n.deviceCount := n.deviceCount + child.deviceCount;
    n.status := n.status.(up := n.status.up + child.status.up, down := n.status.down + child.status.down,
                          warning := n.status.warning + child.status.warning,
                          maintenance := n.status.maintenance + child.status.maintenance,
                          unknown := n.status.unknown + child.status.unknown);
  }

  lemma AllKidsSettle(n: Node, sub: map<Node, set<Node>>, totals: map<Node, Totals>, statusMap: map<Id, LocationStatus>, countMap: map<Id, nat>)
    requires n in sub && Plan(sub, totals, statusMap, countMap)
    requires Partial(n, |n.children|, OwnTotals(statusMap, countMap, n.id), sub, totals)
    ensures Settled(sub[n], totals)
  {
    assert PlanAt(n, n.children, sub, totals, OwnTotals(statusMap, countMap, n.id));
    var kids := n.children;
    forall m | m in sub[n] ensures m in totals && Totals(m.status, m.deviceCount) == totals[m] {
      if m != n {
        assert UnderSome(m, kids, sub);
        var j :| 0 <= j < |kids| && kids[j] in sub && m in sub[kids[j]];
        assert Settled(sub[kids[j]], totals);
      }
    }
  }

  // ---------- The plan of a forest ------------------------------------------------

  /** The nodes whose id is in `ids`. */
  ghost function Team(locs: seq<Node>, ids: set<Id>): set<Node> {
    set m | m in locs && m.id in ids
  }

  lemma TeamsApart(locs: seq<Node>, a: set<Id>, b: set<Id>)
    requires a !! b
    ensures Team(locs, a) !! Team(locs, b)
  {}

  ghost function Subtrees(locs: seq<Node>, g: Graph): map<Node, set<Node>>
    requires RowsOf(locs, g)
  {
    map n | n in locs :: Team(locs, Subtree(g, n.id))
  }

  ghost function Query(devices: seq<Device>, at: set<Id>): Totals {
    Totals(StatusAt(devices, |devices|, at), QueryCount(devices, |devices|, at))
  }

  ghost function Results(locs: seq<Node>, g: Graph, devices: seq<Device>): map<Node, Totals>
    requires RowsOf(locs, g)
  {
    map n | n in locs :: Query(devices, Subtree(g, n.id))
  }

  lemma QueryAdds(devices: seq<Device>, a: set<Id>, b: set<Id>)
    requires a !! b
    ensures Query(devices, a + b) == Totals(Query(devices, a).status.Plus(Query(devices, b).status), Query(devices, a).count + Query(devices, b).count)
  {
    StatusAdds(devices, |devices|, a, b);
    CountAdds(devices, |devices|, a, b);
  }

  lemma {:induction false} CountAdds(devices: seq<Device>, n: nat, a: set<Id>, b: set<Id>)
    requires n <= |devices| && a !! b
    ensures QueryCount(devices, n, a + b) == QueryCount(devices, n, a) + QueryCount(devices, n, b)
  {
    if n > 0 { CountAdds(devices, n - 1, a, b); }
  }

  /** The subtrees and query results of a forest of rows form such a plan. */
  lemma PlanHolds(locs: seq<Node>, g: Graph, devices: seq<Device>, statusMap: map<Id, LocationStatus>, countMap: map<Id, nat>)
    requires RowsOf(locs, g) && Forest(g) && Built(locs)
    requires IsAggregate(devices, |devices|, statusMap, countMap)
    ensures Plan(Subtrees(locs, g), Results(locs, g, devices), statusMap, countMap)
  {
    forall n | n in locs ensures PlanAt(n, n.children, Subtrees(locs, g), Results(locs, g, devices), OwnTotals(statusMap, countMap, n.id)) {
      assert Own(statusMap, n.id) == StatusAt(devices, |devices|, {n.id}) && OwnCount(countMap, n.id) == QueryCount(devices, |devices|, {n.id});
      PlanHoldsAt(locs, g, devices, n);
    }
  }

  lemma PlanHoldsAt(locs: seq<Node>, g: Graph, devices: seq<Device>, n: Node)
    requires RowsOf(locs, g) && Forest(g) && n in locs
    ensures PlanAt(n, ChildrenOf(locs, n.id), Subtrees(locs, g), Results(locs, g, devices), Query(devices, {n.id}))
  {
    var kids := ChildrenOf(locs, n.id);
    SubtreeHasSelf(locs, g, n);
    KidsNest(locs, g, n);
    KidsDisjoint(locs, g, n);
    KidsCover(locs, g, n);
    KidsAddUp(locs, g, devices, n, |kids|);
    SubtreeIsChildren(locs, g, n);
  }

  lemma SubtreeHasSelf(locs: seq<Node>, g: Graph, n: Node)
    requires RowsOf(locs, g) && n in locs
    ensures n.id in Subtree(g, n.id) && n in Subtrees(locs, g)[n]
  {
    assert Up(g, n.id, 0) == Some(n.id);
  }

  lemma KidsNest(locs: seq<Node>, g: Graph, n: Node)
    requires RowsOf(locs, g) && Forest(g) && n in locs
    ensures var sub := Subtrees(locs, g);
            forall c :: c in ChildrenOf(locs, n.id) ==> c in sub && c in sub[c] && sub[c] < sub[n] && n !in sub[c]
  {
    var sub := Subtrees(locs, g);
    ForestIffAcyclic(g);
    SubtreeHasSelf(locs, g, n);
    forall c | c in ChildrenOf(locs, n.id) ensures c in sub && c in sub[c] && sub[c] < sub[n] && n !in sub[c] {
      ChildIs(locs, n.id, c);
      SubtreeHasSelf(locs, g, c);
      SubtreeNested(g, c.id, n.id);
      assert n !in sub[c];
    }
  }

  lemma KidsDisjoint(locs: seq<Node>, g: Graph, n: Node)
    requires RowsOf(locs, g) && Forest(g) && n in locs
    requires forall c :: c in ChildrenOf(locs, n.id) ==> c in Subtrees(locs, g)
    ensures var kids, sub := ChildrenOf(locs, n.id), Subtrees(locs, g);
            forall i, j :: 0 <= i < j < |kids| ==> sub[kids[i]] !! sub[kids[j]]
  {
    var kids, sub := ChildrenOf(locs, n.id), Subtrees(locs, g);
    forall i, j | 0 <= i < j < |kids| ensures sub[kids[i]] !! sub[kids[j]] {
      KidsApart(locs, g, n, i, j);
      TeamsApart(locs, Subtree(g, kids[i].id), Subtree(g, kids[j].id));
    }
  }

  lemma KidsCover(locs: seq<Node>, g: Graph, n: Node)
    requires RowsOf(locs, g) && n in locs
    ensures var kids, sub := ChildrenOf(locs, n.id), Subtrees(locs, g);
            forall x :: x in sub[n] && x != n ==> UnderSome(x, kids, sub)
  {
    var kids, sub := ChildrenOf(locs, n.id), Subtrees(locs, g);
    forall x | x in sub[n] && x != n ensures UnderSome(x, kids, sub) {
      if x.id == n.id { SameNode(locs, n, x); }
      var c := ChildTowards(locs, g, n, x.id);
      ChildIs(locs, n.id, c);
      var i :| 0 <= i < |kids| && kids[i] == c;
      assert x in sub[kids[i]];
    }
  }

  /** One more child's subtree is disjoint from the parent and the earlier children's. */
  lemma {:induction false} NextKid(locs: seq<Node>, g: Graph, n: Node, i: nat)
    requires RowsOf(locs, g) && Forest(g) && n in locs && i < |ChildrenOf(locs, n.id)|
    ensures var kids := ChildrenOf(locs, n.id);
            kids[i] in locs && ({n.id} + Covered(g, kids, i)) !! Subtree(g, kids[i].id)
  {
    var kids := ChildrenOf(locs, n.id);
    ForestIffAcyclic(g);
    ChildIs(locs, n.id, kids[i]);
    SubtreeNested(g, kids[i].id, n.id);
    forall x | x in Covered(g, kids, i) ensures x !in Subtree(g, kids[i].id) {
      CoveredMember(g, kids, i, x);
      var j :| 0 <= j < i && x in Subtree(g, kids[j].id);
      KidsApart(locs, g, n, j, i);
    }
  }

  lemma AddNextKid(locs: seq<Node>, devices: seq<Device>, n: Node, before: set<Id>, sub: set<Id>, after: set<Id>)
    requires before !! sub && after == before + sub
    ensures Query(devices, after) == Totals(Query(devices, before).status.Plus(Query(devices, sub).status), Query(devices, before).count + Query(devices, sub).count)
  {
    QueryAdds(devices, before, sub);
  }

  lemma {:induction false} KidsAddUp(locs: seq<Node>, g: Graph, devices: seq<Device>, n: Node, i: nat)
    requires RowsOf(locs, g) && Forest(g) && n in locs && i <= |ChildrenOf(locs, n.id)|
    requires forall c :: c in ChildrenOf(locs, n.id) ==> c in Results(locs, g, devices)
    ensures var kids := ChildrenOf(locs, n.id);
            PlusKids(Query(devices, {n.id}), Results(locs, g, devices), kids, i) == Query(devices, {n.id} + Covered(g, kids, i))
  {
    var kids := ChildrenOf(locs, n.id);
    if i == 0 {
      assert {n.id} + Covered(g, kids, 0) == {n.id};
    } else {
      KidsAddUp(locs, g, devices, n, i - 1);
      NextKid(locs, g, n, i - 1);
      AddNextKid(locs, devices, n, {n.id} + Covered(g, kids, i - 1), Subtree(g, kids[i - 1].id), {n.id} + Covered(g, kids, i));
    }
  }

  // ---------- The endpoint ---------------------------------------------------------

  ghost function AllOf(roots: seq<Node>, sub: map<Node, set<Node>>): set<Node> {
    set r, m | r in roots && r in sub && m in sub[r] :: m
  }

  /** The walk from every root. */
  method PropagateAll(roots: seq<Node>, ghost sub: map<Node, set<Node>>, ghost totals: map<Node, Totals>,
                      statusMap: map<Id, LocationStatus>, countMap: map<Id, nat>)
    requires Plan(sub, totals, statusMap, countMap)
    requires forall r :: r in roots ==> r in sub
    requires forall i, j :: 0 <= i < j < |roots| ==> sub[roots[i]] !! sub[roots[j]]
    modifies AllOf(roots, sub)`status, AllOf(roots, sub)`deviceCount
    ensures SettledKids(roots, |roots|, sub, totals)
  {
    var i := 0;
    while i < |roots|
      invariant 0 <= i <= |roots|
      invariant SettledKids(roots, i, sub, totals)
    {
      Visit(roots, i, sub, totals, statusMap, countMap);
      i := i + 1;
    }
  }

  lemma RootsAreDisjoint(locs: seq<Node>, g: Graph)
    requires RowsOf(locs, g)
    ensures var sub, roots := Subtrees(locs, g), RootsOf(locs, g);
            && (forall r :: r in roots ==> r in sub)
            && forall i, j :: 0 <= i < j < |roots| ==> sub[roots[i]] !! sub[roots[j]]
  {
    var sub, roots := Subtrees(locs, g), RootsOf(locs, g);
    forall r | r in roots ensures r in sub { RootIs(locs, g, r); }
    forall i, j | 0 <= i < j < |roots| ensures sub[roots[i]] !! sub[roots[j]] {
      RootsApart(locs, g, i, j);
      TeamsApart(locs, Subtree(g, roots[i].id), Subtree(g, roots[j].id));
    }
  }

  lemma AllSettled(locs: seq<Node>, g: Graph, devices: seq<Device>, roots: seq<Node>)
    requires RowsOf(locs, g) && Forest(g) && roots == RootsOf(locs, g)
    requires SettledKids(roots, |roots|, Subtrees(locs, g), Results(locs, g, devices))
    ensures Summed(locs, g, devices)
  {
    var sub, results := Subtrees(locs, g), Results(locs, g, devices);
    RootsCoverAll(locs, g);
    forall m | m in locs ensures Totals(m.status, m.deviceCount) == results[m] {
      CoveredMember(g, roots, |roots|, m.id);
      var j :| 0 <= j < |roots| && m.id in Subtree(g, roots[j].id);
      RootIs(locs, g, roots[j]);
      assert m in sub[roots[j]];
      assert Settled(sub[roots[j]], results);
    }
  }

  /** The device counts of the first `k` nodes, added up. */
  ghost function SumCounts(nodes: seq<Node>, k: nat): nat
    requires k <= |nodes|
    reads nodes
  {
    if k == 0 then 0 else SumCounts(nodes, k - 1) + nodes[k - 1].deviceCount
  }

  lemma {:induction false} RootTotals(locs: seq<Node>, g: Graph, devices: seq<Device>, k: nat)
    requires RowsOf(locs, g) && Forest(g) && k <= |RootsOf(locs, g)| && Summed(locs, g, devices)
    ensures SumCounts(RootsOf(locs, g), k) == QueryCount(devices, |devices|, Covered(g, RootsOf(locs, g), k))
  {
    var roots := RootsOf(locs, g);
    if k == 0 {
      CountNowhere(devices, |devices|);
    } else {
      RootTotals(locs, g, devices, k - 1);
      RootIs(locs, g, roots[k - 1]);
      NextRoot(locs, g, k - 1);
      CountAdds(devices, |devices|, Covered(g, roots, k - 1), Subtree(g, roots[k - 1].id));
    }
  }

  lemma NextRoot(locs: seq<Node>, g: Graph, i: nat)
    requires RowsOf(locs, g) && i < |RootsOf(locs, g)|
    ensures Covered(g, RootsOf(locs, g), i) !! Subtree(g, RootsOf(locs, g)[i].id)
  {
    var roots := RootsOf(locs, g);
    var sub := Subtree(g, roots[i].id);
    forall x | x in Covered(g, roots, i) ensures x !in sub {
      CoveredMember(g, roots, i, x);
      var j :| 0 <= j < i && x in Subtree(g, roots[j].id);
      RootsApart(locs, g, j, i);
    }
  }

  lemma {:induction false} CountNowhere(devices: seq<Device>, n: nat)
    requires n <= |devices|
    ensures QueryCount(devices, n, {}) == 0
  {
    if n > 0 { CountNowhere(devices, n - 1); }
  }

  lemma RootsSumUp(locs: seq<Node>, g: Graph, devices: seq<Device>)
    requires RowsOf(locs, g) && Forest(g) && Summed(locs, g, devices)
    requires forall d :: d in devices ==> d.location in g.Keys
    ensures SumCounts(RootsOf(locs, g), |RootsOf(locs, g)|) == |devices|
  {
    RootTotals(locs, g, devices, |RootsOf(locs, g)|);
    RootsCoverAll(locs, g);
    CountIsPlaced(devices, |devices|, g.Keys);
  }

  /**
   * GetTreeWithStatus over the scanned rows `locs` and the placed devices: every node carries
   * exactly what the recursive status query returns for it, each column counting the devices of
   * the status it is named after, every location is in the tree once, and the root counts add up
   * to all placed devices.
   */
  method GetTreeWithStatus(locs: seq<Node>, ghost g: Graph, devices: seq<Device>) returns (roots: seq<Node>)
    requires RowsOf(locs, g) && Forest(g)
    requires forall d :: d in devices ==> d.location in g.Keys
    modifies locs
    ensures Built(locs) && roots == RootsOf(locs, g)
    ensures EachOnce(locs, roots)
    ensures Summed(locs, g, devices) && ColumnsPerNode(locs, g, devices)
    ensures SumCounts(roots, |roots|) == |devices|
  {
    var statusMap, countMap := Aggregate(devices);
    roots := BuildTree(locs, g);
    PlanHolds(locs, g, devices, statusMap, countMap);
    RootsAreDisjoint(locs, g);
    PropagateAll(roots, Subtrees(locs, g), Results(locs, g, devices), statusMap, countMap);
    AllSettled(locs, g, devices, roots);
    SummedColumns(locs, g, devices);
    EachLocationOnce(locs, g);
    RootsSumUp(locs, g, devices);
  }

  /** The links of the table that a sequence of creations, moves and deletions leads to. */
  ghost function LinksAfter(s: L.State, ops: seq<L.Op>): Graph {
    L.Links(L.Run(s, ops).table)
  }

  /** The same for the rows of any table the location service can reach: that it is a forest needs no assumption. */
  method GetReachableTree(locs: seq<Node>, ghost s: L.State, ghost ops: seq<L.Op>, devices: seq<Device>) returns (roots: seq<Node>)
    requires L.Sound(s) && RowsOf(locs, LinksAfter(s, ops))
    requires forall d :: d in devices ==> d.location in LinksAfter(s, ops).Keys
    modifies locs
    ensures Built(locs) && roots == RootsOf(locs, LinksAfter(s, ops))
    ensures EachOnce(locs, roots)
    ensures Summed(locs, LinksAfter(s, ops), devices) && ColumnsPerNode(locs, LinksAfter(s, ops), devices)
    ensures SumCounts(roots, |roots|) == |devices|
  {
    L.AlwaysForest(s, ops);
    roots := GetTreeWithStatus(locs, LinksAfter(s, ops), devices);
  }

  /** What the recursive query selects for `id` from the table `t`. */
  ghost function SubtreeRows(t: Graph, id: Id): (g: Graph)
    ensures g.Keys == Subtree(t, id)
  {
    map i | i in Subtree(t, id) :: t[i]
  }

  /**
   * GetSubtree: `locs` are the rows the recursive query returned for `id` over the table `t`.
   * The requested location is the one and only root.
   */
  method GetSubtree(ghost t: Graph, id: Id, locs: seq<Node>) returns (r: Node?)
    requires Forest(t) && RowsOf(locs, SubtreeRows(t, id))
    modifies locs
    ensures r == null <==> id !in t
    ensures r != null ==> r in locs && r.id == id && RootsOf(locs, SubtreeRows(t, id)) == [r] && Built(locs)
  {
    ghost var g := SubtreeRows(t, id);
    assert id in t ==> Up(t, id, 0) == Some(id);
    if |locs| == 0 {
      assert id in g ==> HasRow(locs, id);
      return null;
    }
    assert locs[0].id in g;
    var roots := BuildTree(locs, g);
    var i := 0;
    while i < |roots|
      invariant 0 <= i <= |roots|
      invariant forall j :: 0 <= j < i ==> roots[j].id != id
    {
      if roots[i].id == id {
        OnlyRoot(t, id, locs);
        RootIs(locs, g, roots[i]);
        return roots[i];
      }
      i := i + 1;
    }
    OnlyRoot(t, id, locs);
    assert false;
    r := null;
  }

  lemma OnlyRoot(t: Graph, id: Id, locs: seq<Node>)
    requires Forest(t) && id in t && RowsOf(locs, SubtreeRows(t, id))
    ensures |RootsOf(locs, SubtreeRows(t, id))| == 1 && RootsOf(locs, SubtreeRows(t, id))[0].id == id
  {
    var g := SubtreeRows(t, id);
    var roots := RootsOf(locs, g);
    RootsDistinct(locs, g, |locs|, g.Keys);
    assert Up(t, id, 0) == Some(id);
    assert HasRow(locs, id);
    var top :| 0 <= top < |locs| && locs[top].id == id;
    TopLeavesSubtree(t, id);
    RootIs(locs, g, locs[top]);
    forall i | 0 <= i < |roots| ensures roots[i].id == id {
      RootIs(locs, g, roots[i]);
      SubtreeStep(t, roots[i].id, id);
    }
    if |roots| > 1 {
      assert roots[0].id == roots[1].id;
      EarlierDiffer(roots, 1);
    }
  }

  lemma TopLeavesSubtree(t: Graph, id: Id)
    requires Forest(t) && id in t
    ensures t[id].Some? ==> t[id].value !in Subtree(t, id)
  {
    ForestIffAcyclic(t);
    SubtreeStep(t, id, id);
  }
}
