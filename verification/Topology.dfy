/**
 * Device dependency graph: the suppression walk and the root-cause breadth-first search.
 * Every database read of one call sees the same rows.
 */
module Topology {
  import opened Basics
  import opened ParentGraph

  datatype Device = Device(id: Id, status: string, category: string, parent: Option<Id>)

  datatype SuppressionResult = NotSuppressed | Suppressed(rootCause: Id)

  datatype Outage = Outage(device: Id, affected: nat, byCategory: map<string, nat>)

  const DOWN := "down"

  /** `id` is the primary key of the device table. */
  ghost predicate PrimaryKey(rows: seq<Device>) {
    forall i, j :: 0 <= i < j < |rows| ==> rows[i].id != rows[j].id
  }

  type Table = rows: seq<Device> | PrimaryKey(rows)

  /** The row with key `id`, as a query by primary key returns it. */
  function Find(rows: seq<Device>, id: Id): (d: Option<Device>)
    ensures d.Some? ==> d.value in rows && d.value.id == id
    ensures d.None? ==> forall r :: r in rows ==> r.id != id
  {
    if rows == [] then None
    else if rows[0].id == id then Some(rows[0])
    else Find(rows[1..], id)
  }

  ghost function Keys(rows: seq<Device>): set<Id> {
    set r | r in rows :: r.id
  }

  /** The parent links as a graph. */
  ghost function Links(rows: seq<Device>): (g: Graph)
    requires PrimaryKey(rows)
    ensures g.Keys == Keys(rows)
    ensures forall r :: r in rows ==> g[r.id] == r.parent
  {
    map r | r in rows :: r.id := r.parent
  }

  ghost function Categories(rows: seq<Device>): (m: map<Id, string>)
    requires PrimaryKey(rows)
    ensures m.Keys == Keys(rows)
    ensures forall r :: r in rows ==> m[r.id] == r.category
  {
    map r | r in rows :: r.id := r.category
  }

  lemma FindUnique(rows: seq<Device>, d: Device)
    requires PrimaryKey(rows) && d in rows
    ensures Find(rows, d.id) == Some(d)
  {}

  /** The devices that are down. */
  ghost function DownSet(rows: seq<Device>): set<Id> {
    set r | r in rows && r.status == "down" :: r.id
  }

  /** The `k`-th ancestor of `d` exists and is down. */
  ghost predicate DownAbove(g: Graph, down: set<Id>, d: Id, k: nat) {
    k >= 1 && Up(g, d, k).Some? && Up(g, d, k).value in down
  }

  ghost predicate NearestDown(g: Graph, down: set<Id>, d: Id, k: nat) {
    DownAbove(g, down, d, k) && forall j: nat :: j < k ==> !DownAbove(g, down, d, j)
  }

  /** Down, and not explained by a parent that is down as well. */
  ghost predicate RootCause(g: Graph, down: set<Id>, r: Id) {
    && r in g && r in down
    && (Parent(g, r).Some? ==> Parent(g, r).value !in down)
  }

  ghost predicate DownFrom(g: Graph, down: set<Id>, d: Id, k: nat) {
    k >= 1 && forall j: nat :: j >= k ==> DownAbove(g, down, d, j)
  }

  /** From some ancestor of `d` on, the chain never ends and every row on it is down. */
  ghost predicate DownForever(g: Graph, down: set<Id>, d: Id) {
    exists k: nat :: DownFrom(g, down, d, k)
  }

  /** If the walk returns to a row it has passed, no later row is new. */
  lemma {:induction false} WalkStaysInLoop(g: Graph, d: Id, i: nat, n: nat, k: nat) returns (m: nat)
    requires 1 <= i < n && Up(g, d, i) == Up(g, d, n)
    requires k >= i
    ensures i <= m < n && Up(g, d, k) == Up(g, d, m)
  {
    if k < n {
      m := k;
    } else {
      m := WalkStaysInLoop(g, d, i, n, k - (n - i));
      UpAdd(g, d, n, k - n);
      UpAdd(g, d, i, k - n);
      assert i + (k - n) == k - (n - i);
    }
  }

  /** The first `n` queries of a walk are answered; `fails` is the number of the one that fails, if any. */
  predicate AnsweredUpTo(fails: Option<nat>, n: nat) {
    fails.Some? ==> fails.value >= n
  }

  /** Some ancestor is down, and the two queries for each link up to it are answered. */
  ghost predicate MeetsDown(g: Graph, down: set<Id>, d: Id, fails: Option<nat>) {
    exists k: nat :: DownAbove(g, down, d, k) && AnsweredUpTo(fails, 2 * k)
  }

  /** Suppressed exactly when the walk meets an ancestor that is down before a query fails; then the nearest one is named. */
  ghost predicate IsAnswer(g: Graph, down: set<Id>, d: Id, fails: Option<nat>, result: SuppressionResult) {
    && (result.Suppressed? <==> MeetsDown(g, down, d, fails))
    && (result.Suppressed? ==> exists k: nat :: NearestDown(g, down, d, k) && Up(g, d, k) == Some(result.rootCause))
  }

  lemma NearestIsUnique(g: Graph, down: set<Id>, d: Id, j: nat, k: nat)
    requires NearestDown(g, down, d, j) && NearestDown(g, down, d, k)
    ensures j == k
  {}

  lemma AnswerIsUnique(g: Graph, down: set<Id>, d: Id, fails: Option<nat>, r: SuppressionResult, q: SuppressionResult)
    requires IsAnswer(g, down, d, fails, r) && IsAnswer(g, down, d, fails, q)
    ensures r == q
  {
    if r.Suppressed? {
      var j: nat :| NearestDown(g, down, d, j) && Up(g, d, j) == Some(r.rootCause);
      var k: nat :| NearestDown(g, down, d, k) && Up(g, d, k) == Some(q.rootCause);
      NearestIsUnique(g, down, d, j, k);
    }
  }

  ghost function Devices(outages: seq<Outage>): set<Id> {
    set o | o in outages :: o.device
  }

  ghost predicate OncePerDevice(outages: seq<Outage>) {
    forall i, j :: 0 <= i < j < |outages| ==> outages[i].device != outages[j].device
  }

  lemma ReportAppend(outages: seq<Outage>, o: Outage)
    requires OncePerDevice(outages) && o.device !in Devices(outages)
    ensures OncePerDevice(outages + [o])
    ensures Devices(outages + [o]) == Devices(outages) + {o.device}
  {}

  lemma KeysStep(rows: seq<Device>, i: nat)
    requires PrimaryKey(rows) && i < |rows|
    ensures Keys(rows[..i + 1]) == Keys(rows[..i]) + {rows[i].id}
    ensures rows[i].id !in Keys(rows[..i])
  {}

  /** `trail` lists the chain above `d`, `d` first. */
  ghost predicate IsTrail(g: Graph, d: Id, trail: seq<Id>) {
    forall i: nat :: i < |trail| ==> Up(g, d, i) == Some(trail[i])
  }

  /** The query by primary key. */
  method Query(rows: seq<Device>, id: Id) returns (row: Option<Device>)
    requires PrimaryKey(rows)
    ensures row.Some? <==> id in Links(rows)
    ensures row.Some? ==> row.value in rows && row.value.id == id
    ensures row.Some? ==> Links(rows)[id] == row.value.parent
    ensures row.Some? ==> (id in DownSet(rows) <==> row.value.status == DOWN)
  {
    row := Find(rows, id);
    if row.Some? {
      FindUnique(rows, row.value);
      RowIsDown(rows, row.value);
    }
  }

  /** The `n`-th query of a walk. */
  method QueryUnlessFails(rows: seq<Device>, id: Id, fails: Option<nat>, n: nat) returns (row: Option<Device>)
    requires PrimaryKey(rows)
    ensures row.Some? <==> fails != Some(n) && id in Links(rows)
    ensures row.Some? ==> row.value in rows && row.value.id == id
    ensures row.Some? ==> Links(rows)[id] == row.value.parent
    ensures row.Some? ==> (id in DownSet(rows) <==> row.value.status == DOWN)
  {
    row := None;
    if fails != Some(n) {
      row := Query(rows, id);
    }
  }

  /** The walk from `d` has come along `trail`, `d` itself first, and no device on it but perhaps `d` is down. */
  ghost predicate Walked(g: Graph, down: set<Id>, d: Id, trail: seq<Id>) {
    && trail != [] && (d !in g ==> trail == [d]) && (d in g ==> IsTrail(g, d, trail))
    && forall j: nat :: j < |trail| ==> !DownAbove(g, down, d, j)
  }

  lemma WalksOn(g: Graph, down: set<Id>, d: Id, trail: seq<Id>)
    requires Walked(g, down, d, trail) && Parent(g, trail[|trail| - 1]).Some? && Parent(g, trail[|trail| - 1]).value !in down
    ensures Walked(g, down, d, trail + [Parent(g, trail[|trail| - 1]).value])
  {
    ExtendTrail(g, d, trail);
  }

  /** The walk ends without having met a device that is down: its next query fails, or its chain is over. */
  lemma EndsClear(g: Graph, down: set<Id>, d: Id, fails: Option<nat>, trail: seq<Id>)
    requires Walked(g, down, d, trail) && (!AnsweredUpTo(fails, 2 * |trail|) || Parent(g, trail[|trail| - 1]).None?)
    ensures IsAnswer(g, down, d, fails, NotSuppressed)
  {
    if d !in g {
      assert Up(g, d, 0).None?;
      forall k: nat ensures !DownAbove(g, down, d, k) {
        UpAdd(g, d, 0, k);
      }
    } else if AnsweredUpTo(fails, 2 * |trail|) {
      NothingAbove(g, d, |trail| - 1);
    }
  }

  lemma MeetsNearest(g: Graph, down: set<Id>, d: Id, fails: Option<nat>, trail: seq<Id>)
    requires Walked(g, down, d, trail) && AnsweredUpTo(fails, 2 * |trail|)
    requires Parent(g, trail[|trail| - 1]).Some? && Parent(g, trail[|trail| - 1]).value in down
    ensures IsAnswer(g, down, d, fails, Suppressed(Parent(g, trail[|trail| - 1]).value))
  {
    ExtendTrail(g, d, trail);
    assert NearestDown(g, down, d, |trail|);
  }

  /** A row that the walk has met before ends it: no ancestor is down. */
  lemma LoopsClear(g: Graph, down: set<Id>, d: Id, fails: Option<nat>, trail: seq<Id>)
    requires Walked(g, down, d, trail) && Parent(g, trail[|trail| - 1]).Some?
    requires Parent(g, trail[|trail| - 1]).value in Elements(trail) && Parent(g, trail[|trail| - 1]).value !in down
    ensures IsAnswer(g, down, d, fails, NotSuppressed)
  {
    ExtendTrail(g, d, trail);
    var j: nat := IndexOf(trail, Parent(g, trail[|trail| - 1]).value);
    assert !DownAbove(g, down, d, |trail|);
    LoopHasNoDown(g, down, d, j, |trail|);
  }

  /**
   * Terminates on every graph. Suppresses exactly when an ancestor that is down is met before a query
   * fails, and names the nearest one; a failed query ends the walk like a missing row.
   */
  method CheckSuppression(rows: seq<Device>, device: Id, fails: Option<nat>) returns (result: SuppressionResult)
    requires PrimaryKey(rows)
    ensures IsAnswer(Links(rows), DownSet(rows), device, fails, result)
  {
    ghost var g, down := Links(rows), DownSet(rows);
    var current := device;
    var visited := {device};
    var queries := 0;
    ghost var trail := [device];
    while true
      invariant Walked(g, down, device, trail) && trail[|trail| - 1] == current && Elements(trail) == visited
      invariant visited <= g.Keys + {device}
      invariant queries == 2 * (|trail| - 1) && AnsweredUpTo(fails, queries)
      decreases g.Keys + {device} - visited
    {
      var row := QueryUnlessFails(rows, current, fails, queries);
      if row.None? {
        EndsClear(g, down, device, fails, trail);
        return NotSuppressed;
      }
      var parentId := row.value.parent;
      if parentId.None? {
        EndsClear(g, down, device, fails, trail);
        return NotSuppressed;
      }
      var parent := QueryUnlessFails(rows, parentId.value, fails, queries + 1);
      if parent.None? {
        EndsClear(g, down, device, fails, trail);
        return NotSuppressed;
      }
      if parent.value.status == DOWN {
        MeetsNearest(g, down, device, fails, trail);
        return Suppressed(parentId.value);
      }
      if parentId.value in visited {
        LoopsClear(g, down, device, fails, trail);
        return NotSuppressed;
      }
      WalksOn(g, down, device, trail);
      AppendElement(trail, parentId.value);
      visited := visited + {parentId.value};
      current := parentId.value;
      queries, trail := queries + 2, trail + [current];
    }
  }

  /** The child lists of every device, in row order. */
  method BuildIndex(rows: seq<Device>) returns (childrenOf: map<Id, seq<Id>>)
    requires PrimaryKey(rows)
    ensures IsIndex(Links(rows), childrenOf)
  {
    childrenOf := map[];
    var i := 0;
    while i < |rows|
      invariant 0 <= i <= |rows|
      invariant forall p :: Distinct(ListOf(childrenOf, p)) && Elements(ListOf(childrenOf, p)) == ChildKeys(rows[..i], p)
    {
      var n := rows[i];
      forall p ensures ChildKeys(rows[..i + 1], p) == ChildKeys(rows[..i], p) + (if n.parent == Some(p) then {n.id} else {}) && n.id !in ChildKeys(rows[..i], p) {
        ChildKeysStep(rows, i, p);
      }
      ghost var was := childrenOf;
      if n.parent.Some? {
        childrenOf := childrenOf[n.parent.value := ListOf(childrenOf, n.parent.value) + [n.id]];
      }
      forall p ensures Distinct(ListOf(childrenOf, p)) && Elements(ListOf(childrenOf, p)) == ChildKeys(rows[..i + 1], p) {
        if n.parent == Some(p) {
          AppendNew(ListOf(was, p), n.id);
        }
      }
      i := i + 1;
    }
    assert rows[..i] == rows;
    forall p, x | p in Links(rows) ensures x in Elements(ListOf(childrenOf, p)) <==> Parent(Links(rows), x) == Some(p) {
      ChildKeysAre(rows, p);
    }
  }

  /**
   * The queue loop shared by the root-cause count and the dependency listing. It has no visited
   * set: it terminates because a start that is on no cycle has each descendant reached once.
   */
  method Dependants(rows: seq<Device>, childrenOf: map<Id, seq<Id>>, start: Id) returns (descendants: seq<Id>, byCategory: map<string, nat>)
    requires PrimaryKey(rows) && IsIndex(Links(rows), childrenOf)
    requires start in Links(rows) && !OnCycle(Links(rows), start)
    ensures Distinct(descendants)
    ensures Elements(descendants) == Descendants(Links(rows), start)
    ensures IsCategoryCount(Categories(rows), Elements(descendants), byCategory)
    ensures RunsEmpty(childrenOf, start)
  {
    ghost var g := Links(rows);
    ghost var turns := 0;
    descendants, byCategory := [], map[];
    var queue := [start];
    ghost var done: set<Id> := {};
    SearchStarts(g, start);
    while queue != []
      invariant Searching(g, start, done, queue, descendants)
      invariant IsCategoryCount(Categories(rows), Elements(descendants), byCategory)
      invariant AfterTurns(childrenOf, start, turns, queue)
      decreases Subtree(g, start) - done
    {
      assert queue[0] in Elements(queue);
      var children := ListOf(childrenOf, queue[0]);
      SearchStep(g, start, done, queue, descendants, children);
      byCategory := CountCategories(rows, descendants, children, byCategory);
      TakeTurn(childrenOf, start, turns, queue);
      done, turns := done + {queue[0]}, turns + 1;
      descendants, queue := descendants + children, queue[1..] + children;
    }
    SearchEnds(g, start, done, descendants);
  }

  /** Invariant of the queue loop: `done` are the dequeued rows, `descendants` the rows enqueued so far. */
  ghost predicate Searching(g: Graph, start: Id, done: set<Id>, queue: seq<Id>, descendants: seq<Id>) {
    && start in g && !OnCycle(g, start)
    && Distinct(queue) && Distinct(descendants)
    && Elements(queue) !! done
    && done + Elements(queue) <= Subtree(g, start)
    && start !in Elements(descendants)
    && Elements(descendants) + {start} == Elements(queue) + done
    && (forall x :: x in Elements(descendants) <==> Parent(g, x).Some? && Parent(g, x).value in done)
  }

  lemma SearchStarts(g: Graph, start: Id)
    requires start in g && !OnCycle(g, start)
    ensures Searching(g, start, {}, [start], [])
  {
    assert Up(g, start, 0) == Some(start);
  }

  lemma SearchStep(g: Graph, start: Id, done: set<Id>, queue: seq<Id>, descendants: seq<Id>, children: seq<Id>)
    requires Searching(g, start, done, queue, descendants) && queue != []
    requires Distinct(children) && forall x :: x in Elements(children) <==> Parent(g, x) == Some(queue[0])
    ensures Searching(g, start, done + {queue[0]}, queue[1..] + children, descendants + children)
    ensures queue[0] in Subtree(g, start) - done
    ensures Elements(children) !! Elements(descendants)
  {
    DropFirst(queue);
    var node := queue[0];
    forall x | x in Elements(children)
      ensures x in Subtree(g, start) && x != start && x != node && x !in Elements(descendants)
    {
      FreshChild(g, x, start, node);
    }
    AppendAll(queue[1..], children);
    AppendAll(descendants, children);
  }

  lemma SearchEnds(g: Graph, start: Id, done: set<Id>, descendants: seq<Id>)
    requires Searching(g, start, done, [], descendants)
    ensures Elements(descendants) == Descendants(g, start)
  {
    ClosedCoversSubtree(g, start, done);
    DescendantsExcludeSelf(g, start);
  }

  /** The queue after at most `n` turns of the loop. */
  ghost function QueueAfter(childrenOf: map<Id, seq<Id>>, queue: seq<Id>, n: nat): seq<Id>
    decreases n
  {
    if n == 0 || queue == [] then queue
    else QueueAfter(childrenOf, queue[1..] + ListOf(childrenOf, queue[0]), n - 1)
  }

  ghost predicate AfterTurns(childrenOf: map<Id, seq<Id>>, start: Id, n: nat, queue: seq<Id>) {
    queue == QueueAfter(childrenOf, [start], n)
  }

  lemma TakeTurn(childrenOf: map<Id, seq<Id>>, start: Id, n: nat, queue: seq<Id>)
    requires AfterTurns(childrenOf, start, n, queue) && queue != []
    ensures AfterTurns(childrenOf, start, n + 1, queue[1..] + ListOf(childrenOf, queue[0]))
  {
    QueueTurn(childrenOf, [start], n);
  }

  /** The queue that starts with `start` alone is empty after some number of turns. */
  ghost predicate RunsEmpty(childrenOf: map<Id, seq<Id>>, start: Id) {
    exists n: nat :: AfterTurns(childrenOf, start, n, [])
  }

  lemma {:induction false} QueueTurn(childrenOf: map<Id, seq<Id>>, queue: seq<Id>, n: nat)
    requires QueueAfter(childrenOf, queue, n) != []
    ensures var q := QueueAfter(childrenOf, queue, n); QueueAfter(childrenOf, queue, n + 1) == q[1..] + ListOf(childrenOf, q[0])
    decreases n
  {
    if n > 0 { QueueTurn(childrenOf, queue[1..] + ListOf(childrenOf, queue[0]), n - 1); }
  }

  lemma {:induction false} SearchRunsEmpty(g: Graph, childrenOf: map<Id, seq<Id>>, start: Id, done: set<Id>, queue: seq<Id>, descendants: seq<Id>) returns (n: nat)
    requires IsIndex(g, childrenOf) && Searching(g, start, done, queue, descendants)
    ensures QueueAfter(childrenOf, queue, n) == []
    decreases Subtree(g, start) - done
  {
    n := 0;
    if queue != [] {
      assert queue[0] in Elements(queue);
      var children := ListOf(childrenOf, queue[0]);
      SearchStep(g, start, done, queue, descendants, children);
      n := SearchRunsEmpty(g, childrenOf, start, done + {queue[0]}, queue[1..] + children, descendants + children);
      n := n + 1;
    }
  }

  /** Exactly when the queue loop ends: when its start is on no cycle. */
  lemma RunsEmptyIffOffCycle(g: Graph, childrenOf: map<Id, seq<Id>>, start: Id)
    requires IsIndex(g, childrenOf) && start in g
    ensures RunsEmpty(childrenOf, start) <==> !OnCycle(g, start)
  {
    if OnCycle(g, start) {
      forall n: nat ensures !AfterTurns(childrenOf, start, n, []) {
        CycleNeverEmptiesQueue(g, childrenOf, [start], start, n);
      }
    } else {
      SearchStarts(g, start);
      var n := SearchRunsEmpty(g, childrenOf, start, {}, [start], []);
      assert AfterTurns(childrenOf, start, n, []);
    }
  }

  /** A table on which the report does not end: a device that is down, below one that is up and that is below it in turn. */
  lemma RootCauseOnCycle(a: Id, b: Id)
    requires a != b
    ensures var rows := [Device(a, DOWN, "", Some(b)), Device(b, "up", "", Some(a))];
            PrimaryKey(rows) && RootCause(Links(rows), DownSet(rows), a) && OnCycle(Links(rows), a)
  {
    var rows := [Device(a, DOWN, "", Some(b)), Device(b, "up", "", Some(a))];
    var g := Links(rows);
    assert rows[0] in rows && rows[1] in rows;
    assert g[a] == Some(b) && g[b] == Some(a);
    assert a in DownSet(rows) && b !in DownSet(rows);
    assert Up(g, a, 0) == Some(a) && Up(g, a, 1) == Some(b) && Up(g, a, 2) == Some(a);
  }

  lemma CycleHasChild(g: Graph, x: Id) returns (c: Id)
    requires OnCycle(g, x)
    ensures Parent(g, c) == Some(x) && OnCycle(g, c)
  {
    var k: nat :| k >= 1 && Up(g, x, k) == Some(x);
    c := Up(g, x, k - 1).value;
    UpAdd(g, x, k - 1, 1);
    assert Up(g, c, 0) == Some(c) && Up(g, c, 1) == Some(x);
    UpAdd(g, c, 1, k - 1);
    assert Up(g, c, k) == Some(c);
  }

  /** The requirement of the loop above is exact: from a row on a cycle the queue never runs empty. */
  lemma {:induction false} CycleNeverEmptiesQueue(g: Graph, childrenOf: map<Id, seq<Id>>, queue: seq<Id>, x: Id, n: nat)
    requires IsIndex(g, childrenOf)
    requires x in queue && OnCycle(g, x)
    ensures QueueAfter(childrenOf, queue, n) != []
    decreases n
  {
    if n > 0 {
      var next := queue[1..] + ListOf(childrenOf, queue[0]);
      var y := x;
      if x == queue[0] {
        y := CycleHasChild(g, x);
        assert x in g;
        assert y in Elements(ListOf(childrenOf, x));
      } else {
        assert x in queue[1..];
      }
      CycleNeverEmptiesQueue(g, childrenOf, next, y, n - 1);
    }
  }

  method IsRootCause(rows: seq<Device>, n: Device) returns (yes: bool)
    requires PrimaryKey(rows) && n in rows
    ensures yes <==> RootCause(Links(rows), DownSet(rows), n.id)
  {
    FindUnique(rows, n);
    RowIsDown(rows, n);
    yes := n.status == DOWN;
    if yes && n.parent.Some? {
      var parent := Query(rows, n.parent.value);
      if parent.Some? && parent.value.status == DOWN {
        yes := false;
      }
    }
  }

  ghost predicate ToReport(g: Graph, down: set<Id>, r: Id) {
    RootCause(g, down, r) && Descendants(g, r) != {}
  }

  /** The number of descendants, in all and in each category. */
  ghost predicate CountsRight(g: Graph, categories: map<Id, string>, o: Outage) {
    o.affected == |Descendants(g, o.device)| && IsCategoryCount(categories, Descendants(g, o.device), o.byCategory)
  }

  /** Of the devices in `keys`, exactly those to be reported are, once each and with the right numbers. */
  ghost predicate Reported(g: Graph, down: set<Id>, categories: map<Id, string>, keys: set<Id>, outages: seq<Outage>) {
    && OncePerDevice(outages)
    && (forall r :: r in Devices(outages) <==> r in keys && ToReport(g, down, r))
    && (forall o :: o in outages ==> CountsRight(g, categories, o))
  }

  lemma ReportSkip(g: Graph, down: set<Id>, categories: map<Id, string>, keys: set<Id>, outages: seq<Outage>, id: Id)
    requires Reported(g, down, categories, keys, outages) && !ToReport(g, down, id)
    ensures Reported(g, down, categories, keys + {id}, outages)
  {}

  lemma ReportAdd(g: Graph, down: set<Id>, categories: map<Id, string>, keys: set<Id>, outages: seq<Outage>, o: Outage)
    requires Reported(g, down, categories, keys, outages) && o.device !in keys && ToReport(g, down, o.device) && CountsRight(g, categories, o)
    ensures Reported(g, down, categories, keys + {o.device}, outages + [o])
  {
    ReportAppend(outages, o);
  }

  /** One turn of the report. */
  method Report(rows: seq<Device>, childrenOf: map<Id, seq<Id>>, i: nat, outages: seq<Outage>) returns (r: seq<Outage>)
    requires PrimaryKey(rows) && IsIndex(Links(rows), childrenOf) && i < |rows|
    requires RootCause(Links(rows), DownSet(rows), rows[i].id) ==> !OnCycle(Links(rows), rows[i].id)
    requires Reported(Links(rows), DownSet(rows), Categories(rows), Keys(rows[..i]), outages)
    ensures Reported(Links(rows), DownSet(rows), Categories(rows), Keys(rows[..i + 1]), r)
  {
    ghost var g, down, categories, keys := Links(rows), DownSet(rows), Categories(rows), Keys(rows[..i]);
    var n := rows[i];
    r := outages;
    KeysStep(rows, i);
    var isRootCause := IsRootCause(rows, n);
    if isRootCause {
      var descendants, byCategory := Dependants(rows, childrenOf, n.id);
      DistinctCardinality(descendants);
      if |descendants| > 0 {
        assert descendants[0] in Elements(descendants);
        r := outages + [Outage(n.id, |descendants|, byCategory)];
        ReportAdd(g, down, categories, keys, outages, Outage(n.id, |descendants|, byCategory));
        return;
      }
    }
    ReportSkip(g, down, categories, keys, outages, n.id);
  }

  /**
   * Reports each down device whose parent is not down and that has dependants, with the exact
   * number of its descendants. The loop above terminates only when no root cause is on a cycle.
   */
  method GetRootCauseOutages(rows: seq<Device>) returns (outages: seq<Outage>)
    requires PrimaryKey(rows)
    requires forall r :: RootCause(Links(rows), DownSet(rows), r) ==> !OnCycle(Links(rows), r)
    ensures OncePerDevice(outages)
    ensures forall r :: r in Devices(outages) <==> RootCause(Links(rows), DownSet(rows), r) && Descendants(Links(rows), r) != {}
    ensures forall o :: o in outages ==> o.affected == |Descendants(Links(rows), o.device)|
    ensures forall o :: o in outages ==> IsCategoryCount(Categories(rows), Descendants(Links(rows), o.device), o.byCategory)
  {
    var childrenOf := BuildIndex(rows);
    outages := [];
    var i := 0;
    while i < |rows|
      invariant 0 <= i <= |rows|
      invariant Reported(Links(rows), DownSet(rows), Categories(rows), Keys(rows[..i]), outages)
    {
      outages := Report(rows, childrenOf, i, outages);
      i := i + 1;
    }
    assert rows[..i] == rows;
    assert forall r :: ToReport(Links(rows), DownSet(rows), r) <==> RootCause(Links(rows), DownSet(rows), r) && Descendants(Links(rows), r) != {};
    assert forall o :: o in outages ==> CountsRight(Links(rows), Categories(rows), o);
  }

  /** `ancestors` are the first ancestors of `d`, nearest first. */
  ghost predicate IsAncestry(g: Graph, d: Id, ancestors: seq<Id>) {
    forall k: nat :: 1 <= k <= |ancestors| ==> Up(g, d, k) == Some(ancestors[k - 1])
  }

  lemma AncestryStep(g: Graph, d: Id, ancestors: seq<Id>, top: Id)
    requires Ends(g, d) && IsAncestry(g, d, ancestors) && Up(g, d, |ancestors|) == Some(top) && Parent(g, top).Some?
    ensures Up(g, d, |ancestors| + 1) == Parent(g, top) && |ancestors| + 1 < |g|
    ensures IsAncestry(g, d, ancestors + [Parent(g, top).value])
  {
    UpStep(g, d, |ancestors|);
    ChainBounded(g, d, |ancestors| + 1);
  }

  /** The upward walk of the dependency listing. It has no visited set: it needs a chain that ends. */
  method Ancestors(rows: seq<Device>, start: Device) returns (ancestors: seq<Id>)
    requires PrimaryKey(rows) && start in rows && Ends(Links(rows), start.id)
    ensures IsAncestry(Links(rows), start.id, ancestors)
    ensures forall k: nat :: k > |ancestors| ==> Up(Links(rows), start.id, k).None?
  {
    ghost var g, device := Links(rows), start.id;
    ancestors := [];
    var current := start;
    assert Up(g, device, 0) == Some(device);
    while current.parent.Some?
      invariant current.id in g && g[current.id] == current.parent
      invariant Up(g, device, |ancestors|) == Some(current.id) && IsAncestry(g, device, ancestors)
      decreases |g| - |ancestors|
    {
      var parent := Query(rows, current.parent.value);
      if parent.None? {
        break;
      }
      AncestryStep(g, device, ancestors, current.id);
      ancestors := ancestors + [parent.value.id];
      current := parent.value;
    }
    NothingAbove(g, device, |ancestors|);
  }

  /** Ancestors nearest first, and all descendants. */
  method GetDeviceDependencies(rows: seq<Device>, device: Id) returns (found: bool, ancestors: seq<Id>, descendants: seq<Id>)
    requires PrimaryKey(rows)
    requires Ends(Links(rows), device)
    ensures found <==> device in Keys(rows)
    ensures IsAncestry(Links(rows), device, ancestors) && forall k: nat :: k > |ancestors| ==> Up(Links(rows), device, k).None?
    ensures found ==> Distinct(descendants) && Elements(descendants) == Descendants(Links(rows), device)
  {
    ghost var g := Links(rows);
    ancestors, descendants := [], [];
    var current := Query(rows, device);
    if current.None? {
      forall k: nat ensures Up(g, device, k).None? {
        UpAdd(g, device, 0, k);
      }
      return false, ancestors, descendants;
    }
    ancestors := Ancestors(rows, current.value);
    if OnCycle(g, device) { CycleNeverEnds(g, device); }
    var byCategory;
    var childrenOf := BuildIndex(rows);
    descendants, byCategory := Dependants(rows, childrenOf, device);
    found := true;
  }

  lemma ExtendTrail(g: Graph, d: Id, trail: seq<Id>)
    requires trail != [] && IsTrail(g, d, trail)
    requires Parent(g, trail[|trail| - 1]).Some?
    ensures Up(g, d, |trail|) == Parent(g, trail[|trail| - 1])
    ensures IsTrail(g, d, trail + [Parent(g, trail[|trail| - 1]).value])
  {}

  ghost function IndexOf<T>(s: seq<T>, x: T): (i: nat)
    requires x in Elements(s)
    ensures i < |s| && s[i] == x
  {
    var i :| 0 <= i < |s| && s[i] == x; i
  }

  lemma RowIsDown(rows: seq<Device>, d: Device)
    requires PrimaryKey(rows) && d in rows
    ensures d.id in DownSet(rows) <==> d.status == DOWN
  {}

  lemma NothingAbove(g: Graph, d: Id, n: nat)
    requires Up(g, d, n).Some? && Parent(g, Up(g, d, n).value).None?
    ensures forall k: nat :: k > n ==> Up(g, d, k).None?
  {
    assert Up(g, d, n + 1).None?;
    forall k: nat | k > n ensures Up(g, d, k).None? {
      UpAdd(g, d, n + 1, k - n - 1);
    }
  }

  lemma LoopHasNoDown(g: Graph, down: set<Id>, d: Id, i: nat, n: nat)
    requires i < n && Up(g, d, i) == Up(g, d, n)
    requires forall j: nat :: j <= n ==> !DownAbove(g, down, d, j)
    ensures forall k: nat :: !DownAbove(g, down, d, k)
  {
    UpAdd(g, d, i, 1);
    UpAdd(g, d, n, 1);
    assert Up(g, d, i + 1) == Up(g, d, n + 1);
    forall k: nat ensures !DownAbove(g, down, d, k) {
      if k > n {
        var m := WalkStaysInLoop(g, d, i + 1, n + 1, k);
        assert !DownAbove(g, down, d, m);
      }
    }
  }

  function ListOf(childrenOf: map<Id, seq<Id>>, p: Id): seq<Id> {
    if p in childrenOf then childrenOf[p] else []
  }

  /** Each existing row's list holds exactly its children, once each. */
  ghost predicate IsIndex(g: Graph, childrenOf: map<Id, seq<Id>>) {
    forall p :: p in g ==>
      && Distinct(ListOf(childrenOf, p))
      && forall x :: x in Elements(ListOf(childrenOf, p)) <==> Parent(g, x) == Some(p)
  }

  /** Rows among `rows` whose parent column holds `node`. */
  ghost function ChildKeys(rows: seq<Device>, node: Id): set<Id> {
    set r | r in rows && r.parent == Some(node) :: r.id
  }

  lemma ChildKeysStep(rows: seq<Device>, i: nat, node: Id)
    requires PrimaryKey(rows) && i < |rows|
    ensures ChildKeys(rows[..i + 1], node) == ChildKeys(rows[..i], node) + (if rows[i].parent == Some(node) then {rows[i].id} else {})
    ensures rows[i].id !in ChildKeys(rows[..i], node)
  {}

  lemma ChildKeysAre(rows: seq<Device>, node: Id)
    requires PrimaryKey(rows) && node in Keys(rows)
    ensures forall x :: x in ChildKeys(rows, node) <==> Parent(Links(rows), x) == Some(node)
  {}

  /** A row entered in the queue for the first time: it is not the start and its parent was not done. */
  lemma FreshChild(g: Graph, x: Id, start: Id, node: Id)
    requires x in g && Parent(g, x) == Some(node) && node in Subtree(g, start) && !OnCycle(g, start)
    ensures x != start && x in Subtree(g, start) && x != node
  {
    SubtreeStep(g, x, start);
    var k: nat :| Up(g, node, k) == Some(start);
    assert Up(g, x, 0) == Some(x);
    UpAdd(g, x, 1, k);
    assert Up(g, x, 1 + k) == Some(start);
    if x == node {
      SelfParent(g, x, k);
    }
  }

  lemma {:induction false} SelfParent(g: Graph, x: Id, k: nat)
    requires x in g && Parent(g, x) == Some(x)
    ensures Up(g, x, k) == Some(x)
    ensures OnCycle(g, x)
  {
    assert Up(g, x, 0) == Some(x);
    assert Up(g, x, 1) == Some(x);
    if k > 0 { SelfParent(g, x, k - 1); }
  }

  lemma DescendantsExcludeSelf(g: Graph, r: Id)
    requires r in g && !OnCycle(g, r)
    ensures Descendants(g, r) == Subtree(g, r) - {r}
  {}

  lemma DropFirst<T>(s: seq<T>)
    requires Distinct(s) && s != []
    ensures Distinct(s[1..]) && Elements(s[1..]) == Elements(s) - {s[0]}
  {}

  lemma AppendElement<T>(s: seq<T>, x: T)
    ensures Elements(s + [x]) == Elements(s) + {x}
  {}

  lemma AppendAll<T>(s: seq<T>, t: seq<T>)
    requires Distinct(s) && Distinct(t) && Elements(s) !! Elements(t)
    ensures Distinct(s + t) && Elements(s + t) == Elements(s) + Elements(t)
  {
    var u := s + t;
    assert forall i :: 0 <= i < |s| ==> s[i] in Elements(s);
    assert forall i :: 0 <= i < |t| ==> t[i] in Elements(t);
    forall x ensures x in u <==> x in s || x in t {}
  }

  lemma AppendNew<T>(s: seq<T>, x: T)
    requires Distinct(s) && x !in Elements(s)
    ensures Distinct(s + [x]) && Elements(s + [x]) == Elements(s) + {x}
  {}

  ghost function InCategory(categories: map<Id, string>, ids: set<Id>, category: string): set<Id> {
    set x | x in ids && x in categories && categories[x] == category
  }

  /** `counts` holds, for each nonempty category, how many of `ids` are in it. */
  ghost predicate IsCategoryCount(categories: map<Id, string>, ids: set<Id>, counts: map<string, nat>) {
    forall c :: (if c in counts then counts[c] else 0) == if c == "" then 0 else |InCategory(categories, ids, c)|
  }

  method CountCategories(rows: seq<Device>, ghost seen: seq<Id>, children: seq<Id>, counts: map<string, nat>) returns (r: map<string, nat>)
    requires PrimaryKey(rows)
    requires Distinct(children) && Elements(children) !! Elements(seen)
    requires Elements(children) <= Keys(rows)
    requires IsCategoryCount(Categories(rows), Elements(seen), counts)
    ensures IsCategoryCount(Categories(rows), Elements(seen + children), r)
  {
    r := counts;
    var i := 0;
    assert seen + children[..0] == seen;
    ghost var categories := Categories(rows);
    while i < |children|
      invariant 0 <= i <= |children|
      invariant IsCategoryCount(categories, Elements(seen + children[..i]), r)
    {
      FreshInPrefix(seen, children, i);
      var row := Query(rows, children[i]);
      var category := row.value.category;
      ghost var was := r;
      if category != "" {
        r := r[category := (if category in r then r[category] else 0) + 1];
      }
      CategoryStep(categories, Elements(seen + children[..i]), children[i], was, r);
      i := i + 1;
    }
    assert children[..i] == children;
  }

  lemma FreshInPrefix(seen: seq<Id>, children: seq<Id>, i: nat)
    requires i < |children| && Distinct(children) && Elements(children) !! Elements(seen)
    ensures children[i] in Elements(children) && children[i] !in Elements(seen + children[..i])
    ensures Elements(seen + children[..i + 1]) == Elements(seen + children[..i]) + {children[i]}
  {}

  lemma InCategoryStep(categories: map<Id, string>, ids: set<Id>, x: Id, c: string)
    requires x !in ids && x in categories
    ensures |InCategory(categories, ids + {x}, c)| == |InCategory(categories, ids, c)| + if c == categories[x] then 1 else 0
  {
    if c == categories[x] {
      assert InCategory(categories, ids + {x}, c) == InCategory(categories, ids, c) + {x};
    } else {
      assert InCategory(categories, ids + {x}, c) == InCategory(categories, ids, c);
    }
  }

  lemma CategoryStep(categories: map<Id, string>, ids: set<Id>, x: Id, before: map<string, nat>, after: map<string, nat>)
    requires x !in ids && x in categories
    requires IsCategoryCount(categories, ids, before)
    requires var c := categories[x];
             after == if c == "" then before else before[c := (if c in before then before[c] else 0) + 1]
    ensures IsCategoryCount(categories, ids + {x}, after)
  {
    forall c ensures (if c in after then after[c] else 0) == if c == "" then 0 else |InCategory(categories, ids + {x}, c)| {
      InCategoryStep(categories, ids, x, c);
    }
  }

  /** The first row above `d` past position `k` that breaks a run of down rows. */
  lemma {:induction false} TopOfDownRun(g: Graph, down: set<Id>, d: Id, k: nat, j: nat) returns (r: Id)
    requires k < j && DownAbove(g, down, d, k) && !DownAbove(g, down, d, j)
    ensures RootCause(g, down, r) && ProperlyBelow(g, d, r)
    decreases j - k
  {
    if DownAbove(g, down, d, k + 1) {
      r := TopOfDownRun(g, down, d, k + 1, j);
    } else {
      r := Up(g, d, k).value;
      assert Up(g, d, k + 1) == Parent(g, r);
    }
  }

  /**
   * Suppression and root-cause reporting agree on every graph, cyclic and dangling ones included:
   * a device is suppressed exactly when it is a proper descendant of a root cause, or its chain
   * runs into a cycle of devices that are all down.
   */
  lemma SuppressedIffUnderRootCause(g: Graph, down: set<Id>, d: Id)
    ensures (exists k: nat :: DownAbove(g, down, d, k))
       <==> (exists r :: RootCause(g, down, r) && ProperlyBelow(g, d, r)) || DownForever(g, down, d)
  {
    if exists k: nat :: DownAbove(g, down, d, k) {
      var k: nat :| DownAbove(g, down, d, k);
      if exists j: nat :: j > k && !DownAbove(g, down, d, j) {
        var j: nat :| j > k && !DownAbove(g, down, d, j);
        var r := TopOfDownRun(g, down, d, k, j);
      } else {
        assert DownFrom(g, down, d, k);
      }
    }
    if exists r :: RootCause(g, down, r) && ProperlyBelow(g, d, r) {
      var r :| RootCause(g, down, r) && ProperlyBelow(g, d, r);
      var k: nat :| k >= 1 && Up(g, d, k) == Some(r);
      assert DownAbove(g, down, d, k);
    }
    if DownForever(g, down, d) {
      var k: nat :| DownFrom(g, down, d, k);
      assert DownAbove(g, down, d, k);
    }
  }

  lemma DownForeverNeverEnds(g: Graph, down: set<Id>, d: Id)
    requires DownForever(g, down, d)
    ensures !Ends(g, d)
  {
    var k: nat :| DownFrom(g, down, d, k);
    forall n: nat ensures Up(g, d, n).Some? {
      assert DownAbove(g, down, d, n + k);
      UpAdd(g, d, n, k);
    }
  }

  lemma EndsOrMissing(g: Graph, d: Id)
    requires Forest(g)
    ensures Ends(g, d)
  {
    if d !in g {
      assert Up(g, d, 0).None?;
    }
  }

  /** On an acyclic graph suppression means exactly: below a device that GetRootCauseOutages reports. */
  lemma SuppressedIffUnderReportedOutage(g: Graph, down: set<Id>, d: Id)
    requires Forest(g)
    ensures (exists k: nat :: DownAbove(g, down, d, k))
       <==> exists r :: RootCause(g, down, r) && d in Descendants(g, r)
  {
    SuppressedIffUnderRootCause(g, down, d);
    if DownForever(g, down, d) {
      DownForeverNeverEnds(g, down, d);
      EndsOrMissing(g, d);
      assert false;
    }
    if exists r :: RootCause(g, down, r) && ProperlyBelow(g, d, r) {
      var r :| RootCause(g, down, r) && ProperlyBelow(g, d, r);
      var k: nat :| k >= 1 && Up(g, d, k) == Some(r);
      assert d in Descendants(g, r);
    }
  }
}
