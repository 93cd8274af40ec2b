/**
 * The location hierarchy as a mutable table: creation, the cycle-checked move and the re-parenting
 * delete. Each operation runs as one serial step over the table.
 */
module Locations {
  import opened Basics
  import opened ParentGraph

  datatype Location = Location(kind: string, code: Option<string>, parent: Option<Id>)

  type Table = map<Id, Location>

  const VALID_TYPES := {"campus", "building", "floor", "room", "rack", "closet", "zone", "site"}

  datatype Outcome =
    | Done
    | Created(id: Id)
    | InvalidType
    | CodeInUse
    | ParentMissing
    | OwnParent
    | Circular
    | NotFound
    | StillReferenced

  ghost function Links(t: Table): (g: Graph)
    ensures g.Keys == t.Keys
  {
    map i | i in t :: t[i].parent
  }

  /** Foreign key: a stored parent exists. Unique constraint: no code is used twice. */
  ghost predicate Consistent(t: Table, nextId: Id) {
    && (forall i :: i in t ==> i < nextId)
    && (forall i :: i in t && t[i].parent.Some? ==> t[i].parent.value in t)
    && (forall i, j :: i in t && j in t && i != j && t[i].code.Some? ==> t[i].code != t[j].code)
  }

  // ---------- Effects on the table ------------------------------------------

  ghost predicate CodeTaken(t: Table, code: Option<string>) {
    code.Some? && exists i :: i in t && t[i].code == code
  }

  /** A move is admissible when it goes to the top or under an existing row outside the moved subtree. */
  ghost predicate MoveAllowed(t: Table, id: Id, newParent: Option<Id>) {
    newParent.Some? ==> newParent.value in t && newParent.value !in Subtree(Links(t), id)
  }

  ghost function Moved(t: Table, id: Id, newParent: Option<Id>): Table {
    if id in t then t[id := t[id].(parent := newParent)] else t
  }

  ghost function Reparented(t: Table, id: Id): (u: Table)
    requires id in t
    ensures u.Keys == t.Keys
  {
    map i | i in t :: if t[i].parent == Some(id) then t[i].(parent := t[id].parent) else t[i]
  }

  datatype Op =
    | Create(kind: string, code: Option<string>, parent: Option<Id>)
    | Move(id: Id, newParent: Option<Id>)
    | Delete(id: Id, referenced: bool) // referenced: another table still points at the row

  datatype State = State(table: Table, nextId: Id)

  ghost function Apply(s: State, op: Op): State {
    match op
    case Create(kind, code, parent) =>
      if kind in VALID_TYPES && !CodeTaken(s.table, code) && (parent.Some? ==> parent.value in s.table)
      then State(s.table[s.nextId := Location(kind, code, parent)], s.nextId + 1) else s
    case Move(id, newParent) =>
      if MoveAllowed(s.table, id, newParent) then s.(table := Moved(s.table, id, newParent)) else s
    case Delete(id, referenced) =>
      if id !in s.table then s
      else if referenced then s.(table := Reparented(s.table, id))
      else s.(table := Reparented(s.table, id) - {id})
  }

  ghost predicate Sound(s: State) {
    Consistent(s.table, s.nextId) && Forest(Links(s.table))
  }

  // ---------- Service --------------------------------------------------------

  class LocationService {
    var table: Table
    var nextId: Id

    ghost function Snapshot(): State
      reads this
    {
      State(table, nextId)
    }

    ghost predicate Valid()
      reads this
    {
      Sound(Snapshot())
    }

    constructor ()
      ensures Valid() && table == map[]
    {
      table, nextId := map[], 1;
    }

    method Create(kind: string, code: string, parent: Option<Id>) returns (r: Outcome)
      requires Valid()
      modifies this
      ensures Valid()
      ensures Snapshot() == Apply(old(Snapshot()), Op.Create(kind, StoredCode(code), parent))
      ensures r.Created? <==>
                && kind in {"campus", "building", "floor", "room", "rack", "closet", "zone", "site"}
                && !(code != "" && exists i :: i in old(table) && old(table)[i].code == Some(code))
                && (parent.Some? ==> parent.value in old(table))
      ensures r.Created? ==> r.id !in old(table) && table == old(table)[r.id := Location(kind, if code == "" then None else Some(code), parent)]
      ensures !r.Created? ==> table == old(table)
    {
      ApplyKeepsSound(Snapshot(), Op.Create(kind, StoredCode(code), parent));
      if kind !in VALID_TYPES {
        return InvalidType;
      }
      if code != "" && exists i :: i in table && table[i].code == Some(code) {
        return CodeInUse;
      }
      if parent.Some? && parent.value !in table {
        return ParentMissing;
      }
      table := table[nextId := Location(kind, StoredCode(code), parent)];
      r := Created(nextId);
      nextId := nextId + 1;
    }

    /** The upward walk has no visited set; it ends because the table is a forest. */
    method Move(id: Id, newParent: Option<Id>) returns (r: Outcome)
      requires Valid()
      modifies this
      ensures Valid()
      ensures Snapshot() == Apply(old(Snapshot()), Op.Move(id, newParent))
      ensures r == Done <==> newParent.None? || (newParent.value in old(table) && newParent.value !in old(Subtree(Links(table), id)))
      ensures table == if r == Done && id in old(table) then old(table)[id := old(table)[id].(parent := newParent)] else old(table)
      ensures r == NotFound ==> newParent.Some? && newParent.value !in old(table)
      ensures r == Circular ==> newParent.Some? && newParent.value in old(Descendants(Links(table), id))
      ensures r == OwnParent ==> newParent == Some(id)
      ensures r in {Done, NotFound, Circular, OwnParent}
    {
      ghost var g := Links(table);
      ApplyKeepsSound(Snapshot(), Op.Move(id, newParent));
      if newParent.None? {
        SetParent(id, None);
        return Done;
      }
      if newParent.value == id {
        assert id in table ==> Up(g, id, 0) == Some(id);
        return OwnParent;
      }
      var verdict := CheckCycle(id, newParent.value);
      if verdict != Done {
        return verdict;
      }
      SetParent(id, newParent);
      r := Done;
    }

    /** The walk from the new parent up to the root. */
    method CheckCycle(id: Id, newParent: Id) returns (r: Outcome)
      requires Valid() && newParent != id
      ensures r in {Done, NotFound, Circular}
      ensures r == Done <==> newParent in table && !Below(Links(table), newParent, id)
      ensures r == NotFound <==> newParent !in table
      ensures r == Circular ==> ProperlyBelow(Links(table), newParent, id)
    {
      ghost var g := Links(table);
      var current := newParent;
      ghost var n: nat := 0;
      while true
        invariant newParent in g ==> Up(g, newParent, n) == Some(current)
        invariant newParent !in g ==> current == newParent
        invariant forall j: nat :: j <= n ==> Up(g, newParent, j) != Some(id)
        decreases |g| - n
      {
        if current !in table {
          return NotFound;
        }
        var parentId := table[current].parent;
        UpStep(g, newParent, n);
        if parentId.None? {
          NoneAbove(g, newParent, n, id);
          return Done;
        }
        if parentId.value == id {
          assert Up(g, newParent, n + 1) == Some(id);
          return Circular;
        }
        ChainBounded(g, newParent, n);
        current := parentId.value;
        n := n + 1;
      }
    }

    /** UPDATE by primary key: no effect when the row is missing. */
    method SetParent(id: Id, parent: Option<Id>)
      modifies this`table
      ensures table == Moved(old(table), id, parent)
    {
      if id in table {
        table := table[id := table[id].(parent := parent)];
      }
    }

    /** Two statements: children are re-parented first, then the row goes unless something still refers to it. */
    method Delete(id: Id, referenced: bool) returns (r: Outcome)
      requires Valid()
      modifies this
      ensures Valid()
      ensures Snapshot() == Apply(old(Snapshot()), Op.Delete(id, referenced))
      ensures r == if id !in old(table) then NotFound else if referenced then StillReferenced else Done
    {
      ApplyKeepsSound(Snapshot(), Op.Delete(id, referenced));
      if id !in table {
        return NotFound;
      }
      var parent := table[id].parent;
      table := map i | i in table :: if table[i].parent == Some(id) then table[i].(parent := parent) else table[i];
      if referenced {
        return StillReferenced;
      }
      table := table - {id};
      r := Done;
    }
  }

  /** An empty code is stored as NULL. */
  function StoredCode(code: string): Option<string> {
    if code == "" then None else Some(code)
  }

  lemma NoneAbove(g: Graph, x: Id, n: nat, r: Id)
    requires Up(g, x, n).Some? && Parent(g, Up(g, x, n).value).None?
    requires forall j: nat :: j <= n ==> Up(g, x, j) != Some(r)
    ensures !Below(g, x, r)
  {
    UpStep(g, x, n);
    forall k: nat ensures Up(g, x, k) != Some(r) {
      if k > n { UpAdd(g, x, n + 1, k - n - 1); }
    }
  }

  // ---------- Moving ---------------------------------------------------------

  /** A chain that avoids `id` is the same after `id` got another parent. */
  lemma {:induction false} ChainAvoiding(g: Graph, id: Id, p: Option<Id>, x: Id, k: nat)
    requires id in g
    requires forall j: nat :: j < k ==> Up(g, x, j) != Some(id)
    ensures Up(g[id := p], x, k) == Up(g, x, k)
  {
    if k > 0 {
      ChainAvoiding(g, id, p, x, k - 1);
      assert Up(g, x, k - 1) != Some(id);
    }
  }

  /** The first position at which the chain above `x` meets `id`. */
  lemma {:induction false} FirstMeeting(g: Graph, x: Id, id: Id, k: nat) returns (f: nat)
    requires Up(g, x, k) == Some(id)
    ensures f <= k && Up(g, x, f) == Some(id) && forall j: nat :: j < f ==> Up(g, x, j) != Some(id)
  {
    if j: nat :| j < k && Up(g, x, j) == Some(id) {
      f := FirstMeeting(g, x, id, j);
    } else {
      f := k;
    }
  }

  /** The chain above a moved row: unchanged up to `id`, then the chain of the new parent. */
  lemma {:induction false} MovedChain(g: Graph, id: Id, p: Option<Id>, x: Id, f: nat, k: nat)
    requires id in g && (p.Some? ==> p.value in g && p.value !in Subtree(g, id))
    requires Up(g, x, f) == Some(id) && forall j: nat :: j < f ==> Up(g, x, j) != Some(id)
    ensures Up(g[id := p], x, k) == if k <= f then Up(g, x, k) else if p.None? then None else Up(g, p.value, k - f - 1)
  {
    if k <= f {
      ChainAvoiding(g, id, p, x, k);
    } else {
      MovedChain(g, id, p, x, f, k - 1);
      if p.Some? && k >= f + 2 {
        assert Up(g, p.value, k - f - 2) != Some(id);
      }
    }
  }

  /**
   * Exactly what a move does to reachability: rows outside the moved subtree keep their ancestors;
   * a row inside keeps those inside and gains the new parent with everything above it.
   */
  lemma MoveAncestors(g: Graph, id: Id, p: Option<Id>, x: Id, y: Id)
    requires Forest(g) && id in g
    requires p.Some? ==> p.value in g && p.value !in Subtree(g, id)
    ensures Below(g[id := p], x, y) <==>
              if x in Subtree(g, id)
              then (Below(g, x, y) && y in Subtree(g, id)) || (p.Some? && Below(g, p.value, y))
              else Below(g, x, y)
  {
    if x in Subtree(g, id) {
      var k: nat :| Up(g, x, k) == Some(id);
      var f := FirstMeeting(g, x, id, k);
      AncestorsAfterMove(g, id, p, x, f, y);
      AncestorsKeptByMove(g, id, p, x, f, y);
    } else {
      OutsideUnchanged(g, id, p, x, y);
    }
  }

  lemma AncestorsAfterMove(g: Graph, id: Id, p: Option<Id>, x: Id, f: nat, y: Id)
    requires id in g && (p.Some? ==> p.value in g && p.value !in Subtree(g, id))
    requires Up(g, x, f) == Some(id) && forall j: nat :: j < f ==> Up(g, x, j) != Some(id)
    ensures Below(g[id := p], x, y) ==> (Below(g, x, y) && y in Subtree(g, id)) || (p.Some? && Below(g, p.value, y))
  {
    if Below(g[id := p], x, y) {
      var k: nat :| Up(g[id := p], x, k) == Some(y);
      MovedChain(g, id, p, x, f, k);
      if k <= f {
        UpAdd(g, x, k, f - k);
        assert Up(g, y, f - k) == Some(id);
      } else {
        assert Up(g, p.value, k - f - 1) == Some(y);
      }
    }
  }

  lemma AncestorsKeptByMove(g: Graph, id: Id, p: Option<Id>, x: Id, f: nat, y: Id)
    requires Forest(g) && id in g && (p.Some? ==> p.value in g && p.value !in Subtree(g, id))
    requires Up(g, x, f) == Some(id) && forall j: nat :: j < f ==> Up(g, x, j) != Some(id)
    ensures Below(g, x, y) && y in Subtree(g, id) ==> Below(g[id := p], x, y)
    ensures p.Some? && Below(g, p.value, y) ==> Below(g[id := p], x, y)
  {
    if Below(g, x, y) && y in Subtree(g, id) {
      var k: nat :| Up(g, x, k) == Some(y);
      NotAboveAndBelow(g, x, id, f, y, k);
      MovedChain(g, id, p, x, f, k);
    }
    if p.Some? && Below(g, p.value, y) {
      var m: nat :| Up(g, p.value, m) == Some(y);
      MovedChain(g, id, p, x, f, f + 1 + m);
      assert Up(g[id := p], x, f + 1 + m) == Up(g, p.value, m);
    }
  }

  lemma OutsideUnchanged(g: Graph, id: Id, p: Option<Id>, x: Id, y: Id)
    requires id in g && x !in Subtree(g, id)
    ensures Below(g[id := p], x, y) <==> Below(g, x, y)
  {
    forall k: nat ensures Up(g[id := p], x, k) == Up(g, x, k) {
      forall j: nat ensures Up(g, x, j) != Some(id) {
        if Up(g, x, j) == Some(id) { assert Below(g, x, id); }
      }
      ChainAvoiding(g, id, p, x, k);
    }
    if Below(g, x, y) {
      var k: nat :| Up(g, x, k) == Some(y);
      assert Up(g[id := p], x, k) == Some(y);
    }
    if Below(g[id := p], x, y) {
      var k: nat :| Up(g[id := p], x, k) == Some(y);
      assert Up(g, x, k) == Some(y);
    }
  }

  /** On a chain through `id`, a row of the subtree of `id` is met no later than `id`. */
  lemma NotAboveAndBelow(g: Graph, x: Id, id: Id, f: nat, y: Id, k: nat)
    requires Forest(g) && Up(g, x, f) == Some(id) && Up(g, x, k) == Some(y) && y in Subtree(g, id)
    ensures k <= f
  {
    ForestIffAcyclic(g);
    var m: nat :| Up(g, y, m) == Some(id);
    UpAdd(g, x, k, m);
    if k > f {
      UpAdd(g, x, f, k + m - f);
    }
  }

  /** A move keeps the table a forest exactly when it is admissible. */
  lemma MoveForestIff(g: Graph, id: Id, p: Option<Id>)
    requires Forest(g) && id in g && (p.Some? ==> p.value in g)
    ensures Forest(g[id := p]) <==> p.None? || p.value !in Subtree(g, id)
  {
    var h := g[id := p];
    if p.Some? && p.value in Subtree(g, id) {
      var k: nat :| Up(g, p.value, k) == Some(id);
      var f := FirstMeeting(g, p.value, id, k);
      ChainAvoiding(g, id, p, p.value, f);
      UpStep(h, p.value, f);
      assert Up(h, p.value, f + 1) == p;
      CycleNeverEnds(h, p.value);
    } else {
      forall x | x in h ensures Ends(h, x) {
        MovedRowEnds(g, id, p, x);
      }
    }
  }

  lemma MovedRowEnds(g: Graph, id: Id, p: Option<Id>, x: Id)
    requires Forest(g) && id in g && x in g
    requires p.Some? ==> p.value in g && p.value !in Subtree(g, id)
    ensures Ends(g[id := p], x)
  {
    var h := g[id := p];
    if x in Subtree(g, id) {
      var k: nat :| Up(g, x, k) == Some(id);
      var f := FirstMeeting(g, x, id, k);
      if p.None? {
        MovedChain(g, id, p, x, f, f + 1);
        assert Up(h, x, f + 1).None?;
      } else {
        assert Ends(g, p.value);
        var n: nat :| Up(g, p.value, n).None?;
        MovedChain(g, id, p, x, f, f + 1 + n);
        assert Up(h, x, f + 1 + n).None?;
      }
    } else {
      assert Ends(g, x);
      var n: nat :| Up(g, x, n).None?;
      assert forall j: nat :: Up(g, x, j) != Some(id);
      ChainAvoiding(g, id, p, x, n);
      assert Up(h, x, n).None?;
    }
  }

  // ---------- Deleting -------------------------------------------------------

  /** The links after the children of `id` were re-parented. */
  ghost function Lifted(g: Graph, id: Id): (h: Graph)
    requires id in g
    ensures h.Keys == g.Keys
  {
    map i | i in g :: if g[i] == Some(id) then g[id] else g[i]
  }

  lemma NoSelfParent(g: Graph, id: Id)
    requires Forest(g) && id in g
    ensures g[id] != Some(id)
  {
    if g[id] == Some(id) {
      assert Up(g, id, 0) == Some(id);
      assert Up(g, id, 1) == Some(id);
      CycleNeverEnds(g, id);
    }
  }

  /** The parent of a remaining row: its parent, or its grandparent where the parent was `id`. */
  lemma LiftedParent(g: Graph, id: Id, x: Id)
    requires Forest(g) && id in g && x in g && x != id
    ensures Parent(Lifted(g, id), x) == if Parent(g, x) == Some(id) then Parent(g, id) else Parent(g, x)
    ensures Parent(Lifted(g, id), x) != Some(id)
  {
    NoSelfParent(g, id);
  }

  /** Upward walks that skip `id` were walks before. */
  lemma {:induction false} LiftedReaches(g: Graph, id: Id, x: Id, y: Id, k: nat) returns (m: nat)
    requires Forest(g) && id in g && x != id
    requires Up(Lifted(g, id), x, k) == Some(y)
    ensures y != id && m >= k && Up(g, x, m) == Some(y)
    decreases k
  {
    if k == 0 {
      m := 0;
    } else {
      var w := Up(Lifted(g, id), x, k - 1).value;
      m := LiftedReaches(g, id, x, w, k - 1);
      LiftedParent(g, id, w);
      UpStep(Lifted(g, id), x, k - 1);
      UpStep(g, x, m);
      m := m + 1;
      if Parent(g, w) == Some(id) {
        UpStep(g, x, m);
        m := m + 1;
      }
    }
  }

  /** Walks between remaining rows survive, skipping `id`. */
  lemma {:induction false} ReachesLifted(g: Graph, id: Id, x: Id, y: Id, k: nat) returns (m: nat)
    requires Forest(g) && id in g && x != id
    requires Up(g, x, k) == Some(y)
    ensures y != id ==> Up(Lifted(g, id), x, m) == Some(y)
    ensures y == id ==> Up(Lifted(g, id), x, m) == Parent(g, id)
    decreases k
  {
    if k == 0 {
      m := 0;
    } else {
      UpStep(g, x, k - 1);
      var w := Up(g, x, k - 1).value;
      m := ReachesLifted(g, id, x, w, k - 1);
      if w != id {
        LiftedParent(g, id, w);
        UpStep(Lifted(g, id), x, m);
        m := m + 1;
      } else {
        NoSelfParent(g, id);
      }
    }
  }

  /** Removing the row that nothing points at leaves every other chain alone. */
  lemma RemovedSame(g: Graph, id: Id, x: Id, k: nat)
    requires Forest(g) && id in g && x != id
    ensures Up(Lifted(g, id) - {id}, x, k) == Up(Lifted(g, id), x, k)
  {
    NoSelfParent(g, id);
    if x in g {
      SameChain(Lifted(g, id) - {id}, Lifted(g, id), x, k);
    } else {
      UpAdd(Lifted(g, id) - {id}, x, 0, k);
      UpAdd(Lifted(g, id), x, 0, k);
    }
  }

  /** Deleting a row changes no ancestor relation between the other rows. */
  lemma DeleteKeepsAncestors(g: Graph, id: Id, x: Id, y: Id)
    requires Forest(g) && id in g && x != id && y != id
    ensures Below(Lifted(g, id), x, y) <==> Below(g, x, y)
    ensures Below(Lifted(g, id) - {id}, x, y) <==> Below(g, x, y)
  {
    var h := Lifted(g, id);
    if Below(h, x, y) {
      var k: nat :| Up(h, x, k) == Some(y);
      var m := LiftedReaches(g, id, x, y, k);
    }
    if Below(g, x, y) {
      var k: nat :| Up(g, x, k) == Some(y);
      var m := ReachesLifted(g, id, x, y, k);
    }
    forall k: nat ensures Up(h - {id}, x, k) == Up(h, x, k) {
      RemovedSame(g, id, x, k);
    }
    if Below(h, x, y) {
      var k: nat :| Up(h, x, k) == Some(y);
      assert Up(h - {id}, x, k) == Some(y);
    }
  }

  /** Re-parenting, with or without the removal, keeps the table a forest. */
  lemma DeleteKeepsForest(g: Graph, id: Id)
    requires Forest(g) && id in g
    ensures Forest(Lifted(g, id)) && Forest(Lifted(g, id) - {id})
  {
    var h := Lifted(g, id);
    ForestIffAcyclic(g);
    forall x | x in g ensures !OnCycle(h, x) {
      if x == id {
        DeletedRowAcyclic(g, id);
      } else {
        OthersAcyclic(g, id, x);
      }
    }
    ForestIffAcyclic(h);
    forall x | x in h - {id} ensures Ends(h - {id}, x) {
      assert Ends(h, x);
      var n: nat :| Up(h, x, n).None?;
      RemovedSame(g, id, x, n);
    }
  }

  lemma OthersAcyclic(g: Graph, id: Id, x: Id)
    requires Forest(g) && id in g && x in g && x != id
    ensures !OnCycle(Lifted(g, id), x)
  {
    ForestIffAcyclic(g);
    forall k: nat | k >= 1 ensures Up(Lifted(g, id), x, k) != Some(x) {
      if Up(Lifted(g, id), x, k) == Some(x) {
        var m := LiftedReaches(g, id, x, x, k);
      }
    }
  }

  /** After re-parenting nothing points at the row any more. */
  lemma DeletedRowAcyclic(g: Graph, id: Id)
    requires Forest(g) && id in g
    ensures !OnCycle(Lifted(g, id), id)
  {
    var h := Lifted(g, id);
    NoSelfParent(g, id);
    forall k: nat | k >= 1 ensures Up(h, id, k) != Some(id) {
      if Up(h, id, k - 1).Some? {
        UpStep(h, id, k - 1);
      }
    }
  }

  // ---------- Every run ------------------------------------------------------

  lemma ApplyKeepsSound(s: State, op: Op)
    requires Sound(s)
    ensures Sound(Apply(s, op))
  {
    match op
    case Create(kind, code, parent) =>
      if Apply(s, op) != s {
        CreateKeepsSound(s, Location(kind, code, parent));
      }
    case Move(id, newParent) =>
      if id in s.table && MoveAllowed(s.table, id, newParent) {
        MoveKeepsSound(s, id, newParent);
      }
    case Delete(id, referenced) =>
      if id in s.table {
        DeleteKeepsSound(s, id);
      }
  }

  lemma CreateKeepsSound(s: State, row: Location)
    requires Sound(s) && !CodeTaken(s.table, row.code) && (row.parent.Some? ==> row.parent.value in s.table)
    ensures Sound(State(s.table[s.nextId := row], s.nextId + 1))
  {
    var g := Links(s.table);
    CreateKeepsForest(g, s.nextId, row.parent);
    assert Links(s.table[s.nextId := row]) == g[s.nextId := row.parent];
  }

  lemma MoveKeepsSound(s: State, id: Id, newParent: Option<Id>)
    requires Sound(s) && id in s.table && MoveAllowed(s.table, id, newParent)
    ensures Sound(s.(table := Moved(s.table, id, newParent)))
  {
    var g := Links(s.table);
    MoveForestIff(g, id, newParent);
    assert Links(Moved(s.table, id, newParent)) == g[id := newParent];
  }

  lemma DeleteKeepsSound(s: State, id: Id)
    requires Sound(s) && id in s.table
    ensures Sound(s.(table := Reparented(s.table, id)))
    ensures Sound(s.(table := Reparented(s.table, id) - {id}))
  {
    var g := Links(s.table);
    NoSelfParent(g, id);
    DeleteKeepsForest(g, id);
    DeleteLinks(s.table, id);
    ReparentedConsistent(s.table, id, s.nextId);
  }

  lemma DeleteLinks(t: Table, id: Id)
    requires id in t
    ensures Links(Reparented(t, id)) == Lifted(Links(t), id)
    ensures Links(Reparented(t, id) - {id}) == Lifted(Links(t), id) - {id}
  {}

  lemma ReparentedConsistent(t: Table, id: Id, nextId: Id)
    requires id in t && Consistent(t, nextId) && t[id].parent != Some(id)
    ensures Consistent(Reparented(t, id), nextId)
    ensures Consistent(Reparented(t, id) - {id}, nextId)
  {}

  lemma CreateKeepsForest(g: Graph, id: Id, parent: Option<Id>)
    requires Forest(g) && id !in g && (parent.Some? ==> parent.value in g)
    requires forall i :: i in g ==> g[i] != Some(id)
    ensures Forest(g[id := parent])
  {
    var h := g[id := parent];
    forall x | x in g ensures Ends(h, x) {
      assert Ends(g, x);
      var n: nat :| Up(g, x, n).None?;
      SameChain(g, h, x, n);
    }
    assert Up(h, id, 0) == Some(id);
    UpStep(h, id, 0);
    if parent.Some? {
      var n: nat :| Up(h, parent.value, n).None?;
      UpAdd(h, id, 1, n);
    }
  }

  lemma {:induction false} SameChain(g: Graph, h: Graph, x: Id, k: nat)
    requires x in g && g.Keys <= h.Keys
    requires forall i :: i in g ==> h[i] == g[i] && (g[i].Some? && g[i].value in h ==> g[i].value in g)
    ensures Up(h, x, k) == Up(g, x, k)
  {
    if k > 0 { SameChain(g, h, x, k - 1); }
  }

  ghost function Run(s: State, ops: seq<Op>): State {
    if ops == [] then s else Apply(Run(s, ops[..|ops| - 1]), ops[|ops| - 1])
  }

  /** From any sound table, every sequence of creations, moves and deletions leaves a forest. */
  lemma {:induction false} AlwaysForest(s: State, ops: seq<Op>)
    requires Sound(s)
    ensures Sound(Run(s, ops))
    ensures forall x :: x in Run(s, ops).table ==> !OnCycle(Links(Run(s, ops).table), x)
  {
    if ops != [] {
      AlwaysForest(s, ops[..|ops| - 1]);
      ApplyKeepsSound(Run(s, ops[..|ops| - 1]), ops[|ops| - 1]);
    }
    ForestIffAcyclic(Links(Run(s, ops).table));
  }

  // ---------- The recursive query --------------------------------------------

  /** Rows the recursive query adds at its `n`-th round. */
  ghost function Level(g: Graph, root: Id, n: nat): set<Id> {
    if n == 0 then set x | x in g && x == root
    else set x | x in g && Parent(g, x).Some? && Parent(g, x).value in Level(g, root, n - 1)
  }

  lemma {:induction false} LevelIs(g: Graph, root: Id, n: nat, x: Id)
    ensures x in Level(g, root, n) <==> Up(g, x, n) == Some(root)
  {
    if n > 0 {
      if x in g {
        assert Up(g, x, 0) == Some(x);
        UpAdd(g, x, 1, n - 1);
        assert Up(g, x, 1) == Parent(g, x);
        if Parent(g, x).Some? {
          LevelIs(g, root, n - 1, Parent(g, x).value);
        }
      }
    }
  }

  /** The recursive query returns the subtree. */
  lemma QueryReturnsSubtree(g: Graph, root: Id, x: Id)
    ensures x in Subtree(g, root) <==> exists n: nat :: x in Level(g, root, n)
  {
    if x in Subtree(g, root) {
      var n: nat :| Up(g, x, n) == Some(root);
      LevelIs(g, root, n, x);
    }
    if n: nat :| x in Level(g, root, n) {
      LevelIs(g, root, n, x);
    }
  }

  /**
   * On a forest each row is returned in exactly one round, so the UNION ALL adds no duplicates,
   * and the rounds run empty.
   */
  lemma QueryHasNoDuplicates(g: Graph, root: Id, x: Id, m: nat, n: nat)
    requires Forest(g)
    requires x in Level(g, root, m)
    ensures x in Level(g, root, n) ==> m == n
    ensures m < |g|
  {
    LevelIs(g, root, m, x);
    LevelIs(g, root, n, x);
    ChainBounded(g, x, m);
    if x in Level(g, root, n) {
      OneDistance(g, x, root, m, n);
      OneDistance(g, x, root, n, m);
    }
  }

  lemma OneDistance(g: Graph, x: Id, root: Id, m: nat, n: nat)
    requires Forest(g) && Up(g, x, m) == Some(root) && Up(g, x, n) == Some(root)
    ensures m <= n
  {
    assert Up(g, root, 0) == Some(root);
    NotAboveAndBelow(g, x, root, n, root, m);
  }
}
