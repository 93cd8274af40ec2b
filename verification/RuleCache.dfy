/**
 * The generation-stamped cache of evaluable alert rules: calls that load, hits, edits and
 * invalidations interleaved step by step. Each load of the rule table reads one snapshot. The
 * generation is unbounded here.
 */
module RuleCache {
  import opened Basics

  const RULE_CACHE_TTL := 15 * 1_000_000_000

  datatype Rule = Rule(id: int, enabled: bool, conditions: seq<int>)

  type Table = seq<Rule>

  predicate Evaluable(r: Rule) {
    r.enabled && |r.conditions| > 0
  }

  /** The evaluable ones of the first `n` rules, in table order. */
  ghost function ActiveUpTo(rows: Table, n: nat): seq<Rule>
    requires n <= |rows|
  {
    if n == 0 then []
    else if Evaluable(rows[n - 1]) then ActiveUpTo(rows, n - 1) + [rows[n - 1]]
    else ActiveUpTo(rows, n - 1)
  }

  ghost function Active(rows: Table): seq<Rule> {
    ActiveUpTo(rows, |rows|)
  }

  /** What is returned: the enabled rules of the table that have a condition. */
  lemma {:induction false} ActiveExact(rows: Table, n: nat, r: Rule)
    requires n <= |rows|
    ensures r in ActiveUpTo(rows, n) <==> r.enabled && r.conditions != [] && r in rows[..n]
  {
    if n > 0 {
      ActiveExact(rows, n - 1, r);
      assert rows[..n] == rows[..n - 1] + [rows[n - 1]];
    }
  }

  method FilterActive(all: Table) returns (active: seq<Rule>)
    ensures active == Active(all)
  {
    active := [];
    var i := 0;
    while i < |all|
      invariant 0 <= i <= |all|
      invariant active == ActiveUpTo(all, i)
    {
      if all[i].enabled && |all[i].conditions| > 0 {
        active := active + [all[i]];
      }
      i := i + 1;
    }
  }

  // ---------- The cache object -------------------------------------------------------

  /** `loadedAt` is None for the zero time. */
  datatype Cache = Cache(rules: seq<Rule>, loadedAt: Option<int>, gen: nat)

  predicate Hit(c: Cache, now: int) {
    c.loadedAt.Some? && now - c.loadedAt.value < RULE_CACHE_TTL
  }

  function Invalidated(c: Cache): Cache {
    c.(gen := c.gen + 1, loadedAt := None)
  }

  /** A load that began in generation `gen` is installed only when that is still the generation. */
  function Installed(c: Cache, gen: nat, active: seq<Rule>, now: int): Cache {
    if c.gen == gen then c.(rules := active, loadedAt := Some(now)) else c
  }

  class RuleCacheObject {
    var rules: seq<Rule>
    var loadedAt: Option<int>
    var gen: nat

    constructor ()
      ensures State() == Cache([], None, 0)
    {
      rules, loadedAt, gen := [], None, 0;
    }

    ghost function State(): Cache
      reads this
    {
      Cache(rules, loadedAt, gen)
    }

    method Invalidate()
      modifies this
      ensures State() == Invalidated(old(State()))
    {
      gen := gen + 1;
      loadedAt := None;
    }

    /** The first critical section of a call: the cached rules, or the generation to load in. */
    method Begin(now: int) returns (hit: Option<seq<Rule>>, g: nat)
      ensures hit == if Hit(State(), now) then Some(rules) else None
      ensures hit.Some? <==> loadedAt.Some? && now < loadedAt.value + 15_000_000_000
      ensures g == gen
    {
      g := gen;
      hit := if loadedAt.Some? && now - loadedAt.value < RULE_CACHE_TTL then Some(rules) else None;
    }

    /** The second critical section. */
    method Finish(g: nat, active: seq<Rule>, now: int)
      modifies this
      ensures State() == Installed(old(State()), g, active, now)
    {
      if gen == g {
        rules := active;
        loadedAt := Some(now);
      }
    }

    /** A call that nothing else interleaves with; `all` is what the table read returns, None on an error. */
    method ActiveRules(all: Option<Table>, before: int, after: int) returns (r: Option<seq<Rule>>)
      modifies this
      ensures r == if Hit(old(State()), before) then Some(old(rules)) else if all.Some? then Some(Active(all.value)) else None
      ensures State() == if Hit(old(State()), before) || all.None? then old(State()) else Installed(old(State()), old(gen), Active(all.value), after)
    {
      var g;
      r, g := Begin(before);
      if r.Some? { return; }
      if all.None? { return None; }
      var active := FilterActive(all.value);
      Finish(g, active, after);
      r := Some(active);
    }
  }

  // ---------- Every interleaving -------------------------------------------------------

  /**
   * One activeRules call. `floor` is the newest table version whose invalidation had returned when
   * the call began; `version` is the version of the table its rules come from.
   */
  datatype Call =
    | Ready
    | Loading(gen: nat, floor: nat)
    | Loaded(gen: nat, floor: nat, version: nat)
    | Returned(rules: seq<Rule>, floor: nat, version: nat)
    | LoadFailed

  /**
   * `tables[v]` is the rule table after `v` edits. A handler holds the version of its edit between the
   * edit and its invalidation. `cachedVersion` says which table the cached rules come from.
   */
  datatype State = State(
    tables: seq<Table>, cache: Cache, cachedVersion: nat,
    calls: seq<Call>, handlers: seq<Option<nat>>, floor: nat)

  datatype Step =
    | BeginCall(i: nat, now: int)
    | ReadTable(i: nat)
    | ReadFails(i: nat)
    | FinishCall(i: nat, now: int)
    | Edit(h: nat, table: Table)
    | Invalidate(h: nat)
    | EditElsewhere(table: Table)

  predicate Enabled(s: State, step: Step) {
    match step
    case BeginCall(i, _) => i < |s.calls| && (s.calls[i].Ready? || s.calls[i].Returned? || s.calls[i].LoadFailed?)
    case ReadTable(i) => i < |s.calls| && s.calls[i].Loading? && s.tables != []
    case ReadFails(i) => i < |s.calls| && s.calls[i].Loading?
    case FinishCall(i, _) => i < |s.calls| && s.calls[i].Loaded? && s.calls[i].version < |s.tables|
    case Edit(h, _) => h < |s.handlers| && s.handlers[h].None?
    case Invalidate(h) => h < |s.handlers| && s.handlers[h].Some?
    case EditElsewhere(_) => true
  }

  function Max(a: nat, b: nat): nat {
    if a < b then b else a
  }

  ghost function Next(s: State, step: Step): State
    requires Enabled(s, step)
  {
    match step
    case BeginCall(i, now) =>
      s.(calls := s.calls[i := if Hit(s.cache, now) then Returned(s.cache.rules, s.floor, s.cachedVersion) else Loading(s.cache.gen, s.floor)])
    case ReadTable(i) => s.(calls := s.calls[i := Loaded(s.calls[i].gen, s.calls[i].floor, |s.tables| - 1)])
    case ReadFails(i) => s.(calls := s.calls[i := LoadFailed])
    case FinishCall(i, now) =>
      var c := s.calls[i];
      var active := Active(s.tables[c.version]);
      s.(cache := Installed(s.cache, c.gen, active, now),
         cachedVersion := if s.cache.gen == c.gen then c.version else s.cachedVersion,
         calls := s.calls[i := Returned(active, c.floor, c.version)])
    case Edit(h, table) => s.(tables := s.tables + [table], handlers := s.handlers[h := Some(|s.tables|)])
    case Invalidate(h) =>
      s.(cache := Invalidated(s.cache), floor := Max(s.floor, s.handlers[h].value), handlers := s.handlers[h := None])
    case EditElsewhere(table) => s.(tables := s.tables + [table])
  }

  /** What a call may rely on. */
  ghost predicate CallOk(c: Call, tables: seq<Table>, gen: nat, floor: nat) {
    match c
    case Ready => true
    case LoadFailed => true
    case Loading(g, f) => g <= gen && f <= floor && (g == gen ==> f == floor)
    case Loaded(g, f, v) => g <= gen && f <= floor && (g == gen ==> f == floor) && f <= v < |tables|
    case Returned(rules, f, v) => f <= v < |tables| && rules == Active(tables[v])
  }

  ghost predicate Inv(s: State) {
    && s.floor < |s.tables|
    && (forall h :: 0 <= h < |s.handlers| && s.handlers[h].Some? ==> s.handlers[h].value < |s.tables|)
    && (s.cache.loadedAt.Some? ==> s.floor <= s.cachedVersion < |s.tables| && s.cache.rules == Active(s.tables[s.cachedVersion]))
    && (forall i :: 0 <= i < |s.calls| ==> CallOk(s.calls[i], s.tables, s.cache.gen, s.floor))
  }

  lemma StepKeeps(s: State, step: Step)
    requires Inv(s) && Enabled(s, step)
    ensures Inv(Next(s, step))
  {}

  ghost predicate Start(s: State) {
    && |s.tables| == 1 && s.cache == Cache([], None, 0) && s.floor == 0
    && (forall i :: 0 <= i < |s.calls| ==> s.calls[i] == Ready) && (forall h :: 0 <= h < |s.handlers| ==> s.handlers[h] == None)
  }

  ghost function After(s: State, steps: seq<Step>, n: nat): Option<State>
    requires n <= |steps|
  {
    if n == 0 then Some(s)
    else
      var before := After(s, steps, n - 1);
      if before.None? || !Enabled(before.value, steps[n - 1]) then None else Some(Next(before.value, steps[n - 1]))
  }

  lemma {:induction false} AlwaysInv(s: State, steps: seq<Step>, n: nat)
    requires Start(s) && n <= |steps| && After(s, steps, n).Some?
    ensures Inv(After(s, steps, n).value)
  {
    if n > 0 {
      AlwaysInv(s, steps, n - 1);
      StepKeeps(After(s, steps, n - 1).value, steps[n - 1]);
    }
  }

  /** The newest edit whose invalidation returned in the first `n` steps. */
  ghost function InvalidatedVersion(s: State, steps: seq<Step>, n: nat): nat
    requires n <= |steps| && After(s, steps, n).Some?
  {
    if n == 0 then 0
    else
      var before := InvalidatedVersion(s, steps, n - 1);
      if steps[n - 1].Invalidate? then Max(before, After(s, steps, n - 1).value.handlers[steps[n - 1].h].value) else before
  }

  lemma {:induction false} FloorIsInvalidatedVersion(s: State, steps: seq<Step>, n: nat)
    requires Start(s) && n <= |steps| && After(s, steps, n).Some?
    ensures After(s, steps, n).value.floor == InvalidatedVersion(s, steps, n)
  {
    if n > 0 { FloorIsInvalidatedVersion(s, steps, n - 1); }
  }

  /** No step of `from..to` begins another call in slot `i`. */
  ghost predicate SameCall(steps: seq<Step>, from: nat, end: nat, i: nat)
    requires end <= |steps|
  {
    forall j :: from <= j < end ==> !(steps[j].BeginCall? && steps[j].i == i)
  }

  ghost predicate HasFloor(c: Call, f: nat) {
    match c
    case Loading(_, floor) => floor == f
    case Loaded(_, floor, _) => floor == f
    case Returned(_, floor, _) => floor == f
    case _ => c.LoadFailed?
  }

  lemma StepKeepsFloor(s: State, step: Step, i: nat, f: nat)
    requires Enabled(s, step) && i < |s.calls| && HasFloor(s.calls[i], f) && !(step.BeginCall? && step.i == i)
    ensures i < |Next(s, step).calls| && HasFloor(Next(s, step).calls[i], f)
  {}

  lemma BeginSetsFloor(s: State, step: Step)
    requires Enabled(s, step) && step.BeginCall?
    ensures step.i < |Next(s, step).calls| && HasFloor(Next(s, step).calls[step.i], s.floor)
  {}

  lemma {:induction false} FloorOfCall(s: State, steps: seq<Step>, b: nat, n: nat, i: nat)
    requires b < n <= |steps| && After(s, steps, n).Some?
    requires After(s, steps, b + 1).Some? && steps[b].BeginCall? && steps[b].i == i && SameCall(steps, b + 1, n, i)
    ensures i < |After(s, steps, n).value.calls|
    ensures After(s, steps, b).Some? && HasFloor(After(s, steps, n).value.calls[i], After(s, steps, b).value.floor)
  {
    if n > b + 1 {
      FloorOfCall(s, steps, b, n - 1, i);
      StepKeepsFloor(After(s, steps, n - 1).value, steps[n - 1], i, After(s, steps, b).value.floor);
    } else {
      BeginSetsFloor(After(s, steps, b).value, steps[b]);
    }
  }

  /**
   * In every interleaving, a call that began at step `b` and has returned holds the evaluable rules of
   * one table, and that table is no older than any edit whose invalidation had returned by then.
   */
  lemma ReturnsFreshRules(s: State, steps: seq<Step>, b: nat, n: nat, i: nat)
    requires Start(s) && b < n <= |steps| && After(s, steps, n).Some?
    requires After(s, steps, b + 1).Some? && steps[b].BeginCall? && steps[b].i == i && SameCall(steps, b + 1, n, i)
    requires i < |After(s, steps, n).value.calls| && After(s, steps, n).value.calls[i].Returned?
    ensures After(s, steps, b).Some?
    ensures var t := After(s, steps, n).value;
            exists v :: InvalidatedVersion(s, steps, b) <= v < |t.tables| && t.calls[i].rules == Active(t.tables[v])
  {
    AlwaysInv(s, steps, n);
    FloorOfCall(s, steps, b, n, i);
    FloorIsInvalidatedVersion(s, steps, b);
    var t := After(s, steps, n).value;
    assert CallOk(t.calls[i], t.tables, t.cache.gen, t.floor);
  }

  // ---------- Loads overtaken by an invalidation ---------------------------------------

  ghost predicate InFlight(s: State, i: nat) {
    i < |s.calls| && (s.calls[i].Loading? || s.calls[i].Loaded?)
  }

  ghost predicate Overtaken(s: State, i: nat) {
    InFlight(s, i) && s.calls[i].gen < s.cache.gen
  }

  /** An invalidation overtakes every load under way. */
  lemma InvalidationOvertakes(s: State, h: nat, i: nat)
    requires Inv(s) && Enabled(s, Invalidate(h)) && InFlight(s, i)
    ensures Overtaken(Next(s, Invalidate(h)), i)
  {}

  /** An overtaken load stays overtaken until it ends, and its end leaves the cache alone. */
  lemma OvertakenNeverInstalled(s: State, step: Step, i: nat)
    requires Inv(s) && Enabled(s, step) && Overtaken(s, i)
    ensures Overtaken(Next(s, step), i) || Next(s, step).cache == s.cache
    ensures step.FinishCall? && step.i == i ==> Next(s, step).cache == s.cache && Next(s, step).cachedVersion == s.cachedVersion
  {}

  /** A call in flight that was not just begun was in flight before the step. */
  lemma InFlightBefore(s: State, step: Step, i: nat)
    requires Enabled(s, step) && InFlight(Next(s, step), i) && !(step.BeginCall? && step.i == i)
    ensures InFlight(s, i)
  {}

  lemma StepStaysOvertaken(s: State, step: Step, i: nat)
    requires Inv(s) && Enabled(s, step) && Overtaken(s, i) && InFlight(Next(s, step), i) && !(step.BeginCall? && step.i == i)
    ensures Overtaken(Next(s, step), i)
  {}

  /** A load that was under way when an invalidation ran is overtaken for as long as it lasts. */
  lemma {:induction false} StaysOvertaken(s: State, steps: seq<Step>, m: nat, n: nat, i: nat)
    requires Start(s) && m < n <= |steps| && After(s, steps, n).Some? && steps[m].Invalidate? && SameCall(steps, m, n, i)
    requires InFlight(After(s, steps, n).value, i)
    ensures Overtaken(After(s, steps, n).value, i)
  {
    var before, step := After(s, steps, n - 1).value, steps[n - 1];
    InFlightBefore(before, step, i);
    AlwaysInv(s, steps, n - 1);
    if n == m + 1 {
      InvalidationOvertakes(before, step.h, i);
    } else {
      StaysOvertaken(s, steps, m, n - 1, i);
      StepStaysOvertaken(before, step, i);
    }
  }

  /**
   * In every interleaving, a load that began before an invalidation is never installed: however many
   * steps later it ends, and whatever else happened since, its end leaves the cache alone.
   */
  lemma OvertakenLoadNeverInstalled(s: State, steps: seq<Step>, b: nat, m: nat, f: nat, i: nat)
    requires Start(s) && b < m < f < |steps| && After(s, steps, f + 1).Some?
    requires steps[b].BeginCall? && steps[b].i == i && SameCall(steps, b + 1, f, i)
    requires steps[m].Invalidate? && steps[f].FinishCall? && steps[f].i == i
    ensures After(s, steps, f).Some?
    ensures After(s, steps, f + 1).value.cache == After(s, steps, f).value.cache
    ensures After(s, steps, f + 1).value.cachedVersion == After(s, steps, f).value.cachedVersion
  {
    StaysOvertaken(s, steps, m, f, i);
    AlwaysInv(s, steps, f);
    OvertakenNeverInstalled(After(s, steps, f).value, steps[f], i);
  }
}
