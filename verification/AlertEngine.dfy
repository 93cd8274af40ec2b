/**
 * The alert state machine of one engine instance: idle, pending, firing or notified, resolved. What
 * the database, the suppression checks and other actors answer during an evaluation is a parameter
 * of that evaluation; the topology check is the walk of `Topology` over the device rows of the
 * moment, and states are read and written through the cache of `AlertStateCache`. Times are
 * microseconds, the resolution of the stored timestamps.
 */
module AlertEngine {
  import opened Basics
  import opened AlertConditions
  import C = AlertStateCache
  import PG = ParentGraph
  import T = Topology

  type Id = int
  type Pair = (Id, Id)

  const MICROS := 1_000_000

  datatype Status = Idle | Pending | Firing | Notified | Acknowledged | Resolved | OtherStatus

  datatype RuleState = RuleState(status: Status, firstMetAt: Option<int>, lastFiredAt: Option<int>, lastResolvedAt: Option<int>, activeAlert: Option<Id>)

  /** `device` is None for a rule that is not scoped to one device. */
  datatype Scope = OneDevice(device: Option<Id>) | Everywhere

  datatype Rule = Rule(id: Id, scope: Scope, conditions: seq<Condition>, all: bool, cooldownSec: int, autoResolve: bool)

  /** An insert that stored a row may still fail to read it back; it may also find a duplicate, or fail. */
  datatype CreateAnswer = Created(id: Id) | InsertedUnread(id: Id) | Duplicate | CreateFailed

  /** `fails` is the number of the database query at which the walk fails, if one does; the walk then answers all the same. */
  datatype TopologyCheck = NoTopologyCheck | TopologyFailed | TopologySays(fails: Option<nat>, result: T.SuppressionResult)

  datatype MaintenanceCheck = NoMaintenanceCheck | MaintenanceFailed | MaintenanceSays(under: bool, suppressAlerts: bool)

  /** `recorder`: there is a recorder of suppressed alerts, and it can write. */
  datatype Checks = Checks(topology: TopologyCheck, maintenance: MaintenanceCheck, recorder: bool)

  datatype Reason = ParentDown | MaintenanceWindow

  datatype SuppressedRow = SuppressedRow(device: Id, rule: Id, reason: Reason, rootCause: Option<Id>)

  /**
   * What cache and table answer when the state is read and written: whether the entry has expired since
   * the last evaluation, whether the lookup reaches the cache, whether the row can be read, whether the
   * fill reaches the cache, what the write answers, and whether the delete reaches the cache. Without a
   * cache none of them does. A crash is an evaluation whose later steps fail.
   */
  datatype StateIO = StateIO(expired: bool, lookup: bool, readOk: bool, fill: bool, write: C.WriteAnswer, delete: bool)

  /** One evaluation of a rule for a device; `active` and `refound` are what the two searches for an active alert return. */
  datatype Eval = Eval(
    rule: Rule, device: Id, inputs: Inputs, now: int, snapshotChanged: bool, io: StateIO,
    active: Option<Id>, checks: Checks, create: CreateAnswer, refound: Option<Id>, resolveOk: bool)

  /**
   * What an evaluation does: a state to write, a row inserted, an alert handed to the notifier, an
   * alert resolved, a suppressed alert recorded.
   */
  datatype Effect = Effect(
    written: Option<RuleState>, inserted: Option<Id>, handedOff: Option<Id>, autoResolved: Option<Id>, recorded: Option<SuppressedRow>)

  function IdleState(): RuleState {
    RuleState(Idle, None, None, None, None)
  }

  function Quiet(written: Option<RuleState>): Effect {
    Effect(written, None, None, None, None)
  }

  predicate RuleApplies(rule: Rule, device: Id) {
    match rule.scope
    case OneDevice(d) => d == Some(device)
    case Everywhere => true
  }

  // ---------- Sustained duration --------------------------------------------------------

  /** No condition's duration and not the cooldown is longer, and one of them is this long. */
  ghost predicate IsSustained(rule: Rule, d: int) {
    && d >= rule.cooldownSec
    && (forall i :: 0 <= i < |rule.conditions| ==> d >= rule.conditions[i].durationSeconds)
    && (d == rule.cooldownSec || exists i :: 0 <= i < |rule.conditions| && d == rule.conditions[i].durationSeconds)
  }

  function SustainedUpTo(rule: Rule, n: nat): int
    requires n <= |rule.conditions|
  {
    if n == 0 then rule.cooldownSec
    else
      var d := SustainedUpTo(rule, n - 1);
      if rule.conditions[n - 1].durationSeconds > d then rule.conditions[n - 1].durationSeconds else d
  }

  function Sustained(rule: Rule): int {
    SustainedUpTo(rule, |rule.conditions|)
  }

  lemma {:induction false} SustainedIsMax(rule: Rule, n: nat)
    requires n <= |rule.conditions|
    ensures SustainedUpTo(rule, n) >= rule.cooldownSec
    ensures forall i :: 0 <= i < n ==> SustainedUpTo(rule, n) >= rule.conditions[i].durationSeconds
    ensures SustainedUpTo(rule, n) == rule.cooldownSec || exists i :: 0 <= i < n && SustainedUpTo(rule, n) == rule.conditions[i].durationSeconds
  {
    if n > 0 { SustainedIsMax(rule, n - 1); }
  }

  method SustainedDuration(rule: Rule) returns (d: int)
    ensures d == Sustained(rule) && IsSustained(rule, d)
  {
    d := rule.cooldownSec;
    var i := 0;
    while i < |rule.conditions|
      invariant 0 <= i <= |rule.conditions| && d == SustainedUpTo(rule, i)
    {
      if rule.conditions[i].durationSeconds > d {
        d := rule.conditions[i].durationSeconds;
      }
      i := i + 1;
    }
    SustainedIsMax(rule, |rule.conditions|);
  }

  // ---------- Suppression -----------------------------------------------------------------

  predicate ParentIsDown(c: Checks) {
    c.topology.TopologySays? && c.topology.result.Suppressed?
  }

  predicate UnderMaintenance(c: Checks) {
    c.maintenance.MaintenanceSays? && c.maintenance.under && c.maintenance.suppressAlerts
  }

  predicate IsSuppressed(e: Eval) {
    ParentIsDown(e.checks) || UnderMaintenance(e.checks)
  }

  /** The row recorded for a suppressed firing: the topology speaks first. */
  function SuppressedRowOf(e: Eval): Option<SuppressedRow> {
    if !e.checks.recorder || !IsSuppressed(e) then None
    else if ParentIsDown(e.checks) then Some(SuppressedRow(e.device, e.rule.id, ParentDown, Some(e.checks.topology.result.rootCause)))
    else Some(SuppressedRow(e.device, e.rule.id, MaintenanceWindow, None))
  }

  /** What the topology check says, if it says anything, is the right answer on these device rows. */
  ghost predicate SaysRight(e: Eval, rows: T.Table) {
    e.checks.topology.TopologySays? ==> T.IsAnswer(T.Links(rows), T.DownSet(rows), e.device, e.checks.topology.fails, e.checks.topology.result)
  }

  // ---------- Transitions -----------------------------------------------------------------

  function Repointed(state: RuleState, alert: Id, now: int): RuleState {
    state.(status := Firing, lastFiredAt := Some(now), activeAlert := Some(alert))
  }

  function Fire(state: RuleState, e: Eval): Effect {
    if e.active.Some? then Quiet(Some(Repointed(state, e.active.value, e.now)))
    else if IsSuppressed(e) then Effect(Some(state.(status := Idle)), None, None, None, SuppressedRowOf(e))
    else match e.create
      case Created(id) => Effect(Some(RuleState(Notified, state.firstMetAt, Some(e.now), None, Some(id))), Some(id), Some(id), None, None)
      case InsertedUnread(id) => Effect(None, Some(id), None, None, None)
      case Duplicate => Quiet(if e.refound.Some? then Some(Repointed(state, e.refound.value, e.now)) else None)
      case CreateFailed => Quiet(None)
  }

  predicate SustainedLongEnough(state: RuleState, e: Eval) {
    state.firstMetAt.Some? && e.now - state.firstMetAt.value >= MICROS * Sustained(e.rule)
  }

  predicate CoolingDown(state: RuleState, e: Eval) {
    state.lastResolvedAt.Some? && MICROS * e.rule.cooldownSec - (e.now - state.lastResolvedAt.value) > 0
  }

  function ConditionMet(state: RuleState, e: Eval): Effect {
    match state.status
    case Idle => Quiet(Some(RuleState(Pending, Some(e.now), None, None, None)))
    case Pending =>
      if SustainedLongEnough(state, e) then Fire(state, e)
      else Quiet(if e.snapshotChanged then Some(state) else None)
    case Resolved => if CoolingDown(state, e) then Quiet(None) else Fire(state, e)
    case Firing => Quiet(Some(state))
    case Notified => Quiet(Some(state))
    case Acknowledged => Quiet(Some(state))
    case OtherStatus => Quiet(None)
  }

  predicate HasFired(s: Status) {
    s.Firing? || s.Notified? || s.Acknowledged?
  }

  function ConditionCleared(state: RuleState, e: Eval): Effect {
    if state.status.Pending? then Quiet(Some(IdleState()))
    else if !HasFired(state.status) then Quiet(None)
    else if !e.rule.autoResolve then Quiet(Some(state))
    else Effect(Some(RuleState(Resolved, None, None, Some(e.now), None)), None, None, if e.resolveOk then state.activeAlert else None, None)
  }

  ghost predicate IsTriggered(e: Eval) {
    Triggered(e.rule.conditions, e.rule.all, e.inputs)
  }

  /** What an evaluation does that has loaded `state`. */
  ghost function Outcome(state: RuleState, e: Eval): Effect {
    if IsTriggered(e) then ConditionMet(state, e) else ConditionCleared(state, e)
  }

  /**
   * What a clearing does, status by status. A fired state with auto-resolve becomes resolved now and resolves
   * exactly its own alert, if the update succeeds; without auto-resolve it is stored as it was; a pending one
   * starts over; any other status is left alone.
   */
  lemma ClearingTable(state: RuleState, e: Eval)
    requires !IsTriggered(e)
    ensures state.status.Firing? || state.status.Notified? || state.status.Acknowledged? ==>
              Outcome(state, e) == if e.rule.autoResolve
                then Effect(Some(RuleState(Resolved, None, None, Some(e.now), None)), None, None, if e.resolveOk then state.activeAlert else None, None)
                else Effect(Some(state), None, None, None, None)
    ensures state.status.Pending? ==> Outcome(state, e) == Effect(Some(RuleState(Idle, None, None, None, None)), None, None, None, None)
    ensures state.status.Idle? || state.status.Resolved? || state.status.OtherStatus? ==> Outcome(state, e) == Effect(None, None, None, None, None)
  {}

  /** Some duration of the rule, its cooldown among them, has not passed since the start; a pending state without a start never gets there. */
  ghost predicate StillWaits(state: RuleState, e: Eval) {
    state.firstMetAt.Some? ==>
      || e.now < state.firstMetAt.value + 1_000_000 * e.rule.cooldownSec
      || exists i :: 0 <= i < |e.rule.conditions| && e.now < state.firstMetAt.value + 1_000_000 * e.rule.conditions[i].durationSeconds
  }

  lemma WaitsIff(state: RuleState, e: Eval)
    ensures StillWaits(state, e) <==> !SustainedLongEnough(state, e)
  {
    SustainedIsMax(e.rule, |e.rule.conditions|);
  }

  /**
   * What a triggered evaluation does short of firing: idle becomes pending from now on, a pending state waits for
   * the longest duration and a resolved one for the cooldown, a fired one is stored as it was, an unknown one is left alone.
   */
  lemma TriggeredTable(state: RuleState, e: Eval)
    requires IsTriggered(e)
    ensures state.status.Idle? ==> Outcome(state, e) == Effect(Some(RuleState(Pending, Some(e.now), None, None, None)), None, None, None, None)
    ensures state.status.Pending? && StillWaits(state, e) ==>
              Outcome(state, e) == Effect(if e.snapshotChanged then Some(state) else None, None, None, None, None)
    ensures state.status.Resolved? && state.lastResolvedAt.Some? && e.now < state.lastResolvedAt.value + 1_000_000 * e.rule.cooldownSec ==>
              Outcome(state, e) == Effect(None, None, None, None, None)
    ensures state.status.Firing? || state.status.Notified? || state.status.Acknowledged? ==> Outcome(state, e) == Effect(Some(state), None, None, None, None)
    ensures state.status.OtherStatus? ==> Outcome(state, e) == Effect(None, None, None, None, None)
  {
    WaitsIff(state, e);
  }

  /** The waiting is over: a pending state has outlasted every duration, or a resolved one its cooldown. */
  ghost predicate IsDue(state: RuleState, e: Eval) {
    || (state.status.Pending? && !StillWaits(state, e))
    || (state.status.Resolved? && !(state.lastResolvedAt.Some? && e.now < state.lastResolvedAt.value + 1_000_000 * e.rule.cooldownSec))
  }

  /**
   * What firing does. An alert that is already active is taken over and nothing is sent; a suppressed firing goes
   * back to idle; a row that was stored and read back is handed off once and its state is notified and names it;
   * a row that could not be read back is stored and nothing else; a duplicate is taken over if it is found.
   */
  lemma FiringTable(state: RuleState, e: Eval)
    requires IsTriggered(e) && IsDue(state, e)
    ensures e.active.Some? ==>
              Outcome(state, e) == Effect(Some(RuleState(Firing, state.firstMetAt, Some(e.now), state.lastResolvedAt, e.active)), None, None, None, None)
    ensures e.active.None? && IsSuppressed(e) ==>
              Outcome(state, e) == Effect(Some(RuleState(Idle, state.firstMetAt, state.lastFiredAt, state.lastResolvedAt, state.activeAlert)), None, None, None, SuppressedRowOf(e))
    ensures e.active.None? && !IsSuppressed(e) ==>
              && (e.create.Created? ==>
                    Outcome(state, e) == Effect(Some(RuleState(Notified, state.firstMetAt, Some(e.now), None, Some(e.create.id))), Some(e.create.id), Some(e.create.id), None, None))
              && (e.create.InsertedUnread? ==> Outcome(state, e) == Effect(None, Some(e.create.id), None, None, None))
              && (e.create.Duplicate? ==>
                    Outcome(state, e) == Effect(
                      if e.refound.Some? then Some(RuleState(Firing, state.firstMetAt, Some(e.now), state.lastResolvedAt, e.refound)) else None,
                      None, None, None, None))
              && (e.create.CreateFailed? ==> Outcome(state, e) == Effect(None, None, None, None, None))
  {
    WaitsIff(state, e);
  }

  // ---------- The stored states ---------------------------------------------------------------

  type Store = C.Store<Pair, RuleState>

  /** Reading a state is the read of the cache protocol. */
  function ReadStore(s: Store, p: Pair, io: StateIO): (Store, Option<RuleState>) {
    var s0 := if io.expired then s.(cache := s.cache - {p}) else s;
    var lookup := C.WorkNext(s0, p, C.LookingUp, C.LookUp(io.lookup));
    if lookup.1.Answered? then (lookup.0, lookup.1.v)
    else
      var read := C.WorkNext(lookup.0, p, C.Missed, C.ReadTable(io.readOk));
      if read.1.Filling? then (C.WorkNext(read.0, p, read.1, C.Fill(io.fill)).0, read.1.v) else (read.0, None)
  }

  /** Writing one, if there is one to write, is its write. */
  function WriteStore(s: Store, p: Pair, v: Option<RuleState>, io: StateIO): Store {
    if v.None? then s
    else
      var write := C.WorkNext(s, p, C.Writing(v.value), C.WriteTable(io.write));
      if write.1.Deleting? then C.WorkNext(write.0, p, write.1, C.DeleteEntry(io.delete)).0 else write.0
  }

  function StateOr(read: Option<RuleState>): RuleState {
    if read.Some? then read.value else IdleState()
  }

  // ---------- The engine ----------------------------------------------------------------------

  function PairOf(e: Eval): Pair {
    (e.rule.id, e.device)
  }

  function Append<T>(s: seq<T>, x: Option<T>): seq<T> {
    if x.Some? then s + [x.value] else s
  }

  /** The stored states, and in order the rows inserted, the alerts handed to the notifier, those auto-resolved, and the suppressed ones recorded. */
  datatype Tables = Tables(store: Store, inserted: seq<Id>, handedOff: seq<Id>, autoResolved: seq<Id>, recorded: seq<SuppressedRow>)

  /** The tables after an effect of an evaluation; nothing else changes. */
  ghost function Performed(t: Tables, e: Eval, eff: Effect): Tables {
    Tables(WriteStore(t.store, PairOf(e), eff.written, e.io), Append(t.inserted, eff.inserted), Append(t.handedOff, eff.handedOff),
           Append(t.autoResolved, eff.autoResolved), Append(t.recorded, eff.recorded))
  }

  ghost function Evaluated(t: Tables, e: Eval): Tables {
    var read := ReadStore(t.store, PairOf(e), e.io);
    Performed(t.(store := read.0), e, Outcome(StateOr(read.1), e))
  }

  class Engine {
    var table: map<Pair, RuleState>
    var cache: map<Pair, RuleState>
    var inserted: seq<Id>
    var handedOff: seq<Id>
    var autoResolved: seq<Id>
    var recorded: seq<SuppressedRow>

    constructor (table: map<Pair, RuleState>, cache: map<Pair, RuleState>)
      ensures Now() == Tables(C.Store(table, cache), [], [], [], [])
    {
      this.table, this.cache := table, cache;
      inserted, handedOff, autoResolved, recorded := [], [], [], [];
    }

    ghost function Now(): Tables
      reads this
    {
      Tables(C.Store(table, cache), inserted, handedOff, autoResolved, recorded)
    }

    method GetAlertRuleState(p: Pair, io: StateIO) returns (state: Option<RuleState>)
      modifies this`cache
      ensures (C.Store(table, cache), state) == ReadStore(old(C.Store(table, cache)), p, io)
    {
      if io.expired {
        cache := cache - {p};
      }
      if io.lookup && p in cache {
        return Some(cache[p]);
      }
      if !io.readOk || p !in table {
        return None;
      }
      if io.fill {
        cache := cache[p := table[p]];
      }
      state := Some(table[p]);
    }

    method UpsertState(p: Pair, state: RuleState, io: StateIO)
      modifies this`table, this`cache
      ensures C.Store(table, cache) == WriteStore(old(C.Store(table, cache)), p, Some(state), io)
    {
      if !io.write.WriteFailed? {
        table := table[p := state];
      }
      if io.write.Written? {
        if io.delete {
          cache := cache - {p};
        }
      }
    }

    /** Evaluates one rule for one device. */
    method EvaluateRule(e: Eval, rows: T.Table)
      requires SaysRight(e, rows)
      modifies this
      ensures Now() == Evaluated(old(Now()), e)
    {
      var triggered := CountConditionsMet(e.rule.conditions, e.rule.all, e.inputs);
      var state := IdleState();
      var read := GetAlertRuleState(PairOf(e), e.io);
      if read.Some? {
        state := read.value;
      }
      if triggered {
        HandleConditionMet(e, state, rows);
      } else {
        HandleConditionCleared(e, state);
      }
    }

    method HandleConditionMet(e: Eval, state: RuleState, rows: T.Table)
      requires SaysRight(e, rows)
      modifies this
      ensures Now() == Performed(old(Now()), e, ConditionMet(state, e))
    {
      var sustained := SustainedDuration(e.rule);
      match state.status {
        case Idle =>
          UpsertState(PairOf(e), RuleState(Pending, Some(e.now), None, None, None), e.io);
        case Pending =>
          if state.firstMetAt.Some? {
            var elapsed := e.now - state.firstMetAt.value;
            if elapsed >= MICROS * sustained {
              FireAlert(e, state, rows);
              return;
            }
          }
          if e.snapshotChanged {
            UpsertState(PairOf(e), state, e.io);
          }
        case Resolved =>
          if state.lastResolvedAt.Some? {
            var cooldownLeft := MICROS * e.rule.cooldownSec - (e.now - state.lastResolvedAt.value);
            if cooldownLeft > 0 { return; }
          }
          FireAlert(e, state, rows);
        case Firing => UpsertState(PairOf(e), state, e.io);
        case Notified => UpsertState(PairOf(e), state, e.io);
        case Acknowledged => UpsertState(PairOf(e), state, e.io);
        case OtherStatus =>
      }
    }

    method HandleConditionCleared(e: Eval, state: RuleState)
      modifies this
      ensures Now() == Performed(old(Now()), e, ConditionCleared(state, e))
    {
      if state.status.Pending? {
        UpsertState(PairOf(e), IdleState(), e.io);
      } else if HasFired(state.status) {
        if !e.rule.autoResolve {
          UpsertState(PairOf(e), state, e.io);
          return;
        }
        if state.activeAlert.Some? && e.resolveOk {
          autoResolved := autoResolved + [state.activeAlert.value];
        }
        UpsertState(PairOf(e), RuleState(Resolved, None, None, Some(e.now), None), e.io);
      }
    }

    method FireAlert(e: Eval, state: RuleState, rows: T.Table)
      requires SaysRight(e, rows)
      modifies this
      ensures Now() == Performed(old(Now()), e, Fire(state, e))
    {
      if e.active.Some? {
        UpsertState(PairOf(e), state.(lastFiredAt := Some(e.now), activeAlert := e.active, status := Firing), e.io);
        return;
      }
      var suppressed := CheckSuppressionForDevice(e, rows);
      if suppressed {
        UpsertState(PairOf(e), state.(status := Idle), e.io);
        return;
      }
      match e.create {
        case Created(id) =>
          inserted := inserted + [id];
          handedOff := handedOff + [id];
          UpsertState(PairOf(e), RuleState(Notified, state.firstMetAt, Some(e.now), None, Some(id)), e.io);
        case InsertedUnread(id) =>
          inserted := inserted + [id];
        case Duplicate =>
          if e.refound.Some? {
            UpsertState(PairOf(e), state.(lastFiredAt := Some(e.now), activeAlert := e.refound, status := Firing), e.io);
          }
        case CreateFailed =>
      }
    }

    /** The gate in front of every firing: topology first, then maintenance; one row recorded for what suppresses. */
    method CheckSuppressionForDevice(e: Eval, rows: T.Table) returns (suppressed: bool)
      requires SaysRight(e, rows)
      modifies this`recorded
      ensures suppressed <==> IsSuppressed(e)
      ensures recorded == Append(old(recorded), SuppressedRowOf(e))
    {
      if e.checks.topology.TopologySays? {
        var result := T.CheckSuppression(rows, e.device, e.checks.topology.fails);
        T.AnswerIsUnique(T.Links(rows), T.DownSet(rows), e.device, e.checks.topology.fails, result, e.checks.topology.result);
        if result.Suppressed? {
          if e.checks.recorder { recorded := recorded + [SuppressedRow(e.device, e.rule.id, ParentDown, Some(result.rootCause))]; }
          return true;
        }
      }
      if e.checks.maintenance.MaintenanceSays? {
        if e.checks.maintenance.under && e.checks.maintenance.suppressAlerts {
          if e.checks.recorder { recorded := recorded + [SuppressedRow(e.device, e.rule.id, MaintenanceWindow, None)]; }
          return true;
        }
      }
      suppressed := false;
    }

    /** One metric: every rule that applies to the device is evaluated once, in order; `rows[i]` is the device table at that time. */
    method ProcessMetric(device: Id, evals: seq<Eval>, rows: seq<T.Table>)
      requires |rows| == |evals| && forall i :: 0 <= i < |evals| ==> evals[i].device == device && SaysRight(evals[i], rows[i])
      modifies this
      ensures Now() == Processed(old(Now()), evals, |evals|)
    {
      var i := 0;
      while i < |evals|
        invariant 0 <= i <= |evals|
        invariant Now() == Processed(old(Now()), evals, i)
      {
        if RuleApplies(evals[i].rule, device) {
          EvaluateRule(evals[i], rows[i]);
        }
        i := i + 1;
      }
    }
  }

  ghost function Processed(t: Tables, evals: seq<Eval>, n: nat): Tables
    requires n <= |evals|
  {
    if n == 0 then t
    else
      var before, e := Processed(t, evals, n - 1), evals[n - 1];
      if RuleApplies(e.rule, e.device) then Evaluated(before, e) else before
  }

  // ---------- One rule and device -------------------------------------------------------------

  /** What table and cache hold for one rule and device. */
  datatype Cell = Cell(row: Option<RuleState>, entry: Option<RuleState>)

  function CellAt(s: Store, p: Pair): Cell {
    Cell(C.Row(s.table, p), C.Row(s.cache, p))
  }

  function ReadCell(c: Cell, io: StateIO): (Cell, Option<RuleState>) {
    var entry := if io.expired then None else c.entry;
    if io.lookup && entry.Some? then (Cell(c.row, entry), entry)
    else if io.readOk && c.row.Some? then (Cell(c.row, if io.fill then c.row else entry), c.row)
    else (Cell(c.row, entry), None)
  }

  function WriteCell(c: Cell, v: Option<RuleState>, io: StateIO): Cell {
    if v.None? || io.write.WriteFailed? then c
    else Cell(v, if io.write.Written? && io.delete then None else c.entry)
  }

  function Loaded(c: Cell, e: Eval): RuleState {
    StateOr(ReadCell(c, e.io).1)
  }

  ghost function EffectOn(c: Cell, e: Eval): Effect {
    Outcome(Loaded(c, e), e)
  }

  /** The cell after an evaluation. */
  ghost function Round(c: Cell, e: Eval): Cell {
    WriteCell(ReadCell(c, e.io).0, EffectOn(c, e).written, e.io)
  }

  lemma ReadsCell(s: Store, p: Pair, io: StateIO, q: Pair)
    ensures ReadStore(s, p, io).1 == ReadCell(CellAt(s, p), io).1
    ensures CellAt(ReadStore(s, p, io).0, q) == if q == p then ReadCell(CellAt(s, p), io).0 else CellAt(s, q)
  {}

  lemma WritesCell(s: Store, p: Pair, v: Option<RuleState>, io: StateIO, q: Pair)
    ensures CellAt(WriteStore(s, p, v, io), q) == if q == p then WriteCell(CellAt(s, p), v, io) else CellAt(s, q)
  {}

  /** An evaluation does to its own rule and device what it does to their cell, and leaves every other cell alone. */
  lemma EvaluationIsRound(t: Tables, e: Eval, q: Pair)
    ensures CellAt(Evaluated(t, e).store, q) == if q == PairOf(e) then Round(CellAt(t.store, q), e) else CellAt(t.store, q)
    ensures Evaluated(t, e).inserted == Append(t.inserted, EffectOn(CellAt(t.store, PairOf(e)), e).inserted)
    ensures Evaluated(t, e).handedOff == Append(t.handedOff, EffectOn(CellAt(t.store, PairOf(e)), e).handedOff)
    ensures Evaluated(t, e).autoResolved == Append(t.autoResolved, EffectOn(CellAt(t.store, PairOf(e)), e).autoResolved)
    ensures Evaluated(t, e).recorded == Append(t.recorded, EffectOn(CellAt(t.store, PairOf(e)), e).recorded)
  {
    var read := ReadStore(t.store, PairOf(e), e.io);
    ReadsCell(t.store, PairOf(e), e.io, PairOf(e));
    ReadsCell(t.store, PairOf(e), e.io, q);
    WritesCell(read.0, PairOf(e), Outcome(StateOr(read.1), e).written, e.io, q);
  }

  /** The cell after those of the first `n` evaluations that are of rule and device `p`. */
  ghost function Rounds(c: Cell, evals: seq<Eval>, n: nat, p: Pair): Cell
    requires n <= |evals|
  {
    if n == 0 then c
    else
      var before, e := Rounds(c, evals, n - 1, p), evals[n - 1];
      if RuleApplies(e.rule, e.device) && PairOf(e) == p then Round(before, e) else before
  }

  /** What processing does to a rule and device depends on its own cell and its own evaluations alone. */
  lemma {:induction false} RulesAreIndependent(t: Tables, evals: seq<Eval>, n: nat, p: Pair)
    requires n <= |evals|
    ensures CellAt(Processed(t, evals, n).store, p) == Rounds(CellAt(t.store, p), evals, n, p)
  {
    if n > 0 {
      RulesAreIndependent(t, evals, n - 1, p);
      EvaluationIsRound(Processed(t, evals, n - 1), evals[n - 1], p);
    }
  }

  /** A rule scoped to another device, or to one that is gone, is skipped; any other rule is evaluated. */
  lemma OtherDevicesAreSkipped(t: Tables, evals: seq<Eval>, n: nat)
    requires n < |evals|
    ensures var before, after, e := Processed(t, evals, n), Processed(t, evals, n + 1), evals[n];
            after == if e.rule.scope.OneDevice? && e.rule.scope.device != Some(e.device) then before else Evaluated(before, e)
  {}

  // ---------- Suppression and topology --------------------------------------------------------------

  /** The walk of the topology check meets a device that is down before a query fails. */
  ghost predicate WalkMeetsDown(e: Eval, rows: T.Table) {
    e.checks.topology.TopologySays? && T.MeetsDown(T.Links(rows), T.DownSet(rows), e.device, e.checks.topology.fails)
  }

  /**
   * The gate in terms of the outage report: a firing is suppressed exactly under maintenance or when the
   * walk meets a device that is down before a query fails; when none fails, that is exactly below a root
   * cause or below a cycle of devices that are all down.
   */
  lemma SuppressedIff(e: Eval, rows: T.Table)
    requires SaysRight(e, rows) && e.checks.topology.TopologySays?
    ensures IsSuppressed(e) <==>
              || (e.checks.maintenance.MaintenanceSays? && e.checks.maintenance.under && e.checks.maintenance.suppressAlerts)
              || WalkMeetsDown(e, rows)
    ensures var g, down := T.Links(rows), T.DownSet(rows);
            e.checks.topology.fails.None? ==>
              (WalkMeetsDown(e, rows) <==> T.DownForever(g, down, e.device)
                                           || exists r :: T.RootCause(g, down, r) && PG.ProperlyBelow(g, e.device, r))
  {
    T.SuppressedIffUnderRootCause(T.Links(rows), T.DownSet(rows), e.device);
  }

  /** The row recorded names this device and rule, and the nearest ancestor that is down when the walk met one. */
  lemma RecordedNamesNearestDown(e: Eval, rows: T.Table)
    requires SaysRight(e, rows) && IsSuppressed(e)
    ensures !e.checks.recorder ==> SuppressedRowOf(e).None?
    ensures e.checks.recorder && !WalkMeetsDown(e, rows) ==> SuppressedRowOf(e) == Some(SuppressedRow(e.device, e.rule.id, MaintenanceWindow, None))
    ensures e.checks.recorder && WalkMeetsDown(e, rows) ==> exists k: nat, r ::
              && T.NearestDown(T.Links(rows), T.DownSet(rows), e.device, k) && PG.Up(T.Links(rows), e.device, k) == Some(r)
              && SuppressedRowOf(e) == Some(SuppressedRow(e.device, e.rule.id, ParentDown, Some(r)))
  {}

  lemma SuppressedIsQuiet(t: Tables, e: Eval)
    requires IsSuppressed(e)
    ensures Evaluated(t, e).inserted == t.inserted && Evaluated(t, e).handedOff == t.handedOff
  {}

  lemma {:induction false} SuppressedMetricIsQuiet(t: Tables, evals: seq<Eval>, n: nat)
    requires n <= |evals| && forall i {:trigger IsSuppressed(evals[i])} :: 0 <= i < |evals| ==> IsSuppressed(evals[i])
    ensures Processed(t, evals, n).inserted == t.inserted && Processed(t, evals, n).handedOff == t.handedOff
  {
    if n > 0 {
      SuppressedMetricIsQuiet(t, evals, n - 1);
      assert IsSuppressed(evals[n - 1]);
      SuppressedIsQuiet(Processed(t, evals, n - 1), evals[n - 1]);
    }
  }

  /** A metric whose walks each meet a device that is down before a query fails creates no alert and hands none to the notifier. */
  lemma NoAlertUnderDownAncestor(t: Tables, evals: seq<Eval>, rows: seq<T.Table>)
    requires |rows| == |evals| && forall i :: 0 <= i < |evals| ==> SaysRight(evals[i], rows[i]) && WalkMeetsDown(evals[i], rows[i])
    ensures Processed(t, evals, |evals|).inserted == t.inserted && Processed(t, evals, |evals|).handedOff == t.handedOff
  {
    forall i | 0 <= i < |evals| ensures IsSuppressed(evals[i]) {
      assert SaysRight(evals[i], rows[i]) && WalkMeetsDown(evals[i], rows[i]);
    }
    SuppressedMetricIsQuiet(t, evals, |evals|);
  }
}
