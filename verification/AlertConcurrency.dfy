/**
 * Evaluations on several engine instances, absence checks and operators, interleaved step by step
 * over the alert table and its partial unique index. A state read may return any row that was ever
 * written for the pair, or nothing.
 */
module AlertConcurrency {
  import opened Basics
  import AE = AlertEngine

  type Id = AE.Id
  type Pair = AE.Pair
  type RuleState = AE.RuleState

  datatype AlertStatus = Active | AcknowledgedAlert | ResolvedAlert | OtherAlertStatus

  datatype Alert = Alert(pair: Pair, status: AlertStatus)

  /**
   * `origin` remembers for which pair each row was inserted, deleted rows included; `written` lists
   * every state row ever stored.
   */
  datatype Db = Db(alerts: map<Id, Alert>, nextId: Id, origin: map<Id, Pair>, written: seq<(Pair, RuleState)>)

  /** Where an evaluation or an absence check stands. `fire` is the loaded state and the time; None for an absence check. */
  datatype Pc =
    | Ready
    | Searching(pair: Pair, fire: Option<(RuleState, int)>)
    | Gating(pair: Pair, fire: Option<(RuleState, int)>)
    | Inserting(pair: Pair, fire: Option<(RuleState, int)>)
    | Rereading(pair: Pair, fire: Option<(RuleState, int)>, id: Id)
    | HandingOff(pair: Pair, fire: Option<(RuleState, int)>, id: Id)
    | Refinding(pair: Pair, state: RuleState, now: int)
    | Resolving(pair: Pair, alert: Option<Id>, next: RuleState)
    | Writing(pair: Pair, next: RuleState)

  datatype Action =
    | BeginEval(pair: Pair, state: RuleState, e: AE.Eval)
    | BeginAbsence(pair: Pair)
    | Search(found: Option<Id>)
    | Gate(suppressed: bool)
    | Insert(ok: bool)
    | Reread(ok: bool)
    | HandOff
    | Refind(found: Option<Id>)
    | Resolve(ok: bool)
    | Write
    | Crash

  ghost predicate HasActive(alerts: map<Id, Alert>, pair: Pair) {
    exists id :: id in alerts && alerts[id] == Alert(pair, Active)
  }

  /** A search that finds an alert finds an active one of the pair; one that finds none may have failed. */
  predicate Finds(alerts: map<Id, Alert>, pair: Pair, found: Option<Id>) {
    found.Some? ==> found.value in alerts && alerts[found.value] == Alert(pair, Active)
  }

  ghost predicate ActionEnabled(db: Db, pc: Pc, a: Action) {
    match a
    case BeginEval(pair, state, _) => pc.Ready? && (state == AE.IdleState() || (pair, state) in db.written)
    case BeginAbsence(_) => pc.Ready?
    case Search(found) => pc.Searching? && Finds(db.alerts, pc.pair, found)
    case Gate(_) => pc.Gating?
    case Insert(_) => pc.Inserting?
    case Reread(_) => pc.Rereading?
    case HandOff => pc.HandingOff?
    case Refind(found) => pc.Refinding? && Finds(db.alerts, pc.pair, found)
    case Resolve(_) => pc.Resolving?
    case Write => pc.Writing?
    case Crash => true
  }

  /** How an evaluation goes on from the state it loaded: the branches of the sequential engine. */
  ghost function EvalBranch(pair: Pair, state: RuleState, e: AE.Eval): Pc {
    if AE.IsTriggered(e) then
      match state.status
      case Idle => Writing(pair, AE.RuleState(AE.Pending, Some(e.now), None, None, None))
      case Pending =>
        if AE.SustainedLongEnough(state, e) then Searching(pair, Some((state, e.now)))
        else if e.snapshotChanged then Writing(pair, state)
        else Ready
      case Resolved => if AE.CoolingDown(state, e) then Ready else Searching(pair, Some((state, e.now)))
      case OtherStatus => Ready
      case _ => Writing(pair, state)
    else if state.status.Pending? then Writing(pair, AE.IdleState())
    else if !AE.HasFired(state.status) then Ready
    else if !e.rule.autoResolve then Writing(pair, state)
    else Resolving(pair, state.activeAlert, AE.RuleState(AE.Resolved, None, None, Some(e.now), None))
  }

  function WithStatus(alerts: map<Id, Alert>, id: Id, status: AlertStatus): map<Id, Alert> {
    if id in alerts then alerts[id := alerts[id].(status := status)] else alerts
  }

  ghost function DbAfter(db: Db, pc: Pc, a: Action): Db
    requires ActionEnabled(db, pc, a)
  {
    match a
    case Insert(ok) =>
      if !ok || HasActive(db.alerts, pc.pair) then db
      else db.(alerts := db.alerts[db.nextId := Alert(pc.pair, Active)], nextId := db.nextId + 1, origin := db.origin[db.nextId := pc.pair])
    case Resolve(ok) => if ok && pc.alert.Some? then db.(alerts := WithStatus(db.alerts, pc.alert.value, ResolvedAlert)) else db
    case Write => db.(written := db.written + [(pc.pair, pc.next)])
    case _ => db
  }

  ghost function PcAfter(db: Db, pc: Pc, a: Action): Pc
    requires ActionEnabled(db, pc, a)
  {
    match a
    case BeginEval(pair, state, e) => EvalBranch(pair, state, e)
    case BeginAbsence(pair) => Searching(pair, None)
    case Search(found) =>
      if found.None? then Gating(pc.pair, pc.fire)
      else if pc.fire.None? then Ready
      else Writing(pc.pair, AE.Repointed(pc.fire.value.0, found.value, pc.fire.value.1))
    case Gate(suppressed) =>
      if !suppressed then Inserting(pc.pair, pc.fire)
      else if pc.fire.None? then Ready
      else Writing(pc.pair, pc.fire.value.0.(status := AE.Idle))
    case Insert(ok) =>
      if !ok then Ready
      else if !HasActive(db.alerts, pc.pair) then Rereading(pc.pair, pc.fire, db.nextId)
      else if pc.fire.None? then Ready
      else Refinding(pc.pair, pc.fire.value.0, pc.fire.value.1)
    case Reread(ok) => if ok then HandingOff(pc.pair, pc.fire, pc.id) else Ready
    case HandOff =>
      if pc.fire.None? then Ready
      else Writing(pc.pair, AE.RuleState(AE.Notified, pc.fire.value.0.firstMetAt, Some(pc.fire.value.1), None, Some(pc.id)))
    case Refind(found) => if found.None? then Ready else Writing(pc.pair, AE.Repointed(pc.state, found.value, pc.now))
    case Resolve(_) => Writing(pc.pair, pc.next)
    case Write => Ready
    case Crash => Ready
  }

  /** The row this process inserted and still has to hand off. */
  function InFlight(pc: Pc): Option<Id> {
    if pc.Rereading? || pc.HandingOff? then Some(pc.id) else None
  }

  function HandedBy(pc: Pc, a: Action): Option<Id> {
    if a.HandOff? && pc.HandingOff? then Some(pc.id) else None
  }

  /** A row whose read-back failed, or whose process died before the hand-off. */
  function AbandonedBy(pc: Pc, a: Action): Option<Id> {
    if (a.Reread? && !a.ok) || a.Crash? then InFlight(pc) else None
  }

  datatype State = State(db: Db, procs: seq<Pc>, handed: seq<Id>, abandoned: seq<Id>)

  /** A process acts, or an operator changes a status or deletes a row. */
  datatype Step = Act(i: nat, a: Action) | SetStatus(id: Id, status: AlertStatus) | Delete(id: Id)

  /** The unique index refuses a second active row for a pair. */
  ghost predicate IndexAllows(alerts: map<Id, Alert>, id: Id, status: AlertStatus) {
    id in alerts && status.Active? ==> forall o :: o in alerts && o != id ==> alerts[o] != Alert(alerts[id].pair, Active)
  }

  ghost predicate Enabled(s: State, step: Step) {
    match step
    case Act(i, a) => i < |s.procs| && ActionEnabled(s.db, s.procs[i], a)
    case SetStatus(id, status) => IndexAllows(s.db.alerts, id, status)
    case Delete(_) => true
  }

  ghost function Next(s: State, step: Step): State
    requires Enabled(s, step)
  {
    match step
    case Act(i, a) =>
      var pc := s.procs[i];
      State(DbAfter(s.db, pc, a), s.procs[i := PcAfter(s.db, pc, a)],
            AE.Append(s.handed, HandedBy(pc, a)), AE.Append(s.abandoned, AbandonedBy(pc, a)))
    case SetStatus(id, status) => s.(db := s.db.(alerts := WithStatus(s.db.alerts, id, status)))
    case Delete(id) => s.(db := s.db.(alerts := s.db.alerts - {id}))
  }

  // ---------- The alert table -----------------------------------------------------------

  ghost predicate SamePair(alerts: map<Id, Alert>, a: Id, b: Id)
    requires a in alerts && b in alerts
  {
    alerts[a].status.Active? && alerts[b].status.Active? && alerts[a].pair == alerts[b].pair
  }

  ghost predicate OneActive(alerts: map<Id, Alert>) {
    forall a, b {:trigger SamePair(alerts, a, b)} :: a in alerts && b in alerts && SamePair(alerts, a, b) ==> a == b
  }

  ghost predicate RowOk(db: Db, id: Id)
    requires id in db.alerts
  {
    id in db.origin && db.origin[id] == db.alerts[id].pair
  }

  ghost predicate TableOk(db: Db) {
    && OneActive(db.alerts)
    && (forall id {:trigger RowOk(db, id)} :: id in db.alerts ==> RowOk(db, id))
    && (forall id :: id in db.origin ==> id < db.nextId)
  }

  lemma InsertKeepsTable(db: Db, pair: Pair)
    requires TableOk(db) && !HasActive(db.alerts, pair)
    ensures TableOk(db.(alerts := db.alerts[db.nextId := Alert(pair, Active)], nextId := db.nextId + 1, origin := db.origin[db.nextId := pair]))
  {
    var after := db.(alerts := db.alerts[db.nextId := Alert(pair, Active)], nextId := db.nextId + 1, origin := db.origin[db.nextId := pair]);
    forall a, b | a in after.alerts && b in after.alerts && SamePair(after.alerts, a, b) ensures a == b {
      if a in db.alerts && b in db.alerts {
        assert RowOk(db, a) && RowOk(db, b);
        assert SamePair(db.alerts, a, b) || a == db.nextId || b == db.nextId;
      }
    }
    forall id | id in after.alerts ensures RowOk(after, id) {
      if id in db.alerts { assert RowOk(db, id); }
    }
  }

  lemma StatusKeepsTable(db: Db, id: Id, status: AlertStatus)
    requires TableOk(db) && IndexAllows(db.alerts, id, status)
    ensures TableOk(db.(alerts := WithStatus(db.alerts, id, status)))
  {
    var after := db.(alerts := WithStatus(db.alerts, id, status));
    forall a, b | a in after.alerts && b in after.alerts && SamePair(after.alerts, a, b) ensures a == b {
      if a != id && b != id { assert SamePair(db.alerts, a, b); }
    }
    forall k | k in after.alerts ensures RowOk(after, k) { assert RowOk(db, k); }
  }

  lemma DeleteKeepsTable(db: Db, id: Id)
    requires TableOk(db)
    ensures TableOk(db.(alerts := db.alerts - {id}))
  {
    var after := db.(alerts := db.alerts - {id});
    forall a, b | a in after.alerts && b in after.alerts && SamePair(after.alerts, a, b) ensures a == b {
      assert SamePair(db.alerts, a, b);
    }
    forall k | k in after.alerts ensures RowOk(after, k) { assert RowOk(db, k); }
  }

  // ---------- States name their own alerts -------------------------------------------------

  function CreatedFor(origin: map<Id, Pair>, id: Id): Option<Pair> {
    if id in origin then Some(origin[id]) else None
  }

  /** A fired state names an alert, and an alert named by a state was created for the same pair. */
  ghost predicate NamesOwn(origin: map<Id, Pair>, pair: Pair, s: RuleState) {
    && (AE.HasFired(s.status) ==> s.activeAlert.Some?)
    && (s.activeAlert.Some? ==> CreatedFor(origin, s.activeAlert.value) == Some(pair))
  }

  /** The state a process carries, with its pair. */
  ghost function Carried(pc: Pc): Option<(Pair, RuleState)> {
    match pc
    case Searching(pair, fire) => if fire.Some? then Some((pair, fire.value.0)) else None
    case Gating(pair, fire) => if fire.Some? then Some((pair, fire.value.0)) else None
    case Inserting(pair, fire) => if fire.Some? then Some((pair, fire.value.0)) else None
    case Refinding(pair, state, _) => Some((pair, state))
    case Resolving(pair, _, next) => Some((pair, next))
    case Writing(pair, next) => Some((pair, next))
    case _ => None
  }

  ghost predicate PcOk(db: Db, pc: Pc) {
    && (Carried(pc).Some? ==> NamesOwn(db.origin, Carried(pc).value.0, Carried(pc).value.1))
    && (InFlight(pc).Some? ==> CreatedFor(db.origin, InFlight(pc).value) == Some(pc.pair))
  }

  ghost predicate WrittenOk(db: Db, k: nat)
    requires k < |db.written|
  {
    NamesOwn(db.origin, db.written[k].0, db.written[k].1)
  }

  ghost predicate AllWrittenOk(db: Db) {
    forall k {:trigger WrittenOk(db, k)} :: 0 <= k < |db.written| ==> WrittenOk(db, k)
  }

  /** Rows are never forgotten by `origin`. */
  ghost predicate Grows(a: Db, b: Db) {
    forall id {:trigger Kept(a, b, id)} :: Kept(a, b, id)
  }

  ghost predicate Kept(a: Db, b: Db, id: Id) {
    id in a.origin ==> id in b.origin && b.origin[id] == a.origin[id]
  }

  lemma NamesStay(a: Db, b: Db, pair: Pair, s: RuleState)
    requires NamesOwn(a.origin, pair, s) && Grows(a, b)
    ensures NamesOwn(b.origin, pair, s)
  {
    assert s.activeAlert.Some? ==> Kept(a, b, s.activeAlert.value);
  }

  lemma OriginGrows(db: Db, pc: Pc, a: Action)
    requires TableOk(db) && ActionEnabled(db, pc, a)
    ensures Grows(db, DbAfter(db, pc, a))
  {}

  lemma PcStays(a: Db, b: Db, pc: Pc)
    requires PcOk(a, pc) && Grows(a, b)
    ensures PcOk(b, pc)
  {
    if Carried(pc).Some? { NamesStay(a, b, Carried(pc).value.0, Carried(pc).value.1); }
    if InFlight(pc).Some? { assert Kept(a, b, InFlight(pc).value); }
  }

  lemma ActKeepsPc(db: Db, pc: Pc, a: Action)
    requires TableOk(db) && AllWrittenOk(db) && PcOk(db, pc) && ActionEnabled(db, pc, a)
    ensures PcOk(DbAfter(db, pc, a), PcAfter(db, pc, a))
  {
    match a
    case BeginEval(pair, state, e) =>
      if state != AE.IdleState() {
        var k :| 0 <= k < |db.written| && db.written[k] == (pair, state);
        assert WrittenOk(db, k);
      }
    case Search(found) => if found.Some? { assert RowOk(db, found.value); }
    case Refind(found) => if found.Some? { assert RowOk(db, found.value); }
    case _ =>
  }

  lemma ActKeepsTable(db: Db, pc: Pc, a: Action)
    requires TableOk(db) && ActionEnabled(db, pc, a)
    ensures TableOk(DbAfter(db, pc, a))
  {
    match a
    case Insert(ok) => if ok && !HasActive(db.alerts, pc.pair) { InsertKeepsTable(db, pc.pair); }
    case Resolve(ok) => if ok && pc.alert.Some? { StatusKeepsTable(db, pc.alert.value, ResolvedAlert); }
    case Write =>
      forall id | id in db.alerts ensures RowOk(DbAfter(db, pc, a), id) { assert RowOk(db, id); }
    case _ =>
  }

  lemma ActKeepsWritten(db: Db, pc: Pc, a: Action)
    requires TableOk(db) && AllWrittenOk(db) && PcOk(db, pc) && ActionEnabled(db, pc, a)
    ensures AllWrittenOk(DbAfter(db, pc, a))
  {
    OriginGrows(db, pc, a);
    var after := DbAfter(db, pc, a);
    forall k | 0 <= k < |after.written| ensures WrittenOk(after, k) {
      if k < |db.written| {
        assert WrittenOk(db, k);
        NamesStay(db, after, db.written[k].0, db.written[k].1);
      }
    }
  }

  // ---------- One hand-off per row -----------------------------------------------------------

  /** How many of the first `n` processes still have to hand off `id`. */
  ghost function FlightOf(procs: seq<Pc>, n: nat, id: Id): nat
    requires n <= |procs|
  {
    if n == 0 then 0 else FlightOf(procs, n - 1, id) + if InFlight(procs[n - 1]) == Some(id) then 1 else 0
  }

  lemma {:induction false} FlightUpdate(procs: seq<Pc>, n: nat, i: nat, pc: Pc, id: Id)
    requires n <= |procs| && i < |procs|
    ensures FlightOf(procs[i := pc], n, id) + (if i < n && InFlight(procs[i]) == Some(id) then 1 else 0)
         == FlightOf(procs, n, id) + (if i < n && InFlight(pc) == Some(id) then 1 else 0)
  {
    if n > 0 { FlightUpdate(procs, n - 1, i, pc, id); }
  }

  /** Every row is handed off once, or abandoned once, or still in one process's hands. */
  ghost predicate Accounted(s: State, id: Id) {
    Count(s.handed, id) + Count(s.abandoned, id) + FlightOf(s.procs, |s.procs|, id) == if id in s.db.origin then 1 else 0
  }

  lemma AppendCount(s: seq<Id>, x: Option<Id>, id: Id)
    ensures Count(AE.Append(s, x), id) == Count(s, id) + if x == Some(id) then 1 else 0
  {}

  lemma ActAccounts(s: State, i: nat, a: Action, id: Id)
    requires TableOk(s.db) && Enabled(s, Act(i, a)) && Accounted(s, id)
    ensures Accounted(Next(s, Act(i, a)), id)
  {
    var pc := s.procs[i];
    FlightUpdate(s.procs, |s.procs|, i, PcAfter(s.db, pc, a), id);
    AppendCount(s.handed, HandedBy(pc, a), id);
    AppendCount(s.abandoned, AbandonedBy(pc, a), id);
    FlightMoves(s.db, pc, a, id);
  }

  /** A row in flight stays there, is handed off or is abandoned; a row enters flight when it is inserted. */
  lemma FlightMoves(db: Db, pc: Pc, a: Action, id: Id)
    requires TableOk(db) && ActionEnabled(db, pc, a)
    ensures var before, after := if InFlight(pc) == Some(id) then 1 else 0, if InFlight(PcAfter(db, pc, a)) == Some(id) then 1 else 0;
            var handed, abandoned := if HandedBy(pc, a) == Some(id) then 1 else 0, if AbandonedBy(pc, a) == Some(id) then 1 else 0;
            var entered := if id in DbAfter(db, pc, a).origin && id !in db.origin then 1 else 0;
            after + handed + abandoned == before + entered
    ensures id in db.origin ==> id in DbAfter(db, pc, a).origin
  {}

  // ---------- Every interleaving --------------------------------------------------------------

  ghost predicate ProcOk(s: State, i: nat)
    requires i < |s.procs|
  {
    PcOk(s.db, s.procs[i])
  }

  ghost predicate Inv(s: State) {
    && TableOk(s.db) && AllWrittenOk(s.db)
    && (forall i {:trigger ProcOk(s, i)} :: 0 <= i < |s.procs| ==> ProcOk(s, i))
    && (forall id {:trigger Accounted(s, id)} :: Accounted(s, id))
  }

  lemma DbKeeps(s: State, step: Step)
    requires Inv(s) && Enabled(s, step)
    ensures TableOk(Next(s, step).db) && AllWrittenOk(Next(s, step).db) && Grows(s.db, Next(s, step).db)
  {
    match step
    case Act(i, a) =>
      assert ProcOk(s, i);
      ActKeepsTable(s.db, s.procs[i], a);
      ActKeepsWritten(s.db, s.procs[i], a);
      OriginGrows(s.db, s.procs[i], a);
    case SetStatus(id, status) =>
      StatusKeepsTable(s.db, id, status);
      forall k | 0 <= k < |s.db.written| ensures WrittenOk(Next(s, step).db, k) { assert WrittenOk(s.db, k); }
    case Delete(id) =>
      DeleteKeepsTable(s.db, id);
      forall k | 0 <= k < |s.db.written| ensures WrittenOk(Next(s, step).db, k) { assert WrittenOk(s.db, k); }
  }

  lemma StepKeeps(s: State, step: Step)
    requires Inv(s) && Enabled(s, step)
    ensures Inv(Next(s, step))
  {
    var t := Next(s, step);
    DbKeeps(s, step);
    forall j | 0 <= j < |t.procs| ensures ProcOk(t, j) {
      assert ProcOk(s, j);
      if step.Act? && j == step.i {
        ActKeepsPc(s.db, s.procs[j], step.a);
      } else {
        PcStays(s.db, t.db, s.procs[j]);
      }
    }
    forall id ensures Accounted(t, id) {
      assert Accounted(s, id);
      if step.Act? { ActAccounts(s, step.i, step.a, id); }
    }
  }

  function Start(processes: nat): State {
    State(Db(map[], 1, map[], []), seq(processes, _ => Ready), [], [])
  }

  ghost function After(processes: nat, steps: seq<Step>, n: nat): Option<State>
    requires n <= |steps|
  {
    if n == 0 then Some(Start(processes))
    else
      var before := After(processes, steps, n - 1);
      if before.None? || !Enabled(before.value, steps[n - 1]) then None else Some(Next(before.value, steps[n - 1]))
  }

  lemma {:induction false} NoneInFlight(procs: seq<Pc>, n: nat, id: Id)
    requires n <= |procs| && forall i :: 0 <= i < |procs| ==> procs[i].Ready?
    ensures FlightOf(procs, n, id) == 0
  {
    if n > 0 { NoneInFlight(procs, n - 1, id); }
  }

  lemma {:induction false} AlwaysInv(processes: nat, steps: seq<Step>, n: nat)
    requires n <= |steps| && After(processes, steps, n).Some?
    ensures Inv(After(processes, steps, n).value)
  {
    if n == 0 {
      var s := Start(processes);
      forall id ensures Accounted(s, id) { NoneInFlight(s.procs, |s.procs|, id); }
    } else {
      AlwaysInv(processes, steps, n - 1);
      StepKeeps(After(processes, steps, n - 1).value, steps[n - 1]);
    }
  }

  /** In every interleaving at most one alert of a rule and device is active. */
  lemma {:induction false} OneActivePerPair(processes: nat, steps: seq<Step>, n: nat, a: Id, b: Id)
    requires n <= |steps| && After(processes, steps, n).Some?
    ensures var alerts := After(processes, steps, n).value.db.alerts;
            a in alerts && b in alerts && alerts[a].status.Active? && alerts[b].status.Active? && alerts[a].pair == alerts[b].pair ==> a == b
  {
    AlwaysInv(processes, steps, n);
    var alerts := After(processes, steps, n).value.db.alerts;
    assert a in alerts && b in alerts ==> (SamePair(alerts, a, b) ==> a == b);
  }

  /**
   * Once nothing is in flight, every inserted row was handed to the notifier exactly once, except the
   * rows abandoned by a failed read-back or a crash, which never were; a duplicate hands off nothing.
   */
  lemma OneHandOffPerRow(processes: nat, steps: seq<Step>, n: nat, id: Id)
    requires n <= |steps| && After(processes, steps, n).Some?
    requires forall i :: 0 <= i < |After(processes, steps, n).value.procs| ==> InFlight(After(processes, steps, n).value.procs[i]) != Some(id)
    ensures var s := After(processes, steps, n).value;
            && (id in s.db.origin ==> (Count(s.handed, id) == 1 <==> id !in s.abandoned) && Count(s.handed, id) <= 1)
            && (id !in s.db.origin ==> Count(s.handed, id) == 0)
  {
    AlwaysInv(processes, steps, n);
    var s := After(processes, steps, n).value;
    assert Accounted(s, id);
    NotInFlight(s.procs, |s.procs|, id);
    CountZero(s.abandoned, id);
  }

  lemma {:induction false} NotInFlight(procs: seq<Pc>, n: nat, id: Id)
    requires n <= |procs| && forall i :: 0 <= i < |procs| ==> InFlight(procs[i]) != Some(id)
    ensures FlightOf(procs, n, id) == 0
  {
    if n > 0 { NotInFlight(procs, n - 1, id); }
  }

  /** A row is handed off at most once, at every moment. */
  lemma NeverTwice(processes: nat, steps: seq<Step>, n: nat, id: Id)
    requires n <= |steps| && After(processes, steps, n).Some?
    ensures Count(After(processes, steps, n).value.handed, id) <= 1
  {
    AlwaysInv(processes, steps, n);
    assert Accounted(After(processes, steps, n).value, id);
  }

  /** Every firing, notified or acknowledged state ever stored names an alert that was created for that same pair. */
  lemma FiredStatesNameOwnAlert(processes: nat, steps: seq<Step>, n: nat, k: nat)
    requires n <= |steps| && After(processes, steps, n).Some?
    ensures var db := After(processes, steps, n).value.db;
            k < |db.written| && (db.written[k].1.status.Firing? || db.written[k].1.status.Notified? || db.written[k].1.status.Acknowledged?) ==>
              && db.written[k].1.activeAlert.Some?
              && db.written[k].1.activeAlert.value in db.origin
              && db.origin[db.written[k].1.activeAlert.value] == db.written[k].0
  {
    AlwaysInv(processes, steps, n);
    var db := After(processes, steps, n).value.db;
    if k < |db.written| { assert WrittenOk(db, k); }
  }

  // ---------- Without interleaving it is the sequential engine -----------------------------------

  function Rank(pc: Pc): nat {
    match pc
    case Ready => 0
    case Writing(_, _) => 1
    case Resolving(_, _, _) => 2
    case Refinding(_, _, _) => 2
    case HandingOff(_, _, _) => 2
    case Rereading(_, _, _) => 3
    case Inserting(_, _) => 4
    case Gating(_, _) => 5
    case Searching(_, _) => 6
  }

  /** The step an evaluation takes next, with the answers the evaluation is given. */
  function NextAction(pc: Pc, e: AE.Eval): Action {
    match pc
    case Ready => Crash
    case Searching(_, _) => Search(e.active)
    case Gating(_, _) => Gate(AE.IsSuppressed(e))
    case Inserting(_, _) => Insert(!e.create.CreateFailed?)
    case Rereading(_, _, _) => Reread(e.create.Created?)
    case HandingOff(_, _, _) => HandOff
    case Refinding(_, _, _) => Refind(e.refound)
    case Resolving(_, _, _) => Resolve(e.resolveOk)
    case Writing(_, _) => Write
  }

  /** The table and the hand-off when the rest of an evaluation runs undisturbed. */
  ghost function Solo(db: Db, pc: Pc, e: AE.Eval): (Db, Option<Id>)
    decreases Rank(pc)
  {
    var a := NextAction(pc, e);
    if pc.Ready? || !ActionEnabled(db, pc, a) then (db, None)
    else
      var after := Solo(DbAfter(db, pc, a), PcAfter(db, pc, a), e);
      (after.0, if HandedBy(pc, a).Some? then HandedBy(pc, a) else after.1)
  }

  /** The answers of an evaluation are what this table gives: searches, inserts and duplicates. */
  ghost predicate AnswersFrom(db: Db, pair: Pair, e: AE.Eval) {
    && Finds(db.alerts, pair, e.active) && Finds(db.alerts, pair, e.refound)
    && (e.create.Created? || e.create.InsertedUnread? ==> !HasActive(db.alerts, pair) && e.create.id == db.nextId)
    && (e.create.Duplicate? ==> HasActive(db.alerts, pair))
  }

  /** The changed table and the hand-off are those of a sequential effect. */
  ghost predicate Performs(db: Db, after: (Db, Option<Id>), pair: Pair, eff: AE.Effect) {
    && (after.1, after.0.origin, after.0.alerts) ==
         (eff.handedOff,
          if eff.inserted.Some? then db.origin[eff.inserted.value := pair] else db.origin,
          if eff.inserted.Some? then db.alerts[eff.inserted.value := Alert(pair, Active)]
          else if eff.autoResolved.Some? && eff.autoResolved.value in db.alerts
          then db.alerts[eff.autoResolved.value := Alert(db.alerts[eff.autoResolved.value].pair, ResolvedAlert)]
          else db.alerts)
    && ((after.0.written == db.written && eff.written.None?)
        || (eff.written.Some? && after.0.written == db.written + [(pair, eff.written.value)]))
  }

  lemma SoloWrite(db: Db, pair: Pair, next: RuleState, e: AE.Eval)
    ensures Solo(db, Writing(pair, next), e) == (db.(written := db.written + [(pair, next)]), None)
  {}

  lemma SoloRefind(db: Db, pair: Pair, state: RuleState, e: AE.Eval)
    requires AnswersFrom(db, pair, e) && e.active.None? && !AE.IsSuppressed(e) && e.create.Duplicate?
    ensures Performs(db, Solo(db, Refinding(pair, state, e.now), e), pair, AE.Fire(state, e))
  {
    if e.refound.Some? {
      SoloWrite(db, pair, AE.Repointed(state, e.refound.value, e.now), e);
    } else {
      assert Solo(db, Ready, e) == (db, None);
    }
  }

  lemma SoloInsert(db: Db, pair: Pair, state: RuleState, e: AE.Eval)
    requires AnswersFrom(db, pair, e) && e.active.None? && !AE.IsSuppressed(e)
    ensures Performs(db, Solo(db, Inserting(pair, Some((state, e.now))), e), pair, AE.Fire(state, e))
  {
    var pc := Inserting(pair, Some((state, e.now)));
    var a := NextAction(pc, e);
    var db1, pc1 := DbAfter(db, pc, a), PcAfter(db, pc, a);
    match e.create
    case Created(id) =>
      assert pc1 == Rereading(pair, Some((state, e.now)), id);
      var pc2 := HandingOff(pair, Some((state, e.now)), id);
      var next := AE.RuleState(AE.Notified, state.firstMetAt, Some(e.now), None, Some(id));
      SoloWrite(db1, pair, next, e);
      assert Solo(db1, pc2, e) == (db1.(written := db1.written + [(pair, next)]), Some(id));
      assert Solo(db1, pc1, e) == Solo(db1, pc2, e);
    case InsertedUnread(id) =>
      assert pc1 == Rereading(pair, Some((state, e.now)), id);
      assert Solo(db1, Ready, e) == (db1, None);
    case Duplicate =>
      SoloRefind(db, pair, state, e);
      assert db1 == db && pc1 == Refinding(pair, state, e.now);
    case CreateFailed =>
      assert pc1 == Ready;
  }

  lemma SoloFire(db: Db, pair: Pair, state: RuleState, e: AE.Eval)
    requires AnswersFrom(db, pair, e)
    ensures Performs(db, Solo(db, Searching(pair, Some((state, e.now))), e), pair, AE.Fire(state, e))
  {
    if e.active.Some? {
      SoloWrite(db, pair, AE.Repointed(state, e.active.value, e.now), e);
    } else if AE.IsSuppressed(e) {
      SoloWrite(db, pair, state.(status := AE.Idle), e);
      assert Solo(db, Gating(pair, Some((state, e.now))), e) == Solo(db, Writing(pair, state.(status := AE.Idle)), e);
    } else {
      SoloInsert(db, pair, state, e);
      assert Solo(db, Gating(pair, Some((state, e.now))), e) == Solo(db, Inserting(pair, Some((state, e.now))), e);
    }
  }

  lemma SoloMet(db: Db, pair: Pair, state: RuleState, e: AE.Eval)
    requires AnswersFrom(db, pair, e) && AE.IsTriggered(e)
    ensures Performs(db, Solo(db, EvalBranch(pair, state, e), e), pair, AE.ConditionMet(state, e))
  {
    match EvalBranch(pair, state, e)
    case Searching(_, _) => SoloFire(db, pair, state, e);
    case Writing(_, next) => SoloWrite(db, pair, next, e);
    case _ =>
  }

  lemma SoloCleared(db: Db, pair: Pair, state: RuleState, e: AE.Eval)
    requires AnswersFrom(db, pair, e) && !AE.IsTriggered(e)
    ensures Performs(db, Solo(db, EvalBranch(pair, state, e), e), pair, AE.ConditionCleared(state, e))
  {
    var pc := EvalBranch(pair, state, e);
    match pc
    case Resolving(_, _, next) => SoloWrite(DbAfter(db, pc, Resolve(e.resolveOk)), pair, next, e);
    case Writing(_, next) => SoloWrite(db, pair, next, e);
    case _ =>
  }

  /**
   * An evaluation that no other process interrupts does to the tables and the notifier exactly what the
   * sequential engine does from the state it loaded: the step machine refines it.
   */
  lemma SoloIsSequential(db: Db, pair: Pair, state: RuleState, e: AE.Eval)
    requires AnswersFrom(db, pair, e)
    ensures Performs(db, Solo(db, EvalBranch(pair, state, e), e), pair, AE.Outcome(state, e))
  {
    if AE.IsTriggered(e) {
      SoloMet(db, pair, state, e);
    } else {
      SoloCleared(db, pair, state, e);
    }
  }
}
