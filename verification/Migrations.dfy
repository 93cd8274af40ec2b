/**
 * Schema migrations: several instances start at once, take turns under a session-level advisory
 * lock, and may crash at any step. A crash ends all sessions of the instance and rolls back what was
 * not committed. The SQL of a migration is identified by its checksum.
 */
module Migrations {
  import opened Basics

  datatype Migration = Migration(version: int, checksum: string)

  /** A row of schema_migrations; rows from before checksums were kept have none, or an empty one. */
  datatype Record = Record(version: int, checksum: Option<string>)

  predicate Increasing(list: seq<Migration>) {
    forall i :: 0 < i < |list| ==> list[i - 1].version < list[i].version
  }

  function Find(recorded: seq<Record>, version: int): Option<Record> {
    if recorded == [] then None
    else if recorded[|recorded| - 1].version == version then Some(recorded[|recorded| - 1])
    else Find(recorded[..|recorded| - 1], version)
  }

  predicate Matches(r: Record, m: Migration) {
    r.checksum.None? || r.checksum.value == "" || r.checksum.value == m.checksum
  }

  /** The insert does nothing when the version is there already. */
  function WithRecord(recorded: seq<Record>, m: Migration): seq<Record> {
    if Find(recorded, m.version).Some? then recorded else recorded + [Record(m.version, Some(m.checksum))]
  }

  method IsOrdered(list: seq<Migration>) returns (ok: bool)
    ensures ok <==> Increasing(list)
  {
    var i := 1;
    while i < |list|
      invariant 1 <= i
      invariant forall j :: 0 < j < i && j < |list| ==> list[j - 1].version < list[j].version
    {
      if list[i].version <= list[i - 1].version {
        return false;
      }
      i := i + 1;
    }
    ok := true;
  }

  // ---------- One instance alone ------------------------------------------------------------

  /** A commit may fail, or take effect with its reply lost. */
  datatype CommitAnswer = Committed | CommitFailed | ReplyLost

  datatype Answer = Answer(readOk: bool, sqlOk: bool, commit: CommitAnswer)

  datatype Result = Success | OrderingError | ChecksumMismatch(version: int) | DatabaseError(version: int)

  /** The schema: the rows of schema_migrations and the versions whose SQL was committed, in order. */
  datatype Schema = Schema(recorded: seq<Record>, committed: seq<int>)

  function Committing(s: Schema, m: Migration): Schema {
    Schema(WithRecord(s.recorded, m), s.committed + [m.version])
  }

  /** The loop from the `k`-th migration on. */
  ghost function RunFrom(s: Schema, list: seq<Migration>, k: nat, answers: nat -> Answer): (Schema, Result)
    requires k <= |list|
    decreases |list| - k
  {
    if k == |list| then (s, Success)
    else
      var m, a, r := list[k], answers(k), Find(s.recorded, list[k].version);
      if !a.readOk then (s, DatabaseError(m.version))
      else if r.Some? then
        if Matches(r.value, m) then RunFrom(s, list, k + 1, answers) else (s, ChecksumMismatch(m.version))
      else if !a.sqlOk || a.commit.CommitFailed? then (s, DatabaseError(m.version))
      else if a.commit.ReplyLost? then (Committing(s, m), DatabaseError(m.version))
      else RunFrom(Committing(s, m), list, k + 1, answers)
  }

  // ---------- What the result says ----------------------------------------------------------

  /** A record of this version with no checksum, an empty one, or exactly the list's. */
  ghost predicate Unedited(r: Record, m: Migration) {
    r.version == m.version && (r.checksum.None? || r.checksum.value == "" || r.checksum.value == m.checksum)
  }

  ghost predicate RecordedUnedited(recorded: seq<Record>, m: Migration) {
    exists r :: r in recorded && Unedited(r, m)
  }

  ghost predicate AllRecordedUnedited(recorded: seq<Record>, list: seq<Migration>, k: nat) {
    forall j {:trigger RecordedUnedited(recorded, list[j])} :: k <= j < |list| ==> RecordedUnedited(recorded, list[j])
  }

  /** The version is recorded with a checksum that is not empty and not the list's. */
  ghost predicate Edited(recorded: seq<Record>, m: Migration) {
    exists r :: r in recorded && r.version == m.version && r.checksum.Some? && r.checksum.value != "" && r.checksum.value != m.checksum
  }

  ghost predicate IsRecorded(recorded: seq<Record>, version: int) {
    exists r :: r in recorded && r.version == version
  }

  /** The version is the key of the records. */
  ghost predicate Keyed(recorded: seq<Record>) {
    forall r, q :: r in recorded && q in recorded && r.version == q.version ==> r == q
  }

  lemma {:induction false} FindIs(recorded: seq<Record>, version: int)
    ensures Find(recorded, version).Some? ==> Find(recorded, version).value in recorded && Find(recorded, version).value.version == version
    ensures Find(recorded, version).None? ==> !IsRecorded(recorded, version)
  {
    if recorded != [] {
      FindIs(recorded[..|recorded| - 1], version);
      assert recorded == recorded[..|recorded| - 1] + [recorded[|recorded| - 1]];
    }
  }

  lemma RecordedStays(recorded: seq<Record>, r: Record, m: Migration)
    requires RecordedUnedited(recorded, m)
    ensures RecordedUnedited(recorded + [r], m)
  {
    var q :| q in recorded && Unedited(q, m);
    assert q in recorded + [r];
  }

  lemma {:induction false} RunKeepsRecords(s: Schema, list: seq<Migration>, k: nat, answers: nat -> Answer, m: Migration)
    requires k <= |list| && RecordedUnedited(s.recorded, m)
    ensures RecordedUnedited(RunFrom(s, list, k, answers).0.recorded, m)
    decreases |list| - k
  {
    if k < |list| {
      var t := Committing(s, list[k]);
      RecordedStays(s.recorded, Record(list[k].version, Some(list[k].checksum)), m);
      RunKeepsRecords(s, list, k + 1, answers, m);
      RunKeepsRecords(t, list, k + 1, answers, m);
    }
  }

  lemma NowRecorded(s: Schema, m: Migration)
    requires Find(s.recorded, m.version).Some? ==> Matches(Find(s.recorded, m.version).value, m)
    ensures RecordedUnedited(Committing(s, m).recorded, m)
    ensures Find(s.recorded, m.version).Some? ==> RecordedUnedited(s.recorded, m)
  {
    FindIs(s.recorded, m.version);
    var r := Find(s.recorded, m.version);
    if r.None? {
      assert Record(m.version, Some(m.checksum)) in Committing(s, m).recorded;
    } else {
      assert r.value in s.recorded;
    }
  }

  /** Success means that every listed version is recorded, and not with another checksum; this needs nothing of the records. */
  lemma {:induction false} SuccessLeavesUnedited(s: Schema, list: seq<Migration>, k: nat, answers: nat -> Answer)
    requires k <= |list| && RunFrom(s, list, k, answers).1.Success?
    ensures AllRecordedUnedited(RunFrom(s, list, k, answers).0.recorded, list, k)
    decreases |list| - k
  {
    if k < |list| {
      var next := if Find(s.recorded, list[k].version).Some? then s else Committing(s, list[k]);
      NowRecorded(s, list[k]);
      SuccessLeavesUnedited(next, list, k + 1, answers);
      RunKeepsRecords(next, list, k + 1, answers, list[k]);
      forall j | k <= j < |list| ensures RecordedUnedited(RunFrom(s, list, k, answers).0.recorded, list[j]) {
        assert j > k ==> RecordedUnedited(RunFrom(next, list, k + 1, answers).0.recorded, list[j]);
      }
    }
  }

  /** A migration that does not end the run: it is recorded and unedited, or applied now. */
  ghost predicate Passes(recorded: seq<Record>, m: Migration, a: Answer) {
    a.readOk && !Edited(recorded, m) && (IsRecorded(recorded, m.version) || (a.sqlOk && a.commit.Committed?))
  }

  ghost predicate AllPass(recorded: seq<Record>, list: seq<Migration>, k: nat, i: nat, answers: nat -> Answer)
    requires i <= |list|
  {
    forall j {:trigger Passes(recorded, list[j], answers(j))} :: k <= j < i ==> Passes(recorded, list[j], answers(j))
  }

  /** The result in terms of the records at the start: the first migration from the `k`-th on that does not pass decides it. */
  ghost predicate Decides(recorded: seq<Record>, list: seq<Migration>, k: nat, answers: nat -> Answer, i: nat, r: Result) {
    && k <= i <= |list| && AllPass(recorded, list, k, i, answers)
    && if i == |list| then r == Success
       else if answers(i).readOk && Edited(recorded, list[i]) then r == ChecksumMismatch(list[i].version)
       else !Passes(recorded, list[i], answers(i)) && r == DatabaseError(list[i].version)
  }

  /** A commit changes nothing for the other versions. */
  lemma CommitKeepsOthers(s: Schema, m: Migration, other: Migration)
    requires m.version != other.version
    ensures Edited(Committing(s, m).recorded, other) == Edited(s.recorded, other)
    ensures IsRecorded(Committing(s, m).recorded, other.version) == IsRecorded(s.recorded, other.version)
  {
    var added := Record(m.version, Some(m.checksum));
    assert forall r :: r in s.recorded + [added] <==> r in s.recorded || r == added;
  }

  lemma CommitKeepsKeyed(s: Schema, m: Migration)
    requires Keyed(s.recorded)
    ensures Keyed(Committing(s, m).recorded)
  {
    FindIs(s.recorded, m.version);
    var added := Record(m.version, Some(m.checksum));
    assert forall r :: r in s.recorded + [added] <==> r in s.recorded || r == added;
  }

  lemma {:induction false} IncreasingFrom(list: seq<Migration>, i: nat, j: nat)
    requires Increasing(list) && i < j < |list|
    ensures list[i].version < list[j].version
    decreases j
  {
    if i < j - 1 { IncreasingFrom(list, i, j - 1); }
  }

  lemma FoundDecides(recorded: seq<Record>, m: Migration)
    requires Keyed(recorded)
    ensures Find(recorded, m.version).Some? <==> IsRecorded(recorded, m.version)
    ensures Find(recorded, m.version).Some? ==> (Matches(Find(recorded, m.version).value, m) <==> !Edited(recorded, m))
    ensures Edited(recorded, m) ==> IsRecorded(recorded, m.version)
  {
    FindIs(recorded, m.version);
  }

  /** The first migration that does not pass decides the result. */
  lemma {:induction false} FirstFailureDecides(s: Schema, list: seq<Migration>, k: nat, answers: nat -> Answer) returns (i: nat)
    requires k <= |list| && Increasing(list) && Keyed(s.recorded)
    ensures Decides(s.recorded, list, k, answers, i, RunFrom(s, list, k, answers).1)
    decreases |list| - k
  {
    i := k;
    if k < |list| {
      FoundDecides(s.recorded, list[k]);
      if Passes(s.recorded, list[k], answers(k)) {
        var next := if Find(s.recorded, list[k].version).Some? then s else Committing(s, list[k]);
        CommitKeepsKeyed(s, list[k]);
        i := FirstFailureDecides(next, list, k + 1, answers);
        forall j | k < j < |list|
          ensures Edited(next.recorded, list[j]) == Edited(s.recorded, list[j]) && IsRecorded(next.recorded, list[j].version) == IsRecorded(s.recorded, list[j].version)
        {
          IncreasingFrom(list, k, j);
          CommitKeepsOthers(s, list[k], list[j]);
        }
        LaterPass(next.recorded, s.recorded, list, k, i, answers);
      }
    }
  }

  lemma LaterPass(recorded: seq<Record>, before: seq<Record>, list: seq<Migration>, k: nat, i: nat, answers: nat -> Answer)
    requires k < i <= |list| && AllPass(recorded, list, k + 1, i, answers) && Passes(before, list[k], answers(k))
    requires forall j :: k < j < |list| ==> Edited(recorded, list[j]) == Edited(before, list[j]) && IsRecorded(recorded, list[j].version) == IsRecorded(before, list[j].version)
    ensures AllPass(before, list, k, i, answers)
    ensures i < |list| ==> Passes(recorded, list[i], answers(i)) == Passes(before, list[i], answers(i))
  {
    forall j | k <= j < i ensures Passes(before, list[j], answers(j)) {
      assert j > k ==> Passes(recorded, list[j], answers(j));
    }
  }

  lemma OneFirstFailure(recorded: seq<Record>, list: seq<Migration>, answers: nat -> Answer, i: nat, j: nat)
    requires i <= |list| && AllPass(recorded, list, 0, i, answers) && (i < |list| ==> !Passes(recorded, list[i], answers(i)))
    requires j <= |list| && AllPass(recorded, list, 0, j, answers) && (j < |list| ==> !Passes(recorded, list[j], answers(j)))
    ensures i == j
  {}

  /**
   * Schema drift is reported exactly when it is what comes first: the version is recorded with another
   * checksum, its read is answered, and every migration before it passes.
   */
  lemma MismatchIff(s: Schema, list: seq<Migration>, answers: nat -> Answer, version: int)
    requires Increasing(list) && Keyed(s.recorded)
    ensures RunFrom(s, list, 0, answers).1 == ChecksumMismatch(version) <==>
              exists i :: 0 <= i < |list| && list[i].version == version && answers(i).readOk && Edited(s.recorded, list[i])
                          && AllPass(s.recorded, list, 0, i, answers)
  {
    var first := FirstFailureDecides(s, list, 0, answers);
    forall i | 0 <= i < |list| && Edited(s.recorded, list[i]) && AllPass(s.recorded, list, 0, i, answers) ensures i == first {
      OneFirstFailure(s.recorded, list, answers, i, first);
    }
  }

  lemma RunSays(s: Schema, list: seq<Migration>, answers: nat -> Answer)
    requires Increasing(list)
    ensures var (t, r) := RunFrom(s, list, 0, answers);
            && (r.Success? ==> AllRecordedUnedited(t.recorded, list, 0))
            && (Keyed(s.recorded) ==> exists i :: Decides(s.recorded, list, 0, answers, i, r))
  {
    if RunFrom(s, list, 0, answers).1.Success? { SuccessLeavesUnedited(s, list, 0, answers); }
    if Keyed(s.recorded) { var i := FirstFailureDecides(s, list, 0, answers); }
  }

  class Database {
    var recorded: seq<Record>
    var committed: seq<int>

    constructor (recorded: seq<Record>)
      ensures State() == Schema(recorded, [])
    {
      this.recorded := recorded;
      committed := [];
    }

    ghost function State(): Schema
      reads this
    {
      Schema(recorded, committed)
    }

    /** One instance, with the lock held. */
    method RunMigrations(list: seq<Migration>, answers: nat -> Answer) returns (result: Result)
      modifies this
      ensures !Increasing(list) ==> State() == old(State()) && result == OrderingError
      ensures Increasing(list) ==> (State(), result) == RunFrom(old(State()), list, 0, answers)
      ensures result.Success? ==> AllRecordedUnedited(recorded, list, 0)
      ensures Increasing(list) && Keyed(old(recorded)) ==> exists i :: Decides(old(recorded), list, 0, answers, i, result)
    {
      var ordered := IsOrdered(list);
      if !ordered { return OrderingError; }
      RunSays(State(), list, answers);
      var k := 0;
      while k < |list|
        invariant 0 <= k <= |list|
        invariant RunFrom(State(), list, k, answers) == RunFrom(old(State()), list, 0, answers)
      {
        var m, a := list[k], answers(k);
        if !a.readOk { return DatabaseError(m.version); }
        var r := Find(recorded, m.version);
        if r.Some? {
          if r.value.checksum.Some? && r.value.checksum.value != "" {
            if r.value.checksum.value != m.checksum {
              return ChecksumMismatch(m.version);
            }
          }
        } else {
          if !a.sqlOk { return DatabaseError(m.version); }
          if a.commit.CommitFailed? { return DatabaseError(m.version); }
          Commit(m);
          if a.commit.ReplyLost? { return DatabaseError(m.version); }
        }
        k := k + 1;
      }
      result := Success;
    }

    method Commit(m: Migration)
      modifies this
      ensures State() == Committing(old(State()), m)
    {
      if Find(recorded, m.version).None? {
        recorded := recorded + [Record(m.version, Some(m.checksum))];
      }
      committed := committed + [m.version];
    }
  }

  // ---------- Recorded versions as a prefix ---------------------------------------------------

  ghost predicate Rising(v: seq<int>) {
    forall i, j {:trigger v[i], v[j]} :: 0 <= i < j < |v| ==> v[i] < v[j]
  }

  /** The records are the first versions of the common list, in order. */
  ghost predicate IsPrefix(recorded: seq<Record>, v: seq<int>) {
    |recorded| <= |v| && forall j :: 0 <= j < |recorded| ==> recorded[j].version == v[j]
  }

  /** The list's versions are the first versions of the common list. */
  ghost predicate ListOf(list: seq<Migration>, v: seq<int>) {
    |list| <= |v| && forall j :: 0 <= j < |list| ==> list[j].version == v[j]
  }

  lemma {:induction false} FindInPrefix(recorded: seq<Record>, v: seq<int>, k: nat)
    requires Rising(v) && IsPrefix(recorded, v) && k < |v|
    ensures Find(recorded, v[k]) == if k < |recorded| then Some(recorded[k]) else None
    decreases |recorded|
  {
    if recorded != [] && k != |recorded| - 1 {
      FindInPrefix(recorded[..|recorded| - 1], v, k);
    }
  }

  lemma RecordNext(recorded: seq<Record>, v: seq<int>, m: Migration)
    requires Rising(v) && IsPrefix(recorded, v) && |recorded| < |v| && m.version == v[|recorded|]
    ensures WithRecord(recorded, m) == recorded + [Record(m.version, Some(m.checksum))] && IsPrefix(WithRecord(recorded, m), v)
  {
    FindInPrefix(recorded, v, |recorded|);
  }

  /** The first `k` records agree with the list. */
  ghost predicate Agrees(recorded: seq<Record>, list: seq<Migration>, k: nat) {
    k <= |recorded| && k <= |list| && forall j :: 0 <= j < k ==> Unedited(recorded[j], list[j])
  }

  /** `t` has the next versions of the common list on top of `s`, each recorded and committed once. */
  ghost predicate Extends(s: Schema, t: Schema, v: seq<int>) {
    && s.recorded <= t.recorded && IsPrefix(t.recorded, v)
    && t.committed == s.committed + v[|s.recorded|..|t.recorded|]
  }

  lemma CommitExtends(s: Schema, v: seq<int>, m: Migration)
    requires Rising(v) && IsPrefix(s.recorded, v) && |s.recorded| < |v| && m.version == v[|s.recorded|]
    ensures Extends(s, Committing(s, m), v) && |Committing(s, m).recorded| == |s.recorded| + 1
    ensures Committing(s, m).recorded[|s.recorded|] == Record(m.version, Some(m.checksum))
  {
    RecordNext(s.recorded, v, m);
    assert v[|s.recorded|..|s.recorded| + 1] == [v[|s.recorded|]];
  }

  lemma ExtendsTwice(s: Schema, t: Schema, u: Schema, v: seq<int>)
    requires Extends(s, t, v) && Extends(t, u, v)
    ensures Extends(s, u, v)
  {}

  /** One of the records from the `k`-th on has another checksum than the list. */
  ghost predicate DriftFrom(recorded: seq<Record>, list: seq<Migration>, k: nat) {
    exists j {:trigger Edited(recorded, list[j])} :: k <= j < |recorded| && j < |list| && Edited(recorded, list[j])
  }

  lemma EditedIff(recorded: seq<Record>, v: seq<int>, k: nat, m: Migration)
    requires Rising(v) && IsPrefix(recorded, v) && k < |recorded| && m.version == v[k]
    ensures Edited(recorded, m) <==> !Matches(recorded[k], m)
  {
    assert recorded[k] in recorded;
  }

  /**
   * One instance alone: it appends the missing versions in order, each committed once; success means
   * that the whole list is recorded and agrees.
   */
  lemma {:induction false} RunAppendsInOrder(s: Schema, list: seq<Migration>, k: nat, answers: nat -> Answer, v: seq<int>)
    requires k <= |list| && Rising(v) && ListOf(list, v) && IsPrefix(s.recorded, v) && Agrees(s.recorded, list, k)
    ensures var (t, r) := RunFrom(s, list, k, answers);
            Extends(s, t, v) && (r.Success? ==> Agrees(t.recorded, list, |list|))
    decreases |list| - k
  {
    if k < |list| {
      var m := list[k];
      FindInPrefix(s.recorded, v, k);
      if k < |s.recorded| {
        if Matches(s.recorded[k], m) { RunAppendsInOrder(s, list, k + 1, answers, v); }
      } else {
        var t := Committing(s, m);
        CommitExtends(s, v, m);
        RunAppendsInOrder(t, list, k + 1, answers, v);
        ExtendsTwice(s, t, RunFrom(t, list, k + 1, answers).0, v);
      }
    }
  }

  /** A mismatch means that nothing was applied, and that one of the records really has another checksum. */
  lemma {:induction false} MismatchAppliesNothing(s: Schema, list: seq<Migration>, k: nat, answers: nat -> Answer, v: seq<int>)
    requires k <= |list| && Rising(v) && ListOf(list, v) && IsPrefix(s.recorded, v) && k <= |s.recorded|
    requires RunFrom(s, list, k, answers).1.ChecksumMismatch?
    ensures RunFrom(s, list, k, answers).0 == s && DriftFrom(s.recorded, list, k)
    decreases |list| - k
  {
    if k < |list| {
      FindInPrefix(s.recorded, v, k);
      if k < |s.recorded| {
        EditedIff(s.recorded, v, k, list[k]);
        if Matches(s.recorded[k], list[k]) { MismatchAppliesNothing(s, list, k + 1, answers, v); }
      } else {
        NoRecordsNoMismatch(s, list, k, answers, v);
      }
    }
  }

  lemma {:induction false} NoRecordsNoMismatch(s: Schema, list: seq<Migration>, k: nat, answers: nat -> Answer, v: seq<int>)
    requires k <= |list| && Rising(v) && ListOf(list, v) && IsPrefix(s.recorded, v) && k == |s.recorded|
    ensures !RunFrom(s, list, k, answers).1.ChecksumMismatch?
    decreases |list| - k
  {
    if k < |list| {
      FindInPrefix(s.recorded, v, k);
      CommitExtends(s, v, list[k]);
      NoRecordsNoMismatch(Committing(s, list[k]), list, k + 1, answers, v);
    }
  }

  // ---------- Many instances ---------------------------------------------------------------------

  /** Where an instance stands; `Loop(k)` checks the `k`-th migration, `InTx(k)` has its SQL and record uncommitted. */
  datatype Pc = Outside | Prepared | Loop(k: nat) | InTx(k: nat) | Leaving(ok: bool) | Finished(ok: bool)

  datatype State = State(schema: Schema, lock: Option<nat>, pcs: seq<Pc>)

  datatype Step =
    | Prepare(i: nat, ok: bool)
    | Lock(i: nat)
    | Check(i: nat, readOk: bool)
    | Apply(i: nat, sqlOk: bool)
    | Commit(i: nat, answer: CommitAnswer)
    | Unlock(i: nat)
    | Crash(i: nat)
    | LockSessionEnds(i: nat)

  predicate Active(pc: Pc) {
    pc.Loop? || pc.InTx?
  }

  predicate Enabled(s: State, step: Step, lists: seq<seq<Migration>>) {
    step.i < |s.pcs| == |lists| &&
    var pc, list := s.pcs[step.i], lists[step.i];
    match step
    case Prepare(_, _) => pc.Outside? || pc.Finished?
    case Lock(_) => pc.Prepared? && s.lock.None?
    case Check(_, _) => pc.Loop?
    case Apply(_, _) => pc.InTx? && pc.k < |list|
    case Commit(_, _) => pc.InTx? && pc.k < |list|
    case Unlock(_) => pc.Leaving?
    case Crash(_) => true
    case LockSessionEnds(i) => s.lock == Some(i)
  }

  function Released(lock: Option<nat>, i: nat): Option<nat> {
    if lock == Some(i) then None else lock
  }

  function PcAfter(s: State, step: Step, list: seq<Migration>): Pc
    requires step.i < |s.pcs|
  {
    var pc := s.pcs[step.i];
    match step
    case Prepare(_, ok) => if ok then Prepared else Finished(false)
    case Lock(_) => if Increasing(list) then Loop(0) else Leaving(false)
    case Check(_, readOk) =>
      if !pc.Loop? || !readOk then Leaving(false)
      else if pc.k >= |list| then Leaving(true)
      else
        var r := Find(s.schema.recorded, list[pc.k].version);
        if r.None? then InTx(pc.k)
        else if Matches(r.value, list[pc.k]) then Loop(pc.k + 1)
        else Leaving(false)
    case Apply(_, sqlOk) => if sqlOk then pc else Leaving(false)
    case Commit(_, answer) => if answer.Committed? && pc.InTx? then Loop(pc.k + 1) else Leaving(false)
    case Unlock(_) => Finished(if pc.Leaving? then pc.ok else false)
    case Crash(_) => Outside
    case LockSessionEnds(_) => pc
  }

  function SchemaAfter(s: State, step: Step, list: seq<Migration>): Schema
    requires step.i < |s.pcs|
  {
    var pc := s.pcs[step.i];
    if step.Commit? && !step.answer.CommitFailed? && pc.InTx? && pc.k < |list| then Committing(s.schema, list[pc.k]) else s.schema
  }

  function LockAfter(s: State, step: Step): Option<nat> {
    match step
    case Lock(i) => Some(i)
    case Unlock(i) => Released(s.lock, i)
    case Crash(i) => Released(s.lock, i)
    case LockSessionEnds(i) => Released(s.lock, i)
    case _ => s.lock
  }

  function Next(s: State, step: Step, lists: seq<seq<Migration>>): State
    requires Enabled(s, step, lists)
  {
    var list := lists[step.i];
    State(SchemaAfter(s, step, list), LockAfter(s, step), s.pcs[step.i := PcAfter(s, step, list)])
  }

  /** Every list that passes the ordering check is a prefix of the common versions. */
  ghost predicate CommonVersions(lists: seq<seq<Migration>>, v: seq<int>) {
    Rising(v) && forall i :: 0 <= i < |lists| ==> Increasing(lists[i]) ==> ListOf(lists[i], v)
  }

  /** What an instance in the loop has checked so far. */
  ghost predicate PcOk(recorded: seq<Record>, list: seq<Migration>, pc: Pc, v: seq<int>) {
    && (Active(pc) ==> Increasing(list) && ListOf(list, v) && Agrees(recorded, list, pc.k))
    && (pc.InTx? ==> pc.k == |recorded| < |list|)
  }

  /** An instance with this list would commit the next version: the list goes on after the records and agrees with all of them. */
  ghost predicate Eligible(recorded: seq<Record>, list: seq<Migration>) {
    Increasing(list) && |recorded| < |list| && Agrees(recorded, list, |recorded|)
  }

  /** No other instance would. */
  ghost predicate Sole(recorded: seq<Record>, lists: seq<seq<Migration>>, i: nat) {
    forall j {:trigger Eligible(recorded, lists[j])} :: 0 <= j < |lists| && j != i ==> !Eligible(recorded, lists[j])
  }

  /** Whoever may still commit has the lock, unless nobody else could commit anyway. */
  ghost predicate ProcOk(s: State, lists: seq<seq<Migration>>, v: seq<int>, i: nat)
    requires i < |s.pcs| == |lists|
  {
    && PcOk(s.schema.recorded, lists[i], s.pcs[i], v)
    && (Active(s.pcs[i]) && Eligible(s.schema.recorded, lists[i]) ==> s.lock == Some(i) || Sole(s.schema.recorded, lists, i))
  }

  /** Starting from the records `init`, the versions committed since are the next ones of the common list, once each. */
  ghost predicate SchemaOk(schema: Schema, init: seq<Record>, v: seq<int>) {
    && init <= schema.recorded && IsPrefix(schema.recorded, v)
    && schema.committed == v[|init|..|schema.recorded|]
  }

  ghost predicate Inv(s: State, lists: seq<seq<Migration>>, init: seq<Record>, v: seq<int>) {
    && |s.pcs| == |lists| && SchemaOk(s.schema, init, v)
    && forall i {:trigger ProcOk(s, lists, v, i)} :: 0 <= i < |s.pcs| ==> ProcOk(s, lists, v, i)
  }

  lemma CommitKeepsSchema(schema: Schema, init: seq<Record>, v: seq<int>, m: Migration)
    requires Rising(v) && SchemaOk(schema, init, v) && |schema.recorded| < |v| && m.version == v[|schema.recorded|]
    ensures SchemaOk(Committing(schema, m), init, v)
    ensures Committing(schema, m).recorded == schema.recorded + [Record(m.version, Some(m.checksum))]
  {
    RecordNext(schema.recorded, v, m);
  }

  /** The end of the lock session of instance `i` would matter: it may still commit, and so may another one. */
  ghost predicate Harmful(s: State, lists: seq<seq<Migration>>, i: nat)
    requires i < |s.pcs| == |lists|
  {
    Active(s.pcs[i]) && Eligible(s.schema.recorded, lists[i]) && !Sole(s.schema.recorded, lists, i)
  }

  ghost predicate Harmless(s: State, lists: seq<seq<Migration>>, step: Step) {
    step.LockSessionEnds? && step.i < |s.pcs| == |lists| ==> !Harmful(s, lists, step.i)
  }

  /** More records make nobody eligible. */
  lemma EligibleBefore(recorded: seq<Record>, r: Record, lists: seq<seq<Migration>>, i: nat)
    requires i < |lists|
    ensures Eligible(recorded + [r], lists[i]) ==> Eligible(recorded, lists[i])
    ensures Sole(recorded, lists, i) ==> Sole(recorded + [r], lists, i)
  {
    forall j | 0 <= j < |lists| ensures Eligible(recorded + [r], lists[j]) ==> Eligible(recorded, lists[j]) {
      if Eligible(recorded + [r], lists[j]) {
        assert forall x :: 0 <= x < |recorded| ==> (recorded + [r])[x] == recorded[x];
      }
    }
  }

  lemma ActorKeeps(s: State, step: Step, lists: seq<seq<Migration>>, v: seq<int>)
    requires Rising(v) && IsPrefix(s.schema.recorded, v) && CommonVersions(lists, v) && Enabled(s, step, lists)
    requires ProcOk(s, lists, v, step.i) && Harmless(s, lists, step)
    ensures ProcOk(Next(s, step, lists), lists, v, step.i)
  {
    var pc, list := s.pcs[step.i], lists[step.i];
    if step.Check? && pc.k < |list| {
      FindInPrefix(s.schema.recorded, v, pc.k);
    } else if step.Commit? {
      RecordNext(s.schema.recorded, v, list[pc.k]);
      EligibleBefore(s.schema.recorded, Record(list[pc.k].version, Some(list[pc.k].checksum)), lists, step.i);
    }
  }

  /** While one instance commits, no other is in a transaction. */
  lemma OtherKeeps(s: State, step: Step, lists: seq<seq<Migration>>, v: seq<int>, i: nat)
    requires Rising(v) && IsPrefix(s.schema.recorded, v) && Enabled(s, step, lists)
    requires ProcOk(s, lists, v, step.i) && i < |s.pcs| && i != step.i && ProcOk(s, lists, v, i)
    ensures ProcOk(Next(s, step, lists), lists, v, i)
  {
    if step.Commit? {
      var m := lists[step.i][s.pcs[step.i].k];
      RecordNext(s.schema.recorded, v, m);
      EligibleBefore(s.schema.recorded, Record(m.version, Some(m.checksum)), lists, i);
      assert Eligible(s.schema.recorded, lists[step.i]);
      assert s.pcs[i].InTx? ==> Eligible(s.schema.recorded, lists[i]);
    }
  }

  /** Every step of every instance keeps it, the harmless end of a lock session included. */
  lemma StepKeeps(s: State, step: Step, lists: seq<seq<Migration>>, init: seq<Record>, v: seq<int>)
    requires Inv(s, lists, init, v) && CommonVersions(lists, v) && Enabled(s, step, lists) && Harmless(s, lists, step)
    ensures Inv(Next(s, step, lists), lists, init, v)
  {
    var t := Next(s, step, lists);
    assert ProcOk(s, lists, v, step.i);
    if step.Commit? { CommitKeepsSchema(s.schema, init, v, lists[step.i][s.pcs[step.i].k]); }
    forall i | 0 <= i < |t.pcs| ensures ProcOk(t, lists, v, i) {
      assert ProcOk(s, lists, v, i);
      if i == step.i { ActorKeeps(s, step, lists, v); } else { OtherKeeps(s, step, lists, v, i); }
    }
  }

  ghost function After(s: State, steps: seq<Step>, n: nat, lists: seq<seq<Migration>>): Option<State>
    requires n <= |steps|
  {
    if n == 0 then Some(s)
    else
      var before := After(s, steps, n - 1, lists);
      if before.None? || !Enabled(before.value, steps[n - 1], lists) then None else Some(Next(before.value, steps[n - 1], lists))
  }

  /** Nobody has started; the database holds the records of earlier deployments. */
  ghost predicate Start(s: State, lists: seq<seq<Migration>>, init: seq<Record>, v: seq<int>) {
    && |s.pcs| == |lists| && s.schema == Schema(init, []) && s.lock.None? && IsPrefix(init, v)
    && forall i :: 0 <= i < |s.pcs| ==> s.pcs[i] == Outside
  }

  ghost predicate HarmlessAt(s: State, steps: seq<Step>, j: nat, lists: seq<seq<Migration>>)
    requires j < |steps|
  {
    After(s, steps, j, lists).Some? ==> Harmless(After(s, steps, j, lists).value, lists, steps[j])
  }

  /** Of the steps from `from` up to, not including, `n`, none is the harmful end of a lock session. */
  ghost predicate AllHarmless(s: State, steps: seq<Step>, from: nat, n: nat, lists: seq<seq<Migration>>)
    requires n <= |steps|
  {
    forall j {:trigger HarmlessAt(s, steps, j, lists)} :: from <= j < n ==> HarmlessAt(s, steps, j, lists)
  }

  /** Every reachable state is one of the invariant: `Start` is. */
  lemma {:induction false} InvIsKept(s: State, steps: seq<Step>, n: nat, lists: seq<seq<Migration>>, init: seq<Record>, v: seq<int>)
    requires Inv(s, lists, init, v) && CommonVersions(lists, v)
    requires n <= |steps| && After(s, steps, n, lists).Some? && AllHarmless(s, steps, 0, n, lists)
    ensures Inv(After(s, steps, n, lists).value, lists, init, v)
  {
    if n > 0 {
      InvIsKept(s, steps, n - 1, lists, init, v);
      assert HarmlessAt(s, steps, n - 1, lists);
      StepKeeps(After(s, steps, n - 1, lists).value, steps[n - 1], lists, init, v);
    }
  }

  /**
   * With any number of instances starting together and crashing anywhere, the recorded versions are
   * always a prefix of the common list and every version committed since the start was committed once,
   * as long as no lock session ends while its instance and another one may both still commit.
   */
  lemma CommittedOnceInOrder(s: State, steps: seq<Step>, n: nat, lists: seq<seq<Migration>>, init: seq<Record>, v: seq<int>)
    requires Start(s, lists, init, v) && CommonVersions(lists, v)
    requires n <= |steps| && After(s, steps, n, lists).Some? && AllHarmless(s, steps, 0, n, lists)
    ensures var schema := After(s, steps, n, lists).value.schema;
            && IsPrefix(schema.recorded, v) && init <= schema.recorded
            && schema.committed == v[|init|..|schema.recorded|]
            && Distinct(schema.committed)
  {
    InvIsKept(s, steps, n, lists, init, v);
  }

  /** When the whole list agrees with the records, all of it is recorded. */
  lemma AgreeingIsUnedited(recorded: seq<Record>, list: seq<Migration>, v: seq<int>)
    requires IsPrefix(recorded, v) && ListOf(list, v) && Agrees(recorded, list, |list|)
    ensures AllRecordedUnedited(recorded, list, 0)
  {
    forall j | 0 <= j < |list| ensures RecordedUnedited(recorded, list[j]) {
      assert recorded[j] in recorded;
    }
  }

  /** When all the records agree with the list, no listed version is recorded with another checksum. */
  lemma AgreeingHasNoDrift(recorded: seq<Record>, list: seq<Migration>, v: seq<int>)
    requires Rising(v) && IsPrefix(recorded, v) && ListOf(list, v) && Agrees(recorded, list, |recorded|)
    ensures forall m :: m in list ==> !Edited(recorded, m)
  {
    forall m, r | m in list && r in recorded && r.version == m.version
      ensures Unedited(r, m)
    {
      var j :| 0 <= j < |recorded| && recorded[j] == r;
      var k :| 0 <= k < |list| && list[k] == m;
      assert v[j] == v[k];
    }
  }

  /** An instance that ends well leaves its whole list recorded, each version committed now or before. */
  lemma SuccessMeansRecorded(s: State, steps: seq<Step>, n: nat, lists: seq<seq<Migration>>, init: seq<Record>, v: seq<int>)
    requires Start(s, lists, init, v) && CommonVersions(lists, v)
    requires n < |steps| && After(s, steps, n + 1, lists).Some? && AllHarmless(s, steps, 0, n, lists)
    requires steps[n].Check? && steps[n].i < |lists| && After(s, steps, n + 1, lists).value.pcs[steps[n].i] == Leaving(true)
    ensures Agrees(After(s, steps, n + 1, lists).value.schema.recorded, lists[steps[n].i], |lists[steps[n].i]|)
    ensures AllRecordedUnedited(After(s, steps, n + 1, lists).value.schema.recorded, lists[steps[n].i], 0)
  {
    InvIsKept(s, steps, n, lists, init, v);
    var before := After(s, steps, n, lists).value;
    assert ProcOk(before, lists, v, steps[n].i);
    AgreeingIsUnedited(before.schema.recorded, lists[steps[n].i], v);
  }

  /** An instance commits a migration only while every earlier record agrees with its own list: a mismatch stops it before. */
  lemma MismatchStops(s: State, steps: seq<Step>, n: nat, lists: seq<seq<Migration>>, init: seq<Record>, v: seq<int>)
    requires Start(s, lists, init, v) && CommonVersions(lists, v)
    requires n < |steps| && After(s, steps, n + 1, lists).Some? && AllHarmless(s, steps, 0, n, lists)
    ensures var before, after := After(s, steps, n, lists).value, After(s, steps, n + 1, lists).value;
            before.schema != after.schema ==>
              && steps[n].i < |lists| && Agrees(before.schema.recorded, lists[steps[n].i], |before.schema.recorded|)
              && forall m :: m in lists[steps[n].i] ==> !Edited(before.schema.recorded, m)
  {
    InvIsKept(s, steps, n, lists, init, v);
    var before := After(s, steps, n, lists).value;
    assert ProcOk(before, lists, v, steps[n].i);
    if before.schema != After(s, steps, n + 1, lists).value.schema {
      AgreeingHasNoDrift(before.schema.recorded, lists[steps[n].i], v);
    }
  }

  // ---------- When the lock session ends ----------------------------------------------------------

  lemma {:induction false} AfterSplit(s: State, front: seq<Step>, back: seq<Step>, n: nat, lists: seq<seq<Migration>>)
    requires n <= |back| && After(s, front, |front|, lists).Some?
    ensures After(s, front + back, |front| + n, lists) == After(After(s, front, |front|, lists).value, back, n, lists)
  {
    if n == 0 {
      AfterPrefix(s, front, back, |front|, lists);
    } else {
      AfterSplit(s, front, back, n - 1, lists);
    }
  }

  lemma {:induction false} AfterPrefix(s: State, front: seq<Step>, back: seq<Step>, n: nat, lists: seq<seq<Migration>>)
    requires n <= |front|
    ensures After(s, front + back, n, lists) == After(s, front, n, lists)
  {
    if n > 0 { AfterPrefix(s, front, back, n - 1, lists); }
  }

  /** `steps` leads from `s` to `t`, and no lock session ends on the way. */
  ghost predicate Leads(s: State, steps: seq<Step>, t: State, lists: seq<seq<Migration>>) {
    After(s, steps, |steps|, lists) == Some(t) && forall j :: 0 <= j < |steps| ==> !steps[j].LockSessionEnds?
  }

  lemma LeadsOn(s: State, front: seq<Step>, t: State, back: seq<Step>, u: State, lists: seq<seq<Migration>>)
    requires Leads(s, front, t, lists) && Leads(t, back, u, lists)
    ensures Leads(s, front + back, u, lists)
  {
    AfterSplit(s, front, back, |back|, lists);
  }

  lemma LeadsStep(s: State, step: Step, lists: seq<seq<Migration>>)
    requires Enabled(s, step, lists) && !step.LockSessionEnds?
    ensures Leads(s, [step], Next(s, step, lists), lists)
  {
    assert After(s, [step], 0, lists) == Some(s);
  }

  ghost predicate Standing(s: State, lists: seq<seq<Migration>>, v: seq<int>, i: nat) {
    && i < |s.pcs| == |lists| && Rising(v) && IsPrefix(s.schema.recorded, v)
    && ListOf(lists[i], v) && Eligible(s.schema.recorded, lists[i])
  }

  /** An eligible instance in the loop gets to the transaction of the next version by its own checks. */
  lemma {:induction false} Climbs(s: State, lists: seq<seq<Migration>>, v: seq<int>, i: nat, k: nat) returns (steps: seq<Step>)
    requires Standing(s, lists, v, i) && s.pcs[i] == Loop(k) && k <= |s.schema.recorded|
    ensures Leads(s, steps, s.(pcs := s.pcs[i := InTx(|s.schema.recorded|)]), lists)
    decreases |s.schema.recorded| - k
  {
    var step := Check(i, true);
    FindInPrefix(s.schema.recorded, v, k);
    LeadsStep(s, step, lists);
    if k == |s.schema.recorded| {
      steps := [step];
    } else {
      var t := s.(pcs := s.pcs[i := Loop(k + 1)]);
      assert Next(s, step, lists) == t;
      var rest := Climbs(t, lists, v, i, k + 1);
      assert t.pcs[i := InTx(|s.schema.recorded|)] == s.pcs[i := InTx(|s.schema.recorded|)];
      LeadsOn(s, [step], t, rest, s.(pcs := s.pcs[i := InTx(|s.schema.recorded|)]), lists);
      steps := [step] + rest;
    }
  }

  /** With the lock free, an eligible instance gets there from wherever it stands, by starting again. */
  lemma {:induction false} Restarts(s: State, lists: seq<seq<Migration>>, v: seq<int>, j: nat) returns (steps: seq<Step>)
    requires Standing(s, lists, v, j) && s.lock.None?
    ensures Leads(s, steps, State(s.schema, Some(j), s.pcs[j := InTx(|s.schema.recorded|)]), lists)
  {
    var s1 := s.(pcs := s.pcs[j := Outside]);
    var s2 := s.(pcs := s.pcs[j := Prepared]);
    var s3 := State(s.schema, Some(j), s.pcs[j := Loop(0)]);
    LeadsStep(s, Crash(j), lists);
    assert Next(s, Crash(j), lists) == s1;
    LeadsStep(s1, Prepare(j, true), lists);
    assert Next(s1, Prepare(j, true), lists) == s2;
    LeadsOn(s, [Crash(j)], s1, [Prepare(j, true)], s2, lists);
    LeadsStep(s2, Lock(j), lists);
    assert Next(s2, Lock(j), lists) == s3;
    LeadsOn(s, [Crash(j)] + [Prepare(j, true)], s2, [Lock(j)], s3, lists);
    var rest := Climbs(s3, lists, v, j, 0);
    var end := State(s.schema, Some(j), s.pcs[j := InTx(|s.schema.recorded|)]);
    assert s3.(pcs := s3.pcs[j := InTx(|s.schema.recorded|)]) == end;
    LeadsOn(s, [Crash(j)] + [Prepare(j, true)] + [Lock(j)], s3, rest, end, lists);
    steps := [Crash(j)] + [Prepare(j, true)] + [Lock(j)] + rest;
  }

  /** Two instances in the transaction of the same version commit it twice. */
  lemma BothCommit(s: State, lists: seq<seq<Migration>>, v: seq<int>, i: nat, j: nat) returns (steps: seq<Step>, t: State)
    requires Standing(s, lists, v, i) && Standing(s, lists, v, j) && i != j
    requires s.pcs[i] == s.pcs[j] == InTx(|s.schema.recorded|)
    ensures Leads(s, steps, t, lists) && !Distinct(t.schema.committed)
  {
    var c, x := s.schema.committed, v[|s.schema.recorded|];
    var s1 := Next(s, Commit(i, Committed), lists);
    t := Next(s1, Commit(j, Committed), lists);
    LeadsStep(s, Commit(i, Committed), lists);
    LeadsStep(s1, Commit(j, Committed), lists);
    LeadsOn(s, [Commit(i, Committed)], s1, [Commit(j, Committed)], t, lists);
    steps := [Commit(i, Committed)] + [Commit(j, Committed)];
    assert t.schema.committed == c + [x] + [x];
    assert t.schema.committed[|c|] == t.schema.committed[|c| + 1];
  }

  /** A continuation that begins with the end of the lock session of `i`, goes on with harmless ones only, and commits a version twice. */
  ghost predicate CommitsTwice(s: State, steps: seq<Step>, lists: seq<seq<Migration>>, i: nat) {
    && steps != [] && steps[0] == LockSessionEnds(i)
    && After(s, steps, |steps|, lists).Some? && AllHarmless(s, steps, 1, |steps|, lists)
    && !Distinct(After(s, steps, |steps|, lists).value.schema.committed)
  }

  ghost predicate MayCommitTwice(s: State, lists: seq<seq<Migration>>, i: nat) {
    exists steps {:trigger CommitsTwice(s, steps, lists, i)} :: CommitsTwice(s, steps, lists, i)
  }

  /** The instance whose session ended, and another eligible one, reach the same transaction. */
  lemma {:induction false} BothGetThere(s: State, lists: seq<seq<Migration>>, v: seq<int>, i: nat, j: nat) returns (steps: seq<Step>, t: State)
    requires Standing(s, lists, v, i) && Standing(s, lists, v, j) && i != j && s.lock.None?
    requires PcOk(s.schema.recorded, lists[i], s.pcs[i], v) && Active(s.pcs[i])
    ensures Leads(s, steps, t, lists) && t.schema == s.schema && |t.pcs| == |s.pcs|
    ensures t.pcs[i] == t.pcs[j] == InTx(|s.schema.recorded|)
  {
    var here := s.(pcs := s.pcs[i := InTx(|s.schema.recorded|)]);
    var front: seq<Step> := [];
    if s.pcs[i].Loop? {
      front := Climbs(s, lists, v, i, s.pcs[i].k);
    } else {
      assert here == s;
    }
    var back := Restarts(here, lists, v, j);
    t := State(s.schema, Some(j), here.pcs[j := InTx(|s.schema.recorded|)]);
    LeadsOn(s, front, here, back, t, lists);
    steps := front + back;
  }

  lemma {:induction false} HarmfulCommitsTwice(s: State, lists: seq<seq<Migration>>, init: seq<Record>, v: seq<int>, i: nat) returns (steps: seq<Step>)
    requires Inv(s, lists, init, v) && CommonVersions(lists, v) && s.lock == Some(i) && i < |s.pcs| && Harmful(s, lists, i)
    ensures CommitsTwice(s, steps, lists, i)
  {
    assert ProcOk(s, lists, v, i);
    var j: nat :| j < |lists| && j != i && Eligible(s.schema.recorded, lists[j]);
    var lost := s.(lock := None);
    var front, there := BothGetThere(lost, lists, v, i, j);
    var back, t := BothCommit(there, lists, v, i, j);
    LeadsOn(lost, front, there, back, t, lists);
    var first := [LockSessionEnds(i)];
    assert After(s, first, 0, lists) == Some(s);
    assert s.pcs[i := s.pcs[i]] == s.pcs;
    assert After(s, first, 1, lists) == Some(lost);
    AfterSplit(s, first, front + back, |front + back|, lists);
    steps := first + (front + back);
  }

  /**
   * Exactly when it matters: from every reachable state, the end of the session that holds the lock lets
   * some version be committed twice if and only if its instance may still commit and so may another one.
   */
  lemma LostSessionIff(s: State, lists: seq<seq<Migration>>, init: seq<Record>, v: seq<int>, i: nat)
    requires Inv(s, lists, init, v) && CommonVersions(lists, v) && s.lock == Some(i) && i < |s.pcs|
    ensures MayCommitTwice(s, lists, i) <==> Harmful(s, lists, i)
  {
    if Harmful(s, lists, i) {
      var steps := HarmfulCommitsTwice(s, lists, init, v, i);
    } else {
      forall steps ensures !CommitsTwice(s, steps, lists, i) {
        if CommitsTwice(s, steps, lists, i) {
          InvIsKept(s, steps, |steps|, lists, init, v);
          assert false;
        }
      }
    }
  }
}
