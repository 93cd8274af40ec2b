/**
 * Every run of evaluations of one rule and device by one engine instance, whose keyed mutex makes them
 * one after the other: what the cached states do to the sustain clock, to the cooldown and to the
 * spacing of alerts. A run starts from whatever earlier ones left in row and cache, and the rule may be
 * edited between evaluations; expiries, failed reads, fills, writes and deletes, crashes, suppression and
 * operators are answers of the evaluations. The clock does not go back.
 */
module AlertRuns {
  import opened Basics
  import opened AlertConditions
  import opened AlertEngine
  import C = AlertStateCache

  /** The cell after the first `n` evaluations, from whatever earlier evaluations and processes left. */
  ghost function After(start: Cell, run: seq<Eval>, n: nat): Cell
    requires n <= |run|
  {
    if n == 0 then start else Round(After(start, run, n - 1), run[n - 1])
  }

  /** What evaluation `i` does. */
  ghost function EffectAt(start: Cell, run: seq<Eval>, i: nat): Effect
    requires i < |run|
  {
    EffectOn(After(start, run, i), run[i])
  }

  ghost function LoadedAt(start: Cell, run: seq<Eval>, i: nat): RuleState
    requires i < |run|
  {
    Loaded(After(start, run, i), run[i])
  }

  ghost predicate Inserts(start: Cell, run: seq<Eval>, i: nat)
    requires i < |run|
  {
    EffectAt(start, run, i).inserted.Some?
  }

  ghost predicate ClockOk(run: seq<Eval>) {
    forall i, j {:trigger NotAfter(run, i, j)} :: 0 <= i <= j < |run| ==> NotAfter(run, i, j)
  }

  ghost predicate NotAfter(run: seq<Eval>, i: nat, j: nat)
    requires i < |run| && j < |run|
  {
    run[i].now <= run[j].now
  }

  /** Evaluations of one rule and device, in order. */
  ghost predicate IsRun(run: seq<Eval>) {
    ClockOk(run) && forall i {:trigger PairOf(run[i])} :: 0 <= i < |run| ==> PairOf(run[i]) == PairOf(run[0])
  }

  // ---------- The cached engine and the engine without a cache ----------------------------

  /** The lookup hits an entry that is not the row. */
  ghost predicate HitsStale(c: Cell, io: StateIO) {
    !io.expired && io.lookup && c.entry.Some? && c.entry != c.row
  }

  /** Whether the read answers, from the cache or from the table. */
  ghost predicate Answers(c: Cell, io: StateIO) {
    ReadCell(c, io).1.Some?
  }

  /** What an evaluation does without a cache, `readOk` saying whether the row can be read. */
  ghost function DirectEffect(row: Option<RuleState>, e: Eval): Effect {
    Outcome(if e.io.readOk then StateOr(row) else IdleState(), e)
  }

  ghost function DirectRow(row: Option<RuleState>, e: Eval): Option<RuleState> {
    var written := DirectEffect(row, e).written;
    if written.Some? && !e.io.write.WriteFailed? then written else row
  }

  ghost function DirectAfter(row: Option<RuleState>, run: seq<Eval>, n: nat): Option<RuleState>
    requires n <= |run|
  {
    if n == 0 then row else DirectRow(DirectAfter(row, run, n - 1), run[n - 1])
  }

  /** `direct` is the run as an engine without a cache sees it: its reads succeed when the cached ones answer, and the rest is the same. */
  ghost predicate WithoutCache(start: Cell, run: seq<Eval>, direct: seq<Eval>) {
    |direct| == |run| && forall i {:trigger SameButRead(start, run, direct, i)} :: 0 <= i < |run| ==> SameButRead(start, run, direct, i)
  }

  ghost predicate SameButRead(start: Cell, run: seq<Eval>, direct: seq<Eval>, i: nat)
    requires i < |run| == |direct|
  {
    direct[i] == run[i].(io := run[i].io.(readOk := Answers(After(start, run, i), run[i].io)))
  }

  lemma RoundIsDirect(c: Cell, e: Eval)
    requires !HitsStale(c, e.io)
    ensures var direct := e.(io := e.io.(readOk := Answers(c, e.io)));
            EffectOn(c, e) == DirectEffect(c.row, direct) && Round(c, e).row == DirectRow(c.row, direct)
  {}

  ghost predicate HitsStaleAt(start: Cell, run: seq<Eval>, i: nat)
    requires i < |run|
  {
    HitsStale(After(start, run, i), run[i].io)
  }

  ghost predicate NoStaleHits(start: Cell, run: seq<Eval>, n: nat)
    requires n <= |run|
  {
    forall i {:trigger HitsStaleAt(start, run, i)} :: 0 <= i < n ==> !HitsStaleAt(start, run, i)
  }

  lemma {:induction false} RowIsDirect(start: Cell, run: seq<Eval>, direct: seq<Eval>, n: nat)
    requires n <= |run| && WithoutCache(start, run, direct) && NoStaleHits(start, run, n)
    ensures After(start, run, n).row == DirectAfter(start.row, direct, n)
  {
    if n > 0 {
      RowIsDirect(start, run, direct, n - 1);
      assert !HitsStaleAt(start, run, n - 1) && SameButRead(start, run, direct, n - 1);
      RoundIsDirect(After(start, run, n - 1), run[n - 1]);
    }
  }

  ghost predicate EffectIsDirect(start: Cell, run: seq<Eval>, direct: seq<Eval>, i: nat)
    requires i < |run| == |direct|
  {
    EffectAt(start, run, i) == DirectEffect(DirectAfter(start.row, direct, i), direct[i])
  }

  /**
   * The cached engine refines the one without a cache, in every run in which no lookup hits a stale entry:
   * the row after any number of evaluations, and what each of them does, are those of that engine.
   */
  lemma CachedRefinesDirect(start: Cell, run: seq<Eval>, direct: seq<Eval>, n: nat)
    requires n <= |run| && WithoutCache(start, run, direct) && NoStaleHits(start, run, n)
    ensures After(start, run, n).row == DirectAfter(start.row, direct, n)
    ensures forall i {:trigger EffectIsDirect(start, run, direct, i)} :: 0 <= i < n ==> EffectIsDirect(start, run, direct, i)
  {
    RowIsDirect(start, run, direct, n);
    forall i | 0 <= i < n ensures EffectIsDirect(start, run, direct, i) {
      RowIsDirect(start, run, direct, i);
      assert !HitsStaleAt(start, run, i) && SameButRead(start, run, direct, i);
      RoundIsDirect(After(start, run, i), run[i]);
    }
  }

  /** The evaluation writes a row and misses the delete that goes with it. */
  ghost predicate MissesDelete(c: Cell, e: Eval) {
    EffectOn(c, e).written.Some? && (e.io.write.WriteReplyLost? || (e.io.write.Written? && !e.io.delete))
  }

  ghost predicate MissesDeleteAt(start: Cell, run: seq<Eval>, i: nat)
    requires i < |run|
  {
    MissesDelete(After(start, run, i), run[i])
  }

  ghost predicate EntryIsRow(c: Cell) {
    c.entry.Some? ==> c.entry == c.row
  }

  lemma RoundKeepsEntry(c: Cell, e: Eval)
    requires EntryIsRow(c) && !MissesDelete(c, e)
    ensures EntryIsRow(Round(c, e)) && !HitsStale(c, e.io)
  {}

  /** From an entry that is the row, only evaluations of this very rule and device that miss their delete lead to such hits. */
  lemma {:induction false} NoMissNoStaleHit(start: Cell, run: seq<Eval>, n: nat)
    requires n <= |run| && EntryIsRow(start) && forall i {:trigger MissesDeleteAt(start, run, i)} :: 0 <= i < n ==> !MissesDeleteAt(start, run, i)
    ensures EntryIsRow(After(start, run, n)) && NoStaleHits(start, run, n)
  {
    if n > 0 {
      NoMissNoStaleHit(start, run, n - 1);
      assert !MissesDeleteAt(start, run, n - 1);
      RoundKeepsEntry(After(start, run, n - 1), run[n - 1]);
    }
  }

  // ---------- States that are too old -----------------------------------------------------

  /** A pending start before `t`. */
  predicate PendingBefore(s: RuleState, t: int) {
    s.status.Pending? && s.firstMetAt.Some? && s.firstMetAt.value < t
  }

  /** The state could fire earlier than its cooldown after `t`. */
  predicate OldAt(s: RuleState, t: int) {
    PendingBefore(s, t) || (s.status.Resolved? && (s.lastResolvedAt.Some? ==> s.lastResolvedAt.value < t))
  }

  /** Neither the row nor the cached entry is a pending state from before `t`. */
  predicate Restarted(c: Cell, t: int) {
    (c.row.Some? ==> !PendingBefore(c.row.value, t)) && (c.entry.Some? ==> !PendingBefore(c.entry.value, t))
  }

  /** Neither of them could fire earlier than its cooldown after `t`. */
  predicate Settled(c: Cell, t: int) {
    (c.row.Some? ==> !OldAt(c.row.value, t)) && (c.entry.Some? ==> !OldAt(c.entry.value, t))
  }

  lemma LoadedIsHeld(c: Cell, e: Eval)
    ensures Loaded(c, e) == IdleState() || c.row == Some(Loaded(c, e)) || c.entry == Some(Loaded(c, e))
  {}

  /** What an evaluation writes is no older than what it loaded. */
  lemma WrittenNotOlder(s: RuleState, e: Eval, t: int)
    requires e.now >= t && Outcome(s, e).written.Some?
    ensures !PendingBefore(s, t) ==> !PendingBefore(Outcome(s, e).written.value, t)
    ensures !OldAt(s, t) ==> !OldAt(Outcome(s, e).written.value, t)
  {}

  lemma RoundKeepsRestarted(c: Cell, e: Eval, t: int)
    requires Restarted(c, t) && e.now >= t
    ensures Restarted(Round(c, e), t)
  {
    LoadedIsHeld(c, e);
    if EffectOn(c, e).written.Some? { WrittenNotOlder(Loaded(c, e), e, t); }
  }

  lemma RoundKeepsSettled(c: Cell, e: Eval, t: int)
    requires Settled(c, t) && e.now >= t
    ensures Settled(Round(c, e), t)
  {
    LoadedIsHeld(c, e);
    if EffectOn(c, e).written.Some? { WrittenNotOlder(Loaded(c, e), e, t); }
  }

  /** A row may be inserted: out of a state pending for the sustained duration, or resolved for the cooldown. */
  ghost predicate MayFire(s: RuleState, e: Eval) {
    || (s.status.Pending? && s.firstMetAt.Some? && e.now >= s.firstMetAt.value + MICROS * Sustained(e.rule))
    || (s.status.Resolved? && (s.lastResolvedAt.Some? ==> e.now >= s.lastResolvedAt.value + MICROS * e.rule.cooldownSec))
  }

  /** Exactly when an evaluation that has loaded `s` inserts a row. */
  lemma InsertFrom(s: RuleState, e: Eval)
    ensures Outcome(s, e).inserted.Some? <==>
              && IsTriggered(e) && MayFire(s, e) && e.active.None? && !IsSuppressed(e)
              && (e.create.Created? || e.create.InsertedUnread?)
  {}

  lemma FiresLate(s: RuleState, e: Eval, t: int)
    requires Outcome(s, e).inserted.Some? && !OldAt(s, t)
    ensures e.now >= t + MICROS * e.rule.cooldownSec
  {
    InsertFrom(s, e);
    SustainedIsMax(e.rule, |e.rule.conditions|);
  }

  /** From an old state, once the rule of `last` is edited to a cooldown of one second, an alert comes within that second of `t`. */
  lemma OldFires(c: Cell, last: Eval, t: int, fromEntry: bool) returns (e: Eval)
    requires if fromEntry then c.entry.Some? && OldAt(c.entry.value, t) else c.row.Some? && OldAt(c.row.value, t)
    ensures PairOf(e) == PairOf(last) && e.now >= t && EffectOn(c, e).inserted.Some? && e.now - t < MICROS * e.rule.cooldownSec
    ensures Loaded(c, e) == if fromEntry then c.entry.value else c.row.value
  {
    var condition := Condition(Threshold, ResponseTime, Gt, "", Some(0.0), 0);
    var rule := last.rule.(conditions := [condition], all := false, cooldownSec := 1);
    var inputs := Inputs(Metric(0, "", map[ResponseTime := 1.0], None), map[], 0);
    var io := StateIO(false, fromEntry, true, false, C.Written, true);
    var checks := Checks(NoTopologyCheck, NoMaintenanceCheck, false);
    e := Eval(rule, last.device, inputs, t + MICROS - 1, false, io, None, checks, Created(0), None, true);
    assert EvaluateCondition(rule.conditions[0], inputs);
    assert SustainedUpTo(rule, 0) == 1 && Sustained(rule) == 1;
    InsertFrom(Loaded(c, e), e);
  }

  lemma {:induction false} AfterPrefix(start: Cell, run: seq<Eval>, more: seq<Eval>, n: nat)
    requires n <= |run|
    ensures After(start, run + more, n) == After(start, run, n)
  {
    if n > 0 { AfterPrefix(start, run, more, n - 1); }
  }

  // ---------- Sustained before firing -----------------------------------------------------

  ghost predicate NoPending(c: Cell) {
    (c.row.Some? ==> !c.row.value.status.Pending?) && (c.entry.Some? ==> !c.entry.value.status.Pending?)
  }

  /** Evaluation `k` leaves a pending state behind, in the row or in the cache. */
  ghost predicate LeavesPending(start: Cell, run: seq<Eval>, k: nat)
    requires k < |run|
  {
    !NoPending(After(start, run, k + 1))
  }

  predicate Holds(c: Cell, s: RuleState) {
    c.row == Some(s) || c.entry == Some(s)
  }

  /** The start of `s` was set by the triggered evaluation `i`, and every clearing since left some pending state behind. */
  ghost predicate StartedAt(start: Cell, run: seq<Eval>, s: RuleState, i: nat, n: nat)
    requires n <= |run|
  {
    && i < n && IsTriggered(run[i]) && s.firstMetAt == Some(run[i].now)
    && (forall k {:trigger LeavesPending(start, run, k)} :: i < k < n ==> IsTriggered(run[k]) || LeavesPending(start, run, k))
  }

  lemma HeldFrom(c: Cell, e: Eval, s: RuleState)
    requires Holds(Round(c, e), s) && s.status.Pending?
    ensures !NoPending(Round(c, e)) && (Holds(c, s) || (IsTriggered(e) && s.firstMetAt == Some(e.now)))
  {
    LoadedIsHeld(c, e);
  }

  /** Every pending state that row or entry ever holds goes back to the evaluation that set its start. */
  lemma {:induction false} PendingHistory(start: Cell, run: seq<Eval>, n: nat, s: RuleState) returns (i: nat)
    requires n <= |run| && NoPending(start) && s.status.Pending? && Holds(After(start, run, n), s)
    ensures StartedAt(start, run, s, i, n)
  {
    i := n - 1;
    HeldFrom(After(start, run, n - 1), run[n - 1], s);
    if Holds(After(start, run, n - 1), s) {
      i := PendingHistory(start, run, n - 1, s);
      assert LeavesPending(start, run, n - 1);
    }
  }

  /**
   * An alert created out of pending goes back to a triggered evaluation at least the longest duration
   * earlier; every evaluation in between was triggered, or cleared but left a pending state behind in
   * the row or in the cache.
   */
  lemma {:induction false} SustainedBeforeFiring(start: Cell, run: seq<Eval>, j: nat) returns (i: nat)
    requires j < |run| && NoPending(start) && Inserts(start, run, j) && LoadedAt(start, run, j).status.Pending?
    ensures StartedAt(start, run, LoadedAt(start, run, j), i, j) && IsTriggered(run[j])
    ensures IsSustained(run[j].rule, Sustained(run[j].rule))
    ensures run[j].now - run[i].now >= MICROS * Sustained(run[j].rule)
  {
    LoadedIsHeld(After(start, run, j), run[j]);
    InsertFrom(LoadedAt(start, run, j), run[j]);
    i := PendingHistory(start, run, j, LoadedAt(start, run, j));
    SustainedIsMax(run[j].rule, |run[j].rule.conditions|);
  }

  /** So the condition held throughout exactly when each clearing in between left no pending state behind. */
  lemma {:induction false} SustainedExactly(start: Cell, run: seq<Eval>, j: nat) returns (i: nat)
    requires j < |run| && NoPending(start) && Inserts(start, run, j) && LoadedAt(start, run, j).status.Pending?
    ensures i < j && LoadedAt(start, run, j).firstMetAt == Some(run[i].now)
    ensures run[j].now - run[i].now >= MICROS * Sustained(run[j].rule)
    ensures (forall k :: i <= k <= j ==> IsTriggered(run[k])) <==> (forall k :: i < k < j ==> IsTriggered(run[k]) || !LeavesPending(start, run, k))
  {
    i := SustainedBeforeFiring(start, run, j);
  }

  /** The last of the evaluations `more` after `run` fires out of a pending state from before the end of `run`. */
  ghost predicate FiresAcross(start: Cell, run: seq<Eval>, more: seq<Eval>)
    requires run != []
  {
    var last := |run| + |more| - 1;
    more != [] && IsRun(run + more) && Inserts(start, run + more, last) && PendingBefore(LoadedAt(start, run + more, last), run[|run| - 1].now)
  }

  /** However the run goes on. */
  ghost predicate NeverFiresAcross(start: Cell, run: seq<Eval>)
    requires run != []
  {
    forall more {:trigger FiresAcross(start, run, more)} :: !FiresAcross(start, run, more)
  }

  lemma {:induction false} RestartedStays(start: Cell, run: seq<Eval>, m: nat, n: nat)
    requires 0 < m <= n <= |run| && ClockOk(run) && Restarted(After(start, run, m), run[m - 1].now)
    ensures Restarted(After(start, run, n), run[m - 1].now)
    decreases n
  {
    if m < n {
      RestartedStays(start, run, m, n - 1);
      assert NotAfter(run, m - 1, n - 1);
      RoundKeepsRestarted(After(start, run, n - 1), run[n - 1], run[m - 1].now);
    }
  }

  lemma OneMore(start: Cell, run: seq<Eval>, e: Eval)
    requires run != [] && IsRun(run) && PairOf(e) == PairOf(run[|run| - 1]) && e.now >= run[|run| - 1].now
    ensures IsRun(run + [e]) && After(start, run + [e], |run|) == After(start, run, |run|)
  {
    AfterPrefix(start, run, [e], |run|);
    var n, all := |run|, run + [e];
    forall i, j | 0 <= i <= j < |all| ensures NotAfter(all, i, j) {
      assert NotAfter(run, if i < n then i else n - 1, if j < n then j else n - 1);
    }
    forall i | 0 <= i < |all| ensures PairOf(all[i]) == PairOf(all[0]) {
      assert PairOf(run[if i < n then i else n - 1]) == PairOf(run[0]);
    }
  }

  /** After evaluation `i` neither the row nor the entry is a pending state from before it. */
  ghost predicate RestartedAt(start: Cell, run: seq<Eval>, i: nat)
    requires i < |run|
  {
    Restarted(After(start, run, i + 1), run[i].now)
  }

  lemma RestartedAcross(start: Cell, run: seq<Eval>, i: nat, j: nat)
    requires i < j < |run| && ClockOk(run) && RestartedAt(start, run, i)
    ensures !PendingBefore(LoadedAt(start, run, j), run[i].now)
  {
    RestartedStays(start, run, i + 1, j);
    LoadedIsHeld(After(start, run, j), run[j]);
  }

  lemma RestartedPrefix(start: Cell, run: seq<Eval>, more: seq<Eval>)
    requires run != []
    ensures RestartedAt(start, run + more, |run| - 1) == RestartedAt(start, run, |run| - 1)
  {
    AfterPrefix(start, run, more, |run|);
  }

  lemma RestartedNeverFires(start: Cell, run: seq<Eval>, more: seq<Eval>)
    requires run != [] && RestartedAt(start, run, |run| - 1)
    ensures !FiresAcross(start, run, more)
  {
    if more != [] && IsRun(run + more) {
      RestartedPrefix(start, run, more);
      RestartedAcross(start, run + more, |run| - 1, |run| + |more| - 1);
    }
  }

  lemma UnrestartedFires(start: Cell, run: seq<Eval>) returns (more: seq<Eval>)
    requires run != [] && IsRun(run) && !RestartedAt(start, run, |run| - 1)
    ensures FiresAcross(start, run, more)
  {
    var c, t := After(start, run, |run|), run[|run| - 1].now;
    var e := OldFires(c, run[|run| - 1], t, c.entry.Some? && PendingBefore(c.entry.value, t));
    OneMore(start, run, e);
    more := [e];
  }

  /**
   * When an evaluation, a clearing say, has surely restarted the clock: no continuation fires out of a
   * pending state from before it if and only if neither the row nor the entry holds such a state.
   */
  lemma NeverFiresAcrossIff(start: Cell, run: seq<Eval>)
    requires run != [] && IsRun(run)
    ensures NeverFiresAcross(start, run) <==> RestartedAt(start, run, |run| - 1)
  {
    if RestartedAt(start, run, |run| - 1) {
      forall more ensures !FiresAcross(start, run, more) {
        RestartedNeverFires(start, run, more);
      }
    } else {
      var more := UnrestartedFires(start, run);
    }
  }

  /**
   * A clearing that has read an earlier pending state restarts the clock for sure exactly when its write
   * takes effect and no entry from before it that is pending is left in the cache.
   */
  lemma ClearingRestartsIff(c: Cell, e: Eval)
    requires !IsTriggered(e) && PendingBefore(Loaded(c, e), e.now)
    ensures Restarted(Round(c, e), e.now) <==>
              && !e.io.write.WriteFailed?
              && ((e.io.write.Written? && e.io.delete)
                  || (ReadCell(c, e.io).0.entry.Some? ==> !PendingBefore(ReadCell(c, e.io).0.entry.value, e.now)))
  {}

  /** A clearing whose read does not answer goes unnoticed: the pending row fires as if sustained. */
  lemma UnnoticedClearing(c: Cell, e: Eval, f: Eval)
    requires c.row.Some? && c.row.value.status.Pending? && !IsTriggered(e) && !e.io.lookup && !e.io.readOk
    requires !f.io.lookup && f.io.readOk && IsTriggered(f) && SustainedLongEnough(c.row.value, f)
    requires f.active.None? && !IsSuppressed(f) && f.create.Created?
    ensures EffectOn(Round(c, e), f).inserted.Some?
  {}

  /** A clearing that reads and writes but whose delete fails is undone by the next lookup: the stale pending state fires. */
  lemma StaleClearing(c: Cell, e: Eval, f: Eval)
    requires c.row.Some? && c.row == c.entry && c.row.value.status.Pending? && !IsTriggered(e)
    requires !e.io.expired && e.io.lookup && e.io.write.Written? && !e.io.delete && !f.io.expired && f.io.lookup
    requires IsTriggered(f) && SustainedLongEnough(c.row.value, f) && f.active.None? && !IsSuppressed(f) && f.create.Created?
    ensures Round(c, e).row == Some(IdleState()) && EffectOn(Round(c, e), f).inserted.Some?
  {}

  /** A suppressed firing restarts the clock too: when it is stored, the next triggered evaluation sets a new start. */
  lemma SuppressionRestarts(c: Cell, e: Eval, next: Eval)
    requires IsTriggered(e) && Loaded(c, e).status.Pending? && SustainedLongEnough(Loaded(c, e), e) && e.active.None? && IsSuppressed(e)
    requires e.io.write.Written? && e.io.delete && IsTriggered(next) && next.io.write.Written?
    ensures Round(c, e) == Cell(Some(Loaded(c, e).(status := Idle)), None)
    ensures Round(Round(c, e), next).row == Some(RuleState(Pending, Some(next.now), None, None, None))
  {}

  // ---------- Cooldown --------------------------------------------------------------------

  lemma {:induction false} SettledStays(start: Cell, run: seq<Eval>, m: nat, n: nat)
    requires 0 < m <= n <= |run| && ClockOk(run) && Settled(After(start, run, m), run[m - 1].now)
    ensures Settled(After(start, run, n), run[m - 1].now)
    decreases n
  {
    if m < n {
      SettledStays(start, run, m, n - 1);
      assert NotAfter(run, m - 1, n - 1);
      RoundKeepsSettled(After(start, run, n - 1), run[n - 1], run[m - 1].now);
    }
  }

  /** After evaluation `i` neither the row nor the entry holds a state that could fire earlier than its cooldown after it. */
  ghost predicate SettledAt(start: Cell, run: seq<Eval>, i: nat)
    requires i < |run|
  {
    Settled(After(start, run, i + 1), run[i].now)
  }

  /**
   * In every run, whatever operators do to the alerts, whichever firings are suppressed and whichever
   * accesses to the states fail, an alert comes at least its rule's cooldown after a settled evaluation and
   * all those before it: after every earlier alert, if the last one before it was settled.
   */
  lemma CooldownSpacing(start: Cell, run: seq<Eval>, i: nat, l: nat, j: nat)
    requires i <= l < j < |run| && ClockOk(run) && SettledAt(start, run, l) && Inserts(start, run, j)
    ensures run[j].now - run[i].now >= MICROS * run[j].rule.cooldownSec
  {
    SettledStays(start, run, l + 1, j);
    LoadedIsHeld(After(start, run, j), run[j]);
    FiresLate(LoadedAt(start, run, j), run[j], run[l].now);
    assert NotAfter(run, i, l);
  }

  /**
   * When an insertion is settled: exactly when its row was read back, its state was written, and no entry
   * from before it that could fire is left in the cache, because the delete arrived or there was none.
   */
  lemma SettledIff(c: Cell, e: Eval)
    requires EffectOn(c, e).inserted.Some? && e.rule.cooldownSec > 0
    ensures Settled(Round(c, e), e.now) <==>
              && e.create.Created? && !e.io.write.WriteFailed?
              && ((e.io.write.Written? && e.io.delete)
                  || (ReadCell(c, e.io).0.entry.Some? ==> !OldAt(ReadCell(c, e.io).0.entry.value, e.now)))
  {
    InsertFrom(Loaded(c, e), e);
    SustainedIsMax(e.rule, |e.rule.conditions|);
  }

  /** If the last of the evaluations `more` after `run` inserts a row, it keeps its cooldown to the end of `run`. */
  ghost predicate NextSpaced(start: Cell, run: seq<Eval>, more: seq<Eval>)
    requires run != []
  {
    more != [] && IsRun(run + more) && Inserts(start, run + more, |run| + |more| - 1) ==>
      more[|more| - 1].now - run[|run| - 1].now >= MICROS * more[|more| - 1].rule.cooldownSec
  }

  /** However the run goes on. */
  ghost predicate SureSpaced(start: Cell, run: seq<Eval>)
    requires run != []
  {
    forall more {:trigger NextSpaced(start, run, more)} :: NextSpaced(start, run, more)
  }

  lemma SettledPrefix(start: Cell, run: seq<Eval>, more: seq<Eval>)
    requires run != []
    ensures SettledAt(start, run + more, |run| - 1) == SettledAt(start, run, |run| - 1)
  {
    AfterPrefix(start, run, more, |run|);
  }

  lemma SettledSpaces(start: Cell, run: seq<Eval>, more: seq<Eval>)
    requires run != [] && SettledAt(start, run, |run| - 1)
    ensures NextSpaced(start, run, more)
  {
    if more != [] && IsRun(run + more) && Inserts(start, run + more, |run| + |more| - 1) {
      SettledPrefix(start, run, more);
      CooldownSpacing(start, run + more, |run| - 1, |run| - 1, |run| + |more| - 1);
    }
  }

  /**
   * The condition is exact: every later alert, in every continuation of the run, keeps its cooldown to the
   * end of the run if and only if the last evaluation is settled.
   */
  lemma SpacedIff(start: Cell, run: seq<Eval>)
    requires run != [] && IsRun(run)
    ensures SureSpaced(start, run) <==> SettledAt(start, run, |run| - 1)
  {
    var c, t := After(start, run, |run|), run[|run| - 1].now;
    if SettledAt(start, run, |run| - 1) {
      forall more ensures NextSpaced(start, run, more) {
        SettledSpaces(start, run, more);
      }
    } else {
      var e := OldFires(c, run[|run| - 1], t, c.entry.Some? && OldAt(c.entry.value, t));
      OneMore(start, run, e);
      assert !NextSpaced(start, run, [e]);
    }
  }

  /** An alert that was read back and stored, but whose delete failed: the next lookup fires again, however soon. */
  lemma StaleRefires(c: Cell, e: Eval, f: Eval)
    requires c.row.Some? && c.row == c.entry && c.row.value.status.Resolved? && MayFire(c.row.value, e) && IsTriggered(e)
    requires e.active.None? && !IsSuppressed(e) && e.create.Created?
    requires !e.io.expired && e.io.lookup && e.io.write.Written? && !e.io.delete && !f.io.expired && f.io.lookup
    requires f.rule == e.rule && f.now >= e.now && IsTriggered(f) && f.active.None? && !IsSuppressed(f) && f.create.Created?
    ensures EffectOn(c, e).handedOff.Some? && Round(c, e).row.value.status.Notified?
    ensures EffectOn(Round(c, e), f).handedOff.Some?
  {}

  predicate RowSettled(c: Cell, t: int) {
    c.row.Some? ==> !OldAt(c.row.value, t)
  }

  lemma RoundKeepsRowSettled(c: Cell, e: Eval, t: int)
    requires RowSettled(c, t) && !HitsStale(c, e.io) && e.now >= t
    ensures RowSettled(Round(c, e), t) && !OldAt(Loaded(c, e), t)
  {
    if EffectOn(c, e).written.Some? { WrittenNotOlder(Loaded(c, e), e, t); }
  }

  lemma {:induction false} RowSettledStays(start: Cell, run: seq<Eval>, l: nat, n: nat)
    requires l < n <= |run| && ClockOk(run) && RowSettled(After(start, run, l + 1), run[l].now)
    requires forall k {:trigger HitsStaleAt(start, run, k)} :: l < k < n ==> !HitsStaleAt(start, run, k)
    ensures RowSettled(After(start, run, n), run[l].now)
  {
    if l + 1 < n {
      RowSettledStays(start, run, l, n - 1);
      assert NotAfter(run, l, n - 1) && !HitsStaleAt(start, run, n - 1);
      RoundKeepsRowSettled(After(start, run, n - 1), run[n - 1], run[l].now);
    }
  }

  /**
   * Within one run, a stale entry matters only when it is hit: an alert that was read back and stored keeps
   * the next one at least the cooldown away when no lookup since then hits a stale entry.
   */
  lemma SpacedWithoutStaleHits(start: Cell, run: seq<Eval>, i: nat, j: nat)
    requires i < j < |run| && ClockOk(run) && Inserts(start, run, i) && Inserts(start, run, j)
    requires run[i].create.Created? && !run[i].io.write.WriteFailed?
    requires forall k {:trigger HitsStaleAt(start, run, k)} :: i < k <= j ==> !HitsStaleAt(start, run, k)
    ensures run[j].now - run[i].now >= MICROS * run[j].rule.cooldownSec
  {
    InsertedIsSettled(After(start, run, i), run[i]);
    RowSettledStays(start, run, i, j);
    assert NotAfter(run, i, j) && !HitsStaleAt(start, run, j);
    RoundKeepsRowSettled(After(start, run, j), run[j], run[i].now);
    FiresLate(LoadedAt(start, run, j), run[j], run[i].now);
  }

  lemma InsertedIsSettled(c: Cell, e: Eval)
    requires EffectOn(c, e).inserted.Some? && e.create.Created? && !e.io.write.WriteFailed?
    ensures RowSettled(Round(c, e), e.now)
  {}

  // ---------- Resolving -------------------------------------------------------------------

  /** The row says that this alert is active. */
  predicate NamesAlert(c: Cell, alert: Id) {
    && c.row.Some? && c.row.value.activeAlert == Some(alert)
    && (c.row.value.status.Firing? || c.row.value.status.Notified? || c.row.value.status.Acknowledged?)
  }

  /** A triggered evaluation has read the row, or a clearing has not, or one has that does not resolve; or nothing could be written. */
  ghost predicate LeavesFired(c: Cell, e: Eval) {
    e.io.write.WriteFailed? || (if Answers(c, e.io) then IsTriggered(e) || !e.rule.autoResolve else !IsTriggered(e))
  }

  /**
   * Exactly when an evaluation leaves the row of an active alert as it is. A triggered one that cannot read it
   * forgets the alert: it writes a pending state over it.
   */
  lemma FiredRowStaysIff(c: Cell, e: Eval, alert: Id)
    requires NamesAlert(c, alert) && !HitsStale(c, e.io)
    ensures Round(c, e).row == c.row <==> LeavesFired(c, e)
    ensures IsTriggered(e) && !Answers(c, e.io) && !e.io.write.WriteFailed? ==> Round(c, e).row == Some(RuleState(Pending, Some(e.now), None, None, None))
  {}

  /** From evaluation `m` up to, not including, `n`, no lookup hits a stale entry and each leaves the row of an active alert as it is. */
  ghost predicate Undisturbed(start: Cell, run: seq<Eval>, m: nat, n: nat)
    requires n <= |run|
  {
    forall k {:trigger UndisturbedAt(start, run, k)} :: m <= k < n ==> UndisturbedAt(start, run, k)
  }

  ghost predicate UndisturbedAt(start: Cell, run: seq<Eval>, k: nat)
    requires k < |run|
  {
    !HitsStaleAt(start, run, k) && LeavesFired(After(start, run, k), run[k])
  }

  lemma {:induction false} NamesAlertStays(start: Cell, run: seq<Eval>, m: nat, n: nat, alert: Id)
    requires m <= n <= |run| && NamesAlert(After(start, run, m), alert) && Undisturbed(start, run, m, n)
    ensures NamesAlert(After(start, run, n), alert)
    decreases n
  {
    if m < n {
      NamesAlertStays(start, run, m, n - 1, alert);
      assert UndisturbedAt(start, run, n - 1);
      FiredRowStaysIff(After(start, run, n - 1), run[n - 1], alert);
    }
  }

  /** Evaluation `j` has read a state and finds that the condition of an auto-resolving rule no longer holds. */
  ghost predicate SeesClearing(start: Cell, run: seq<Eval>, j: nat)
    requires j < |run|
  {
    !HitsStaleAt(start, run, j) && Answers(After(start, run, j), run[j].io) && !IsTriggered(run[j]) && run[j].rule.autoResolve
  }

  /**
   * Once a row says that an alert is active, the first clearing of an auto-resolving rule that reads the row writes
   * resolved as of that moment and resolves that very alert, if the update succeeds.
   */
  lemma ActiveAlertIsResolved(start: Cell, run: seq<Eval>, m: nat, j: nat, alert: Id)
    requires m <= j < |run| && NamesAlert(After(start, run, m), alert) && Undisturbed(start, run, m, j) && SeesClearing(start, run, j)
    ensures EffectAt(start, run, j) == Effect(Some(RuleState(Resolved, None, None, Some(run[j].now), None)), None, None, if run[j].resolveOk then Some(alert) else None, None)
  {
    NamesAlertStays(start, run, m, j, alert);
    ClearingTable(LoadedAt(start, run, j), run[j]);
  }

  /** Exactly: a clearing that is seen resolves an alert if and only if the row says at that moment that it is active, and the update succeeds. */
  lemma SeenClearingResolvesIff(start: Cell, run: seq<Eval>, j: nat, alert: Id)
    requires j < |run| && SeesClearing(start, run, j)
    ensures EffectAt(start, run, j).autoResolved == Some(alert) <==> run[j].resolveOk && NamesAlert(After(start, run, j), alert)
  {
    ClearingTable(LoadedAt(start, run, j), run[j]);
  }

  /** A forgotten alert: after a triggered evaluation that cannot read the row, the clearing that comes next resolves nothing. */
  lemma ForgottenIsNotResolved(c: Cell, e: Eval, f: Eval, alert: Id)
    requires NamesAlert(c, alert) && IsTriggered(e) && !Answers(c, e.io) && !e.io.write.WriteFailed?
    requires !IsTriggered(f) && !HitsStale(Round(c, e), f.io)
    ensures EffectOn(Round(c, e), f).autoResolved.None?
  {}

  /** So an alert that was created, read back and stored is resolved by the next clearing that is seen. */
  lemma CreatedAlertIsResolved(start: Cell, run: seq<Eval>, i: nat, j: nat)
    requires i < j < |run| && Inserts(start, run, i) && run[i].create.Created? && !run[i].io.write.WriteFailed?
    requires Undisturbed(start, run, i + 1, j) && SeesClearing(start, run, j)
    ensures EffectAt(start, run, i).handedOff == Some(run[i].create.id)
    ensures EffectAt(start, run, j).autoResolved == if run[j].resolveOk then Some(run[i].create.id) else None
    ensures EffectAt(start, run, j).written == Some(RuleState(Resolved, None, None, Some(run[j].now), None))
  {
    InsertFrom(LoadedAt(start, run, i), run[i]);
    ActiveAlertIsResolved(start, run, i + 1, j, run[i].create.id);
  }

  /** A found alert that is taken over is resolved in the same way. */
  lemma TakenOverAlertIsResolved(start: Cell, run: seq<Eval>, i: nat, j: nat)
    requires i < j < |run| && IsTriggered(run[i]) && IsDue(LoadedAt(start, run, i), run[i]) && run[i].active.Some? && !run[i].io.write.WriteFailed?
    requires Undisturbed(start, run, i + 1, j) && SeesClearing(start, run, j)
    ensures EffectAt(start, run, j).autoResolved == if run[j].resolveOk then run[i].active else None
  {
    FiringTable(LoadedAt(start, run, i), run[i]);
    ActiveAlertIsResolved(start, run, i + 1, j, run[i].active.value);
  }

  // ---------- Window ----------------------------------------------------------------------

  /** Of the evaluations from `from` up to, not including, `end`: an insertion that another one follows is settled. */
  ghost predicate SettledIn(start: Cell, run: seq<Eval>, from: nat, end: nat)
    requires end <= |run|
  {
    forall k, j {:trigger SettledAt(start, run, k), Inserts(start, run, j)} ::
      from <= k < j < end && Inserts(start, run, k) && Inserts(start, run, j) ==> SettledAt(start, run, k)
  }

  ghost predicate CooldownAtLeast(start: Cell, run: seq<Eval>, from: nat, end: nat, cooldown: int)
    requires end <= |run|
  {
    forall k {:trigger Inserts(start, run, k)} :: from <= k < end && Inserts(start, run, k) ==> run[k].rule.cooldownSec >= cooldown
  }

  /** The number of rows inserted by the evaluations from `from` up to, not including, `end`. */
  ghost function InsertsIn(start: Cell, run: seq<Eval>, from: nat, end: nat): nat
    requires end <= |run|
    decreases end
  {
    if end <= from then 0 else InsertsIn(start, run, from, end - 1) + if Inserts(start, run, end - 1) then 1 else 0
  }

  /** `last` is an insertion of the stretch, and the stretch up to it is long enough for `n` of them. */
  ghost predicate Spans(start: Cell, run: seq<Eval>, from: nat, end: nat, last: nat, n: nat, gap: int)
    requires end <= |run|
  {
    from <= last < end && Inserts(start, run, last) && run[last].now - run[from].now >= (n - 1) * gap
  }

  lemma {:induction false} InsertsSpan(start: Cell, run: seq<Eval>, from: nat, end: nat, cooldown: int) returns (last: nat)
    requires from < end <= |run| && ClockOk(run) && cooldown >= 0
    requires SettledIn(start, run, from, end) && CooldownAtLeast(start, run, from, end, cooldown)
    ensures last < end
    ensures InsertsIn(start, run, from, end) > 0 ==> Spans(start, run, from, end, last, InsertsIn(start, run, from, end), MICROS * cooldown)
    decreases end
  {
    var e, gap := end - 1, MICROS * cooldown;
    last := e;
    if e > from {
      var before := InsertsSpan(start, run, from, e, cooldown);
      var n := InsertsIn(start, run, from, e);
      if !Inserts(start, run, e) {
        last := before;
      } else if n > 0 {
        assert SettledAt(start, run, before);
        CooldownSpacing(start, run, before, before, e);
        MoreSpan(n, gap);
      } else {
        assert NotAfter(run, from, e);
      }
    } else {
      assert InsertsIn(start, run, from, e) == 0;
    }
  }

  lemma MoreSpan(n: int, c: int)
    ensures n * c == (n - 1) * c + c
  {}

  /** A stretch of evaluations that spans `w` microseconds creates at most 1 + w / cooldown alerts. */
  lemma WindowBound(start: Cell, run: seq<Eval>, from: nat, end: nat, cooldown: int)
    requires from < end <= |run| && ClockOk(run) && cooldown > 0
    requires SettledIn(start, run, from, end) && CooldownAtLeast(start, run, from, end, cooldown)
    ensures InsertsIn(start, run, from, end) <= 1 + (run[end - 1].now - run[from].now) / (MICROS * cooldown)
  {
    var last := InsertsSpan(start, run, from, end, cooldown);
    assert NotAfter(run, from, end - 1) && NotAfter(run, last, end - 1);
    Window(InsertsIn(start, run, from, end), MICROS * cooldown, run[end - 1].now - run[from].now, run[last].now - run[from].now);
  }

  lemma Window(n: int, c: int, w: int, v: int)
    requires c > 0 && w >= 0 && (n > 0 ==> (n - 1) * c <= v <= w)
    ensures n <= 1 + w / c
  {
    var q := w / c;
    assert w == q * c + w % c;
    if n > 0 {
      var k := q + 1 - (n - 1);
      assert k * c == q * c + c - (n - 1) * c;
      Sign(k, c);
    } else {
      assert q >= 0;
    }
  }

  lemma Sign(k: int, c: int)
    requires c > 0
    ensures k <= 0 ==> k * c <= 0
  {}
}
