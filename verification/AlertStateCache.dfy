/**
 * The keyed mutex of the alert engine and, under it, the read-through cache of alert states that
 * is invalidated on write. One engine instance, which may crash and start again over the table and the
 * cache it left; cache entries may expire at any moment.
 */
module AlertStateCache {
  import opened Basics

  // ---------- The mutex table as an object ------------------------------------------

  class Mutex {
    constructor () {}
  }

  class KeyedMutex<K(==, !new)> {
    var locks: map<K, Mutex>

    ghost predicate Valid()
      reads this
    {
      forall a, b :: a in locks && b in locks && a != b ==> locks[a] != locks[b]
    }

    constructor ()
      ensures Valid() && locks == map[]
    {
      locks := map[];
    }

    /** The mutex of `key`, made on first use. Mutexes are never removed. */
    method Get(key: K) returns (l: Mutex)
      requires Valid()
      modifies this
      ensures Valid() && key in locks && locks[key] == l
      ensures key in old(locks) ==> locks == old(locks)
      ensures key !in old(locks) ==> fresh(l) && locks == old(locks)[key := l]
    {
      if key !in locks {
        l := new Mutex();
        locks := locks[key := l];
      } else {
        l := locks[key];
      }
    }
  }

  // ---------- Threads and locks --------------------------------------------------------

  /** What the thread that holds a key is doing with its state; None stands for a missing row. */
  datatype Op<S> =
    | Free
    | LookingUp
    | Missed
    | Filling(v: Option<S>)
    | Answered(v: Option<S>)
    | ReadFailed
    | Writing(s: S)
    | Deleting

  predicate Resting<S>(op: Op<S>) {
    op.Free? || op.Answered? || op.ReadFailed?
  }

  datatype Thread<K, S> = Outside | Wanting(key: K) | Waiting(key: K, mutex: nat) | Holding(key: K, mutex: nat, op: Op<S>)

  /** `locks` maps a key to its mutex, `owner` a locked mutex to its thread. */
  datatype LockTable<K> = LockTable(locks: map<K, nat>, mutexes: nat, owner: map<nat, nat>)

  datatype Store<K, S> = Store(table: map<K, S>, cache: map<K, S>)

  datatype State<K, S> = State(l: LockTable<K>, store: Store<K, S>, threads: seq<Thread<K, S>>)

  /** Calling lock, getting the key's mutex from the table, locking it, unlocking it. */
  datatype LockStep<K> = Call(key: K) | GetMutex | Acquire | Release

  /** A write of the table may take effect with its reply lost; the caller then sees a failure and deletes nothing. */
  datatype WriteAnswer = Written | WriteReplyLost | WriteFailed

  /** Reading: cache, table, fill. Writing: table, delete the entry. */
  datatype Work<S> =
    | StartRead
    | StartWrite(s: S)
    | LookUp(reachable: bool)
    | ReadTable(ok: bool)
    | Fill(reachable: bool)
    | WriteTable(answer: WriteAnswer)
    | DeleteEntry(reachable: bool)

  /** After a crash no mutex and no thread is left. */
  datatype Step<K, S> = Locks(t: nat, lockStep: LockStep<K>) | Works(t: nat, work: Work<S>) | Expire(key: K) | Crash

  function Row<K, S>(m: map<K, S>, k: K): Option<S> {
    if k in m then Some(m[k]) else None
  }

  predicate LockEnabled<K, S>(l: LockTable<K>, th: Thread<K, S>, step: LockStep<K>) {
    match step
    case Call(_) => th.Outside?
    case GetMutex => th.Wanting?
    case Acquire => th.Waiting? && th.mutex !in l.owner
    case Release => th.Holding? && Resting(th.op)
  }

  function LockNext<K, S>(l: LockTable<K>, t: nat, th: Thread<K, S>, step: LockStep<K>): (LockTable<K>, Thread<K, S>)
    requires LockEnabled(l, th, step)
  {
    match step
    case Call(key) => (l, Wanting(key))
    case GetMutex =>
      if th.key in l.locks then (l, Waiting(th.key, l.locks[th.key]))
      else (l.(locks := l.locks[th.key := l.mutexes], mutexes := l.mutexes + 1), Waiting(th.key, l.mutexes))
    case Acquire => (l.(owner := l.owner[th.mutex := t]), Holding(th.key, th.mutex, Free))
    case Release => (l.(owner := l.owner - {th.mutex}), Outside)
  }

  predicate WorkEnabled<S>(op: Op<S>, work: Work<S>) {
    match work
    case StartRead => Resting(op)
    case StartWrite(_) => Resting(op)
    case LookUp(_) => op.LookingUp?
    case ReadTable(_) => op.Missed?
    case Fill(_) => op.Filling?
    case WriteTable(_) => op.Writing?
    case DeleteEntry(_) => op.Deleting?
  }

  function WorkNext<K, S>(store: Store<K, S>, k: K, op: Op<S>, work: Work<S>): (Store<K, S>, Op<S>)
    requires WorkEnabled(op, work)
  {
    match work
    case StartRead => (store, LookingUp)
    case StartWrite(v) => (store, Writing(v))
    case LookUp(reachable) => (store, if reachable && k in store.cache then Answered(Some(store.cache[k])) else Missed)
    case ReadTable(ok) => (store, if !ok then ReadFailed else if k in store.table then Filling(Some(store.table[k])) else Answered(None))
    case Fill(reachable) =>
      (if reachable && op.v.Some? then store.(cache := store.cache[k := op.v.value]) else store, Answered(op.v))
    case WriteTable(answer) =>
      (if answer.WriteFailed? then store else store.(table := store.table[k := op.s]), if answer.Written? then Deleting else Free)
    case DeleteEntry(reachable) => (if reachable then store.(cache := store.cache - {k}) else store, Free)
  }

  predicate Enabled<K, S>(s: State<K, S>, step: Step<K, S>) {
    match step
    case Locks(t, lockStep) => t < |s.threads| && LockEnabled(s.l, s.threads[t], lockStep)
    case Works(t, work) => t < |s.threads| && s.threads[t].Holding? && WorkEnabled(s.threads[t].op, work)
    case Expire(_) => true
    case Crash => true
  }

  function Next<K, S>(s: State<K, S>, step: Step<K, S>): State<K, S>
    requires Enabled(s, step)
  {
    match step
    case Locks(t, lockStep) =>
      var after := LockNext(s.l, t, s.threads[t], lockStep);
      s.(l := after.0, threads := s.threads[t := after.1])
    case Works(t, work) =>
      var th := s.threads[t];
      var after := WorkNext(s.store, th.key, th.op, work);
      s.(store := after.0, threads := s.threads[t := th.(op := after.1)])
    case Expire(key) => s.(store := s.store.(cache := s.store.cache - {key}))
    case Crash => State(LockTable(map[], 0, map[]), s.store, seq(|s.threads|, _ => Outside))
  }

  // ---------- The lock protocol -----------------------------------------------------------

  ghost predicate ThreadOk<K, S>(l: LockTable<K>, t: nat, th: Thread<K, S>) {
    && (th.Waiting? || th.Holding? ==> th.key in l.locks && l.locks[th.key] == th.mutex)
    && (th.Holding? ==> th.mutex in l.owner && l.owner[th.mutex] == t)
  }

  ghost predicate OwnerOk<K, S>(s: State<K, S>, m: nat)
    requires m in s.l.owner
  {
    var t := s.l.owner[m];
    t < |s.threads| && s.threads[t].Holding? && s.threads[t].mutex == m
  }

  /** Different keys have different mutexes. */
  ghost predicate OwnMutexes<K(!new)>(l: LockTable<K>) {
    && (forall k :: k in l.locks ==> l.locks[k] < l.mutexes)
    && (forall a, b :: a in l.locks && b in l.locks && l.locks[a] == l.locks[b] ==> a == b)
  }

  ghost predicate Locking<K(!new), S>(s: State<K, S>) {
    && OwnMutexes(s.l)
    && (forall m {:trigger OwnerOk(s, m)} :: m in s.l.owner ==> OwnerOk(s, m))
    && (forall t {:trigger ThreadOk(s.l, t, s.threads[t])} :: 0 <= t < |s.threads| ==> ThreadOk(s.l, t, s.threads[t]))
  }

  lemma LockStepKeeps<K(!new), S>(s: State<K, S>, t: nat, step: LockStep<K>)
    requires Locking(s) && Enabled(s, Locks(t, step))
    ensures Locking(Next(s, Locks(t, step)))
  {
    var s' := Next(s, Locks(t, step));
    assert ThreadOk(s.l, t, s.threads[t]);
    forall u | 0 <= u < |s'.threads| ensures ThreadOk(s'.l, u, s'.threads[u]) {
      assert ThreadOk(s.l, u, s.threads[u]);
    }
    forall m | m in s'.l.owner ensures OwnerOk(s', m) {
      if m in s.l.owner { assert OwnerOk(s, m); }
    }
  }

  lemma StepKeepsLocking<K(!new), S>(s: State<K, S>, step: Step<K, S>)
    requires Locking(s) && Enabled(s, step)
    ensures Locking(Next(s, step))
  {
    var s' := Next(s, step);
    if step.Locks? {
      LockStepKeeps(s, step.t, step.lockStep);
    } else {
      forall u | 0 <= u < |s'.threads| ensures ThreadOk(s'.l, u, s'.threads[u]) {
        assert ThreadOk(s.l, u, s.threads[u]);
      }
      forall m | m in s'.l.owner ensures OwnerOk(s', m) {
        assert OwnerOk(s, m);
      }
    }
  }

  /** At most one thread holds a key. */
  lemma MutualExclusion<K(!new), S>(s: State<K, S>, t: nat, u: nat)
    requires Locking(s) && t < |s.threads| && u < |s.threads|
    requires s.threads[t].Holding? && s.threads[u].Holding? && s.threads[t].key == s.threads[u].key
    ensures t == u
  {
    assert ThreadOk(s.l, t, s.threads[t]) && ThreadOk(s.l, u, s.threads[u]);
  }

  /** A thread is blocked only while another thread holds the same key. */
  lemma BlockedOnlyBySameKey<K(!new), S>(s: State<K, S>, t: nat)
    requires Locking(s) && t < |s.threads| && s.threads[t].Waiting? && !Enabled(s, Locks(t, Acquire))
    ensures exists u :: 0 <= u < |s.threads| && s.threads[u].Holding? && s.threads[u].key == s.threads[t].key
  {
    assert ThreadOk(s.l, t, s.threads[t]);
    var m := s.threads[t].mutex;
    assert OwnerOk(s, m);
    var u := s.l.owner[m];
    assert ThreadOk(s.l, u, s.threads[u]);
  }

  // ---------- Reads under the lock -----------------------------------------------------------

  /** What the holder of `k` is doing. */
  ghost function OpOn<K, S>(s: State<K, S>, k: K): Op<S> {
    if k in s.l.locks && s.l.locks[k] in s.l.owner && s.l.owner[s.l.locks[k]] < |s.threads| && s.threads[s.l.owner[s.l.locks[k]]].Holding?
    then s.threads[s.l.owner[s.l.locks[k]]].op
    else Free
  }

  ghost predicate Differs<K, S>(store: Store<K, S>, k: K) {
    k in store.cache && Some(store.cache[k]) != Row(store.table, k)
  }

  /**
   * Whether a missed invalidation has left a stale entry at `k`, after the holder of `k` did `work`. A
   * delete that fails, and a write with its reply lost, leave the entry where it differs from the row; a
   * delete that arrives or a fill replaces it.
   */
  ghost function StaleAfterWork<K, S>(store: Store<K, S>, k: K, op: Op<S>, work: Work<S>, stale: bool): bool {
    match work
    case DeleteEntry(reachable) => !reachable && Differs(store, k)
    case WriteTable(answer) => if answer.WriteReplyLost? && op.Writing? then k in store.cache && store.cache[k] != op.s else stale
    case Fill(reachable) => stale && !(reachable && op.Filling? && op.v.Some?)
    case _ => stale
  }

  /** Outside a write, the entry differs from the row exactly when a missed invalidation left it so; a value read is the row. */
  ghost predicate KeyTells<K, S>(store: Store<K, S>, k: K, op: Op<S>, stale: bool) {
    && (!op.Deleting? ==> (stale <==> Differs(store, k)))
    && (op.Filling? ==> op.v == Row(store.table, k))
  }

  lemma WorkTells<K, S>(store: Store<K, S>, k: K, op: Op<S>, work: Work<S>, stale: bool)
    requires KeyTells(store, k, op, stale) && WorkEnabled(op, work)
    ensures KeyTells(WorkNext(store, k, op, work).0, k, WorkNext(store, k, op, work).1, StaleAfterWork(store, k, op, work, stale))
  {}

  lemma WorkLeavesOthers<K, S>(store: Store<K, S>, k: K, op: Op<S>, work: Work<S>, j: K)
    requires WorkEnabled(op, work) && j != k
    ensures var after := WorkNext(store, k, op, work).0;
            Row(after.table, j) == Row(store.table, j) && Row(after.cache, j) == Row(store.cache, j)
  {}

  lemma HolderIs<K(!new), S>(s: State<K, S>, t: nat)
    requires Locking(s) && t < |s.threads| && s.threads[t].Holding?
    ensures OpOn(s, s.threads[t].key) == s.threads[t].op
  {
    assert ThreadOk(s.l, t, s.threads[t]);
  }

  lemma OwnedIsMade<K(!new), S>(s: State<K, S>, m: nat)
    requires Locking(s) && m in s.l.owner
    ensures m < s.l.mutexes
  {
    assert OwnerOk(s, m);
    var t := s.l.owner[m];
    assert ThreadOk(s.l, t, s.threads[t]);
  }

  /** Locking and unlocking leave what is going on at every key alone, or start and end it at rest. */
  lemma LockStepOps<K(!new), S>(s: State<K, S>, t: nat, step: LockStep<K>, k: K)
    requires Locking(s) && Enabled(s, Locks(t, step))
    ensures var after := OpOn(Next(s, Locks(t, step)), k);
            after == OpOn(s, k) || (after.Free? && Resting(OpOn(s, k)))
  {
    assert ThreadOk(s.l, t, s.threads[t]);
    if k in s.l.locks && s.l.locks[k] in s.l.owner {
      assert OwnerOk(s, s.l.locks[k]);
    }
    if s.l.mutexes in s.l.owner { OwnedIsMade(s, s.l.mutexes); }
  }

  lemma WorkStepOps<K(!new), S>(s: State<K, S>, t: nat, work: Work<S>, k: K)
    requires Locking(s) && Enabled(s, Works(t, work)) && k != s.threads[t].key
    ensures OpOn(Next(s, Works(t, work)), k) == OpOn(s, k)
  {
    assert ThreadOk(s.l, t, s.threads[t]);
    if k in s.l.locks && s.l.locks[k] in s.l.owner {
      assert OwnerOk(s, s.l.locks[k]);
    }
  }

  // ---------- Every run ------------------------------------------------------------------------

  ghost function After<K, S>(s: State<K, S>, steps: seq<Step<K, S>>, n: nat): Option<State<K, S>>
    requires n <= |steps|
  {
    if n == 0 then Some(s)
    else
      var before := After(s, steps, n - 1);
      if before.None? || !Enabled(before.value, steps[n - 1]) then None else Some(Next(before.value, steps[n - 1]))
  }

  /** No thread inside; the table and the cache may hold anything. */
  ghost predicate Start<K, S>(s: State<K, S>) {
    s.l == LockTable(map[], 0, map[]) && forall t :: 0 <= t < |s.threads| ==> s.threads[t] == Outside
  }

  /** The table write a step makes, with its key. */
  ghost function WriteOf<K, S>(s: State<K, S>, step: Step<K, S>): Option<(K, S)>
    requires Enabled(s, step)
  {
    if step.Works? && step.work.WriteTable? && !step.work.answer.WriteFailed? then Some((s.threads[step.t].key, s.threads[step.t].op.s)) else None
  }

  /** The row of `k` after the last write of the first `n` steps. */
  ghost function LastWritten<K, S>(s: State<K, S>, steps: seq<Step<K, S>>, n: nat, k: K): Option<S>
    requires n <= |steps| && After(s, steps, n).Some?
  {
    if n == 0 then Row(s.store.table, k)
    else
      var w := WriteOf(After(s, steps, n - 1).value, steps[n - 1]);
      if w.Some? && w.value.0 == k then Some(w.value.1) else LastWritten(s, steps, n - 1, k)
  }

  lemma TableStep<K, S>(s: State<K, S>, step: Step<K, S>, k: K)
    requires Enabled(s, step)
    ensures var w := WriteOf(s, step);
            Row(Next(s, step).store.table, k) == if w.Some? && w.value.0 == k then Some(w.value.1) else Row(s.store.table, k)
  {}

  lemma {:induction false} TableIsLastWritten<K, S>(s: State<K, S>, steps: seq<Step<K, S>>, n: nat, k: K)
    requires n <= |steps| && After(s, steps, n).Some?
    ensures Row(After(s, steps, n).value.store.table, k) == LastWritten(s, steps, n, k)
  {
    if n > 0 {
      TableIsLastWritten(s, steps, n - 1, k);
      TableStep(After(s, steps, n - 1).value, steps[n - 1], k);
    }
  }

  lemma {:induction false} AlwaysLocking<K(!new), S>(s: State<K, S>, steps: seq<Step<K, S>>, n: nat)
    requires Start(s) && n <= |steps| && After(s, steps, n).Some?
    ensures Locking(After(s, steps, n).value)
  {
    if n > 0 {
      AlwaysLocking(s, steps, n - 1);
      StepKeepsLocking(After(s, steps, n - 1).value, steps[n - 1]);
    }
  }

  /** In every interleaving at most one thread holds a key. */
  lemma OneHolderPerKey<K(!new), S>(s: State<K, S>, steps: seq<Step<K, S>>, n: nat, t: nat, u: nat)
    requires Start(s) && n <= |steps| && After(s, steps, n).Some?
    ensures var threads := After(s, steps, n).value.threads;
            t < |threads| && u < |threads| && threads[t].Holding? && threads[u].Holding? && threads[t].key == threads[u].key ==> t == u
  {
    AlwaysLocking(s, steps, n);
    var s' := After(s, steps, n).value;
    if t < |s'.threads| && u < |s'.threads| && s'.threads[t].Holding? && s'.threads[u].Holding? && s'.threads[t].key == s'.threads[u].key {
      MutualExclusion(s', t, u);
    }
  }

  // ---------- What reads return -------------------------------------------------------------

  /** Whether, after a step, a missed invalidation has left a stale entry at `k` that nothing has expired, deleted or refilled since. */
  ghost function StaleAfterStep<K, S>(s: State<K, S>, step: Step<K, S>, k: K, stale: bool): bool
    requires Enabled(s, step)
  {
    match step
    case Locks(_, _) => stale
    case Works(t, work) => if s.threads[t].key == k then StaleAfterWork(s.store, k, s.threads[t].op, work, stale) else stale
    case Expire(key) => stale && key != k
    case Crash => if OpOn(s, k).Deleting? then Differs(s.store, k) else stale
  }

  ghost function LeftStale<K, S>(s: State<K, S>, steps: seq<Step<K, S>>, n: nat, k: K): bool
    requires n <= |steps| && After(s, steps, n).Some?
  {
    if n == 0 then Differs(s.store, k)
    else StaleAfterStep(After(s, steps, n - 1).value, steps[n - 1], k, LeftStale(s, steps, n - 1, k))
  }

  ghost predicate EntryTells<K(!new), S>(s: State<K, S>, steps: seq<Step<K, S>>, n: nat, k: K)
    requires n <= |steps| && After(s, steps, n).Some?
  {
    var s' := After(s, steps, n).value;
    KeyTells(s'.store, k, OpOn(s', k), LeftStale(s, steps, n, k))
  }

  lemma StepTells<K(!new), S>(s: State<K, S>, step: Step<K, S>, k: K, stale: bool)
    requires Locking(s) && Enabled(s, step) && KeyTells(s.store, k, OpOn(s, k), stale)
    ensures KeyTells(Next(s, step).store, k, OpOn(Next(s, step), k), StaleAfterStep(s, step, k, stale))
  {
    var s' := Next(s, step);
    StepKeepsLocking(s, step);
    match step
    case Locks(t, lockStep) => LockStepOps(s, t, lockStep, k);
    case Works(t, work) =>
      var th := s.threads[t];
      HolderIs(s, t);
      HolderIs(s', t);
      if k == th.key {
        WorkTells(s.store, k, th.op, work, stale);
      } else {
        WorkLeavesOthers(s.store, th.key, th.op, work, k);
        WorkStepOps(s, t, work, k);
      }
    case Expire(_) =>
    case Crash =>
  }

  /** In every run, outside a write, a cache entry differs from its row exactly when a missed invalidation of that key left it so. */
  lemma {:induction false} EntryStaleIff<K(!new), S>(s: State<K, S>, steps: seq<Step<K, S>>, n: nat, k: K)
    requires Start(s) && n <= |steps| && After(s, steps, n).Some?
    ensures EntryTells(s, steps, n, k)
  {
    if n > 0 {
      EntryStaleIff(s, steps, n - 1, k);
      AlwaysLocking(s, steps, n - 1);
      StepTells(After(s, steps, n - 1).value, steps[n - 1], k, LeftStale(s, steps, n - 1, k));
    }
  }

  ghost predicate LooksUp<K, S>(step: Step<K, S>, t: nat) {
    step.Works? && step.t == t && step.work.LookUp?
  }

  /** Step `i` is the latest lookup of thread `t`. */
  ghost predicate LastLookup<K, S>(steps: seq<Step<K, S>>, n: nat, t: nat, i: nat)
    requires n <= |steps|
  {
    i < n && LooksUp(steps[i], t) && forall j :: i < j < n ==> !LooksUp(steps[j], t)
  }

  /** The lookup reaches the cache and hits an entry that a missed invalidation left stale. */
  ghost predicate HitsStale<K, S>(s: State<K, S>, steps: seq<Step<K, S>>, i: nat)
    requires i < |steps| && After(s, steps, i + 1).Some?
  {
    && steps[i].Works? && steps[i].work == LookUp(true)
    && var before := After(s, steps, i).value;
       var k := before.threads[steps[i].t].key;
       k in before.store.cache && LeftStale(s, steps, i, k)
  }

  /** What a thread has read so far, against the row; `hit` says whether its lookup hit a stale entry. */
  ghost predicate OpTells<K, S>(store: Store<K, S>, k: K, op: Op<S>, hit: bool) {
    && (op.Missed? || op.Filling? ==> !hit)
    && (op.Answered? ==> (op.v == Row(store.table, k) <==> !hit))
  }

  ghost predicate AfterLookup<S>(op: Op<S>) {
    op.Missed? || op.Filling? || op.Answered?
  }

  lemma WorkOpTells<K, S>(store: Store<K, S>, k: K, op: Op<S>, work: Work<S>, stale: bool, hit: bool)
    requires KeyTells(store, k, op, stale) && OpTells(store, k, op, hit) && WorkEnabled(op, work)
    ensures var after := WorkNext(store, k, op, work);
            OpTells(after.0, k, after.1, if work.LookUp? then work.reachable && k in store.cache && stale else hit)
  {}

  /** Another thread's step, and a step of the lock protocol, leave what thread `t` has read right or wrong as it was. */
  lemma OthersLeaveReads<K(!new), S>(s: State<K, S>, step: Step<K, S>, t: nat)
    requires Locking(s) && Enabled(s, step) && t < |s.threads| && !(step.Works? && step.t == t)
    requires Next(s, step).threads[t].Holding? && AfterLookup(Next(s, step).threads[t].op)
    ensures s.threads[t] == Next(s, step).threads[t] && Row(Next(s, step).store.table, s.threads[t].key) == Row(s.store.table, s.threads[t].key)
  {
    if step.Works? && s.threads[step.t].key == s.threads[t].key { MutualExclusion(s, step.t, t); }
  }

  /** A step of the reading thread itself. */
  lemma OwnStepTells<K(!new), S>(s: State<K, S>, t: nat, work: Work<S>, stale: bool, hit: bool)
    requires Locking(s) && Enabled(s, Works(t, work)) && KeyTells(s.store, s.threads[t].key, OpOn(s, s.threads[t].key), stale)
    requires OpTells(s.store, s.threads[t].key, s.threads[t].op, hit)
    ensures var s', k := Next(s, Works(t, work)), s.threads[t].key;
            s'.threads[t].key == k &&
            OpTells(s'.store, k, s'.threads[t].op, if work.LookUp? then work.reachable && k in s.store.cache && stale else hit)
  {
    HolderIs(s, t);
    WorkOpTells(s.store, s.threads[t].key, s.threads[t].op, work, stale, hit);
  }

  lemma OwnStepBack<K, S>(s: State<K, S>, t: nat, work: Work<S>)
    requires Enabled(s, Works(t, work)) && AfterLookup(Next(s, Works(t, work)).threads[t].op) && !work.LookUp?
    ensures AfterLookup(s.threads[t].op)
  {}

  lemma StepBack<K, S>(s: State<K, S>, steps: seq<Step<K, S>>, n: nat)
    requires 0 < n <= |steps| && After(s, steps, n).Some?
    ensures After(s, steps, n - 1).Some? && Enabled(After(s, steps, n - 1).value, steps[n - 1])
    ensures After(s, steps, n).value == Next(After(s, steps, n - 1).value, steps[n - 1])
  {}

  /** Thread `t` holds a key and has read something. */
  ghost predicate HasRead<K, S>(s: State<K, S>, t: nat) {
    t < |s.threads| && s.threads[t].Holding? && AfterLookup(s.threads[t].op)
  }

  /** Step `i` is the latest lookup of thread `t`, and what was read is the row exactly when that lookup did not hit a stale entry. */
  ghost predicate ReadTells<K, S>(s: State<K, S>, steps: seq<Step<K, S>>, n: nat, t: nat, i: nat)
    requires n <= |steps| && After(s, steps, n).Some? && HasRead(After(s, steps, n).value, t)
  {
    && LastLookup(steps, n, t, i) && After(s, steps, i + 1).Some?
    && var s' := After(s, steps, n).value; OpTells(s'.store, s'.threads[t].key, s'.threads[t].op, HitsStale(s, steps, i))
  }

  lemma LookupTells<K(!new), S>(s: State<K, S>, steps: seq<Step<K, S>>, n: nat, t: nat)
    requires Start(s) && 0 < n <= |steps| && After(s, steps, n).Some? && HasRead(After(s, steps, n).value, t) && LooksUp(steps[n - 1], t)
    ensures ReadTells(s, steps, n, t, n - 1)
  {
    StepBack(s, steps, n);
    var before := After(s, steps, n - 1).value;
    AlwaysLocking(s, steps, n - 1);
    EntryStaleIff(s, steps, n - 1, before.threads[t].key);
    OwnStepTells(before, t, steps[n - 1].work, LeftStale(s, steps, n - 1, before.threads[t].key), false);
  }

  lemma OwnStepGoesOn<K(!new), S>(s: State<K, S>, steps: seq<Step<K, S>>, n: nat, t: nat, i: nat)
    requires Start(s) && 0 < n <= |steps| && After(s, steps, n).Some? && After(s, steps, n - 1).Some? && steps[n - 1].Works? && steps[n - 1].t == t
    requires !steps[n - 1].work.LookUp? && HasRead(After(s, steps, n).value, t)
    requires HasRead(After(s, steps, n - 1).value, t) && ReadTells(s, steps, n - 1, t, i)
    ensures ReadTells(s, steps, n, t, i)
  {
    StepBack(s, steps, n);
    var before := After(s, steps, n - 1).value;
    AlwaysLocking(s, steps, n - 1);
    EntryStaleIff(s, steps, n - 1, before.threads[t].key);
    OwnStepTells(before, t, steps[n - 1].work, LeftStale(s, steps, n - 1, before.threads[t].key), HitsStale(s, steps, i));
  }

  lemma OtherStepGoesOn<K(!new), S>(s: State<K, S>, steps: seq<Step<K, S>>, n: nat, t: nat, i: nat)
    requires Start(s) && 0 < n <= |steps| && After(s, steps, n).Some? && After(s, steps, n - 1).Some? && !(steps[n - 1].Works? && steps[n - 1].t == t)
    requires HasRead(After(s, steps, n).value, t)
    requires HasRead(After(s, steps, n - 1).value, t) && ReadTells(s, steps, n - 1, t, i)
    ensures ReadTells(s, steps, n, t, i)
  {
    StepBack(s, steps, n);
    AlwaysLocking(s, steps, n - 1);
    OthersLeaveReads(After(s, steps, n - 1).value, steps[n - 1], t);
  }

  /** What a thread has read was there to be read before the step, unless the step is its lookup. */
  lemma ReadBefore<K(!new), S>(s: State<K, S>, steps: seq<Step<K, S>>, n: nat, t: nat)
    requires Start(s) && n <= |steps| && After(s, steps, n).Some? && HasRead(After(s, steps, n).value, t)
    ensures n > 0 && After(s, steps, n - 1).Some?
    ensures LooksUp(steps[n - 1], t) || HasRead(After(s, steps, n - 1).value, t)
  {
    StepBack(s, steps, n);
    var before := After(s, steps, n - 1).value;
    AlwaysLocking(s, steps, n - 1);
    if !(steps[n - 1].Works? && steps[n - 1].t == t) {
      OthersLeaveReads(before, steps[n - 1], t);
    } else if !steps[n - 1].work.LookUp? {
      OwnStepBack(before, t, steps[n - 1].work);
    }
  }

  lemma {:induction false} ReadIsRowIff<K(!new), S>(s: State<K, S>, steps: seq<Step<K, S>>, n: nat, t: nat) returns (i: nat)
    requires Start(s) && n <= |steps| && After(s, steps, n).Some? && HasRead(After(s, steps, n).value, t)
    ensures ReadTells(s, steps, n, t, i)
  {
    ReadBefore(s, steps, n, t);
    if LooksUp(steps[n - 1], t) {
      i := n - 1;
      LookupTells(s, steps, n, t);
    } else {
      i := ReadIsRowIff(s, steps, n - 1, t);
      if steps[n - 1].Works? && steps[n - 1].t == t {
        OwnStepGoesOn(s, steps, n, t, i);
      } else {
        OtherStepGoesOn(s, steps, n, t, i);
      }
    }
  }

  /**
   * In every interleaving under the lock, whatever expires and whichever cache accesses fail, an answered
   * read returned the last row written if and only if its lookup did not hit an entry that a missed
   * invalidation of that same key had left different from the row and that nothing had expired, deleted
   * or refilled since.
   */
  lemma {:induction false} ReadsReturnLastWritten<K(!new), S>(s: State<K, S>, steps: seq<Step<K, S>>, n: nat, t: nat) returns (i: nat)
    requires Start(s) && n <= |steps| && After(s, steps, n).Some? && t < |After(s, steps, n).value.threads|
    requires After(s, steps, n).value.threads[t].Holding? && After(s, steps, n).value.threads[t].op.Answered?
    ensures LastLookup(steps, n, t, i) && After(s, steps, i + 1).Some?
    ensures var th := After(s, steps, n).value.threads[t];
            th.op.v == LastWritten(s, steps, n, th.key) <==> !HitsStale(s, steps, i)
  {
    i := ReadIsRowIff(s, steps, n, t);
    TableIsLastWritten(s, steps, n, After(s, steps, n).value.threads[t].key);
  }

  /** A write of `k` misses its invalidation: the delete fails, the write's reply is lost, or a crash comes in between. */
  ghost predicate StepMisses<K, S>(s: State<K, S>, step: Step<K, S>, k: K)
    requires Enabled(s, step)
  {
    || (step.Works? && (step.work == DeleteEntry(false) || step.work == WriteTable(WriteReplyLost)) && s.threads[step.t].key == k)
    || (step.Crash? && OpOn(s, k).Deleting?)
  }

  ghost predicate Misses<K, S>(s: State<K, S>, steps: seq<Step<K, S>>, i: nat, k: K)
    requires i < |steps|
  {
    After(s, steps, i + 1).Some? && StepMisses(After(s, steps, i).value, steps[i], k)
  }

  lemma StepLeavesFresh<K, S>(s: State<K, S>, step: Step<K, S>, k: K)
    requires Enabled(s, step) && StaleAfterStep(s, step, k, false)
    ensures StepMisses(s, step, k)
  {}

  /** From an entry that is the row, as long as `k` itself misses no invalidation nothing stale is ever left there, whatever fails for other keys. */
  lemma {:induction false} OnlyOwnInvalidationsMatter<K(!new), S>(s: State<K, S>, steps: seq<Step<K, S>>, n: nat, k: K)
    requires n <= |steps| && After(s, steps, n).Some? && !Differs(s.store, k)
    requires forall i {:trigger Misses(s, steps, i, k)} :: 0 <= i < n ==> !Misses(s, steps, i, k)
    ensures !LeftStale(s, steps, n, k)
  {
    if n > 0 {
      OnlyOwnInvalidationsMatter(s, steps, n - 1, k);
      assert !Misses(s, steps, n - 1, k);
      var before := After(s, steps, n - 1).value;
      if StaleAfterStep(before, steps[n - 1], k, false) { StepLeavesFresh(before, steps[n - 1], k); }
    }
  }

  // ---------- Runs in which it fails ----------------------------------------------------------

  /** One holder doing `works` in a row at key `k`; None when one of them could not happen. */
  ghost function Alone<K, S>(store: Store<K, S>, k: K, op: Op<S>, works: seq<Work<S>>, n: nat): Option<(Store<K, S>, Op<S>)>
    requires n <= |works|
  {
    if n == 0 then Some((store, op))
    else
      var before := Alone(store, k, op, works, n - 1);
      if before.None? || !WorkEnabled(before.value.1, works[n - 1]) then None
      else Some(WorkNext(before.value.0, k, before.value.1, works[n - 1]))
  }

  /**
   * From every store in which `k` is cached, by a holder at rest: after writing a value other than the
   * cached one with a delete that fails, the next read returns the cached value.
   */
  lemma StaleAfterFailedDelete<K, S>(store: Store<K, S>, k: K, op: Op<S>, v: S)
    requires k in store.cache && store.cache[k] != v && Resting(op)
    ensures var works := [StartWrite(v), WriteTable(Written), DeleteEntry(false), StartRead, LookUp(true)];
            var end := Alone(store, k, op, works, 5);
            end.Some? && end.value.1 == Answered(Some(store.cache[k])) && Row(end.value.0.table, k) == Some(v)
  {
    var works := [StartWrite(v), WriteTable(Written), DeleteEntry(false), StartRead, LookUp(true)];
    var written := store.(table := store.table[k := v]);
    assert Alone(store, k, op, works, 1) == Some((store, Writing(v)));
    assert Alone(store, k, op, works, 2) == Some((written, Deleting));
    assert Alone(store, k, op, works, 3) == Some((written, Free));
    assert Alone(store, k, op, works, 4) == Some((written, LookingUp));
  }

  /** The same when the reply to the write is lost: the caller does not get to the delete. */
  lemma StaleAfterLostReply<K, S>(store: Store<K, S>, k: K, op: Op<S>, v: S)
    requires k in store.cache && store.cache[k] != v && Resting(op)
    ensures var works := [StartWrite(v), WriteTable(WriteReplyLost), StartRead, LookUp(true)];
            var end := Alone(store, k, op, works, 4);
            end.Some? && end.value.1 == Answered(Some(store.cache[k])) && Row(end.value.0.table, k) == Some(v)
  {
    var works := [StartWrite(v), WriteTable(WriteReplyLost), StartRead, LookUp(true)];
    var written := store.(table := store.table[k := v]);
    assert Alone(store, k, op, works, 1) == Some((store, Writing(v)));
    assert Alone(store, k, op, works, 2) == Some((written, Free));
    assert Alone(store, k, op, works, 3) == Some((written, LookingUp));
  }

  /**
   * Without the lock: between another reader's table read and its fill, a whole write goes through,
   * and the reader leaves the old value in the cache.
   */
  lemma StaleWithoutLock<K, S>(k: K, first: S, second: S)
    requires first != second
    ensures var store := Store(map[k := first], map[]);
            var reader := Alone(store, k, Free, [StartRead, LookUp(true), ReadTable(true)], 3);
            reader.Some? && reader.value.0 == store &&
            var writer := Alone(store, k, Free, [StartWrite(second), WriteTable(Written), DeleteEntry(true)], 3);
            writer.Some? && WorkEnabled(reader.value.1, Fill(true)) &&
            var end := WorkNext(writer.value.0, k, reader.value.1, Fill(true)).0;
            Row(end.cache, k) == Some(first) && Row(end.table, k) == Some(second)
  {
    var store := Store(map[k := first], map[]);
    var reading := [StartRead, LookUp(true), ReadTable(true)];
    assert Alone(store, k, Free, reading, 1) == Some((store, LookingUp));
    assert Alone(store, k, Free, reading, 2) == Some((store, Missed));
    var writing := [StartWrite(second), WriteTable(Written), DeleteEntry(true)];
    assert Alone(store, k, Free, writing, 1) == Some((store, Writing(second)));
    assert Alone(store, k, Free, writing, 2) == Some((Store(store.table[k := second], store.cache), Deleting));
  }
}
