/**
 * The metric buffer in Redis: pop a batch, insert it, isolate bad rows, requeue or dead-letter.
 * Several instances may flush at once. An insert that the database refuses stores nothing; one whose
 * reply is lost looks like a transient failure to the code but has stored its rows. Each Redis command
 * is atomic.
 */
module MetricBuffer {
  import opened Basics

  const MAX_BATCHES_PER_TICK := 50
  const DEAD_LETTER_MAX := 10000

  /** A list entry: a metric, or text that does not unmarshal. */
  datatype Entry<M> = Metric(m: M) | Garbage(raw: string)

  /** The outcome of one insert; the SQLSTATE is absent on connection trouble. */
  datatype Answer = Stored | StoredReplyLost | Failed(sqlState: Option<string>)

  predicate InDatabase(a: Answer) {
    a.Stored? || a.StoredReplyLost?
  }

  /** Data exceptions (class 22) and integrity violations (class 23) can never succeed. */
  predicate IsPermanent(a: Answer) {
    a.Failed? && a.sqlState.Some? && |a.sqlState.value| >= 2 && a.sqlState.value[0] == '2' && (a.sqlState.value[1] == '2' || a.sqlState.value[1] == '3')
  }

  predicate IsTransient(a: Answer) {
    !a.Stored? && !IsPermanent(a)
  }

  // ---------- Lists ---------------------------------------------------------------

  lemma CountSplit<T>(s: seq<T>, k: nat, x: T)
    requires k <= |s|
    ensures Count(s, x) == Count(s[..k], x) + Count(s[k..], x)
  {
    assert s == s[..k] + s[k..];
    CountAppend(s[..k], s[k..], x);
  }

  lemma CountHead<T>(s: seq<T>, x: T)
    requires s != []
    ensures Count(s, x) == Count(s[1..], x) + Count([s[0]], x)
    ensures Count([s[0]], x) == if s[0] == x then 1 else 0
  {
    CountSplit(s, 1, x);
    assert s[..1] == [s[0]] && [s[0]][..0] == [];
  }

  /** What pushing the values one by one to the head puts there. */
  function Reverse<T>(s: seq<T>): (r: seq<T>)
    ensures |r| == |s|
  {
    if s == [] then [] else [s[|s| - 1]] + Reverse(s[..|s| - 1])
  }

  lemma {:induction false} CountReverse<T>(s: seq<T>, x: T)
    ensures Count(Reverse(s), x) == Count(s, x)
  {
    if s != [] {
      CountReverse(s[..|s| - 1], x);
      CountAppend([s[|s| - 1]], Reverse(s[..|s| - 1]), x);
      assert [s[|s| - 1]][..0] == [];
    }
  }

  /** The value pushed last comes first. */
  lemma {:induction false} ReverseIs<T>(s: seq<T>, i: nat)
    requires i < |s|
    ensures Reverse(s)[i] == s[|s| - 1 - i]
  {
    if i > 0 { ReverseIs(s[..|s| - 1], i - 1); }
  }

  /** The entries that unmarshal (or those that do not), in order. */
  function Decoded<M>(items: seq<Entry<M>>, good: bool): (r: seq<Entry<M>>)
    ensures |r| <= |items|
  {
    if items == [] then []
    else
      var front, last := Decoded(items[..|items| - 1], good), items[|items| - 1];
      if last.Metric? == good then front + [last] else front
  }

  /** What is kept are the metrics, and what is dropped is the rest. */
  lemma {:induction false} DecodedIs<M>(items: seq<Entry<M>>, good: bool, x: Entry<M>)
    ensures x in Decoded(items, good) <==> x in items && x.Metric? == good
  {
    if items != [] {
      DecodedIs(items[..|items| - 1], good, x);
      assert items == items[..|items| - 1] + [items[|items| - 1]];
    }
  }

  lemma {:induction false} DecodedAppend<M>(a: seq<Entry<M>>, b: seq<Entry<M>>, good: bool)
    ensures Decoded(a + b, good) == Decoded(a, good) + Decoded(b, good)
    decreases |b|
  {
    if b == [] {
      assert a + b == a;
    } else {
      var front, last := b[..|b| - 1], b[|b| - 1];
      DecodedAppend(a, front, good);
      assert a + b == a + front + [last] && b == front + [last];
      DecodedAppendOne(a, front, last, good);
    }
  }

  lemma DecodedAppendOne<M>(a: seq<Entry<M>>, b: seq<Entry<M>>, x: Entry<M>, good: bool)
    requires Decoded(a + b, good) == Decoded(a, good) + Decoded(b, good)
    ensures Decoded(a + b + [x], good) == Decoded(a, good) + Decoded(b + [x], good)
  {
    DecodedPush(a + b, x, good);
    DecodedPush(b, x, good);
  }

  lemma DecodedPush<M>(s: seq<Entry<M>>, x: Entry<M>, good: bool)
    ensures Decoded(s + [x], good) == if x.Metric? == good then Decoded(s, good) + [x] else Decoded(s, good)
  {
    assert (s + [x])[..|s + [x]| - 1] == s;
  }

  lemma {:induction false} CountDecoded<M>(items: seq<Entry<M>>, x: Entry<M>)
    ensures Count(items, x) == Count(Decoded(items, true), x) + Count(Decoded(items, false), x)
    ensures |items| == |Decoded(items, true)| + |Decoded(items, false)|
  {
    if items != [] {
      var front, last := items[..|items| - 1], items[|items| - 1];
      CountDecoded(front, x);
      CountAppend(Decoded(front, last.Metric?), [last], x);
      assert [last][..0] == [];
    }
  }

  // ---------- Shared state ----------------------------------------------------------

  /**
   * `buffer` and `dead` are the two Redis lists, `stored` the rows inserted. `trimmed`, `dropped`
   * and `lost` record what was cut from the dead-letter list, did not unmarshal, or went down with
   * a failed Redis command or a crash.
   */
  datatype Shared<M> = Shared(
    buffer: seq<Entry<M>>, dead: seq<Entry<M>>, stored: seq<Entry<M>>,
    trimmed: seq<Entry<M>>, dropped: seq<Entry<M>>, lost: seq<Entry<M>>)

  ghost function Places<M>(s: Shared<M>): seq<seq<Entry<M>>> {
    [s.buffer, s.dead, s.stored, s.trimmed, s.dropped, s.lost]
  }

  ghost function CountUpTo<T>(lists: seq<seq<T>>, n: nat, x: T): nat
    requires n <= |lists|
  {
    if n == 0 then 0 else CountUpTo(lists, n - 1, x) + Count(lists[n - 1], x)
  }

  /** How often `x` occurs anywhere outside an instance's memory. */
  ghost function Tally<M>(s: Shared<M>, x: Entry<M>): nat {
    CountUpTo(Places(s), |Places(s)|, x)
  }

  lemma TallyIs<M>(s: Shared<M>, x: Entry<M>)
    ensures Tally(s, x) == Count(s.buffer, x) + Count(s.dead, x) + Count(s.stored, x) + Count(s.trimmed, x) + Count(s.dropped, x) + Count(s.lost, x)
  {
    var lists := Places(s);
    assert CountUpTo(lists, 1, x) == Count(s.buffer, x);
    assert CountUpTo(lists, 2, x) == CountUpTo(lists, 1, x) + Count(s.dead, x);
    assert CountUpTo(lists, 3, x) == CountUpTo(lists, 2, x) + Count(s.stored, x);
    assert CountUpTo(lists, 4, x) == CountUpTo(lists, 3, x) + Count(s.trimmed, x);
    assert CountUpTo(lists, 5, x) == CountUpTo(lists, 4, x) + Count(s.dropped, x);
  }

  function Cut(n: nat, k: nat): nat {
    if n <= k then n else k
  }

  function Popped<M>(s: Shared<M>, k: nat): seq<Entry<M>> {
    s.buffer[..Cut(|s.buffer|, k)]
  }

  /** After a pop whose entries were unmarshalled. */
  function AfterPop<M>(s: Shared<M>, k: nat): Shared<M> {
    s.(buffer := s.buffer[Cut(|s.buffer|, k)..], dropped := s.dropped + Decoded(Popped(s, k), false))
  }

  function Inserted<M>(s: Shared<M>, ms: seq<Entry<M>>): Shared<M> {
    s.(stored := s.stored + ms)
  }

  function Requeued<M>(s: Shared<M>, ms: seq<Entry<M>>, reached: bool): Shared<M> {
    if reached then s.(buffer := Reverse(ms) + s.buffer) else s.(lost := s.lost + ms)
  }

  function DeadLettered<M>(s: Shared<M>, ms: seq<Entry<M>>, reached: bool): Shared<M> {
    if ms == [] then s
    else if reached then
      var all := Reverse(ms) + s.dead;
      s.(dead := all[..Cut(|all|, DEAD_LETTER_MAX)], trimmed := all[Cut(|all|, DEAD_LETTER_MAX)..] + s.trimmed)
    else s.(lost := s.lost + ms)
  }

  lemma PopTally<M>(s: Shared<M>, k: nat, x: Entry<M>)
    ensures Tally(AfterPop(s, k), x) + Count(Decoded(Popped(s, k), true), x) == Tally(s, x)
  {
    TallyIs(s, x);
    TallyIs(AfterPop(s, k), x);
    var n := Cut(|s.buffer|, k);
    CountSplit(s.buffer, n, x);
    CountDecoded(s.buffer[..n], x);
    CountAppend(s.dropped, Decoded(s.buffer[..n], false), x);
  }

  lemma {:induction false} InsertTally<M>(s: Shared<M>, ms: seq<Entry<M>>, x: Entry<M>)
    ensures Tally(Inserted(s, ms), x) == Tally(s, x) + Count(ms, x)
  {
    TallyIs(s, x);
    TallyIs(Inserted(s, ms), x);
    CountAppend(s.stored, ms, x);
  }

  lemma RequeueTally<M>(s: Shared<M>, ms: seq<Entry<M>>, reached: bool, x: Entry<M>)
    ensures Tally(Requeued(s, ms, reached), x) == Tally(s, x) + Count(ms, x)
  {
    TallyIs(s, x);
    TallyIs(Requeued(s, ms, reached), x);
    CountReverse(ms, x);
    CountAppend(Reverse(ms), s.buffer, x);
    CountAppend(s.lost, ms, x);
  }

  lemma DeadLetterTally<M>(s: Shared<M>, ms: seq<Entry<M>>, reached: bool, x: Entry<M>)
    ensures Tally(DeadLettered(s, ms, reached), x) == Tally(s, x) + Count(ms, x)
    ensures |s.dead| <= 10000 ==> |DeadLettered(s, ms, reached).dead| <= 10000
  {
    TallyIs(s, x);
    TallyIs(DeadLettered(s, ms, reached), x);
    if ms != [] {
      var all := Reverse(ms) + s.dead;
      var n := Cut(|all|, DEAD_LETTER_MAX);
      CountReverse(ms, x);
      CountAppend(Reverse(ms), s.dead, x);
      CountSplit(all, n, x);
      CountAppend(all[n..], s.trimmed, x);
      CountAppend(s.lost, ms, x);
    }
  }

  // ---------- One instance, one call after the other ------------------------------------

  /** What the outside world answers to one flush. `row(i)` answers the i-th single insert. */
  datatype Answers = Answers(popOk: bool, batch: Answer, row: nat -> Answer, requeueReached: bool, deadReached: bool)

  /** Where an insert sends its metric; after a lost reply to the database and back to the buffer, that is, twice. */
  datatype Place = ToDatabase | ToDead | ToBuffer | Twice

  predicate Goes(a: Answer, p: Place) {
    match p
    case ToDatabase => InDatabase(a)
    case ToDead => IsPermanent(a)
    case ToBuffer => IsTransient(a)
    case Twice => a.StoredReplyLost?
  }

  /** Those of the first `n` metrics whose single insert sent them to `p`. */
  function Rows<M>(ms: seq<Entry<M>>, row: nat -> Answer, n: nat, p: Place): seq<Entry<M>>
    requires n <= |ms|
  {
    if n == 0 then []
    else if Goes(row(n - 1), p) then Rows(ms, row, n - 1, p) + [ms[n - 1]]
    else Rows(ms, row, n - 1, p)
  }

  ghost function Sent<M>(a: Answer, p: Place, e: Entry<M>, x: Entry<M>): nat {
    if Goes(a, p) && e == x then 1 else 0
  }

  lemma RowPush<M>(ms: seq<Entry<M>>, row: nat -> Answer, n: nat, p: Place, x: Entry<M>)
    requires 0 < n <= |ms|
    ensures Count(Rows(ms, row, n, p), x) == Count(Rows(ms, row, n - 1, p), x) + Sent(row(n - 1), p, ms[n - 1], x)
  {
    if Goes(row(n - 1), p) { CountPush(Rows(ms, row, n - 1, p), ms[n - 1], x); }
  }

  lemma CountNext<T>(s: seq<T>, n: nat, x: T)
    requires 0 < n <= |s|
    ensures Count(s[..n], x) == Count(s[..n - 1], x) + if s[n - 1] == x then 1 else 0
  {
    assert s[..n] == s[..n - 1] + [s[n - 1]];
    CountPush(s[..n - 1], s[n - 1], x);
  }

  /** Every metric goes to exactly one place, and to a second one exactly after a lost reply. */
  lemma OneRow<M>(a: Answer, e: Entry<M>, x: Entry<M>)
    ensures (if e == x then 1 else 0) + Sent(a, Twice, e, x) == Sent(a, ToDatabase, e, x) + Sent(a, ToDead, e, x) + Sent(a, ToBuffer, e, x)
  {}

  lemma {:induction false} RowsPartition<M>(ms: seq<Entry<M>>, row: nat -> Answer, n: nat, x: Entry<M>)
    requires n <= |ms|
    ensures Count(ms[..n], x) + Count(Rows(ms, row, n, Twice), x)
         == Count(Rows(ms, row, n, ToDatabase), x) + Count(Rows(ms, row, n, ToDead), x) + Count(Rows(ms, row, n, ToBuffer), x)
  {
    if n > 0 {
      RowsPartition(ms, row, n - 1, x);
      CountNext(ms, n, x);
      RowPush(ms, row, n, ToDatabase, x);
      RowPush(ms, row, n, ToDead, x);
      RowPush(ms, row, n, ToBuffer, x);
      RowPush(ms, row, n, Twice, x);
      OneRow(row(n - 1), ms[n - 1], x);
    }
  }

  /** The insert was refused with an SQLSTATE of this class. */
  ghost predicate RefusedWith(a: Answer, prefix: string) {
    a.Failed? && a.sqlState.Some? && prefix <= a.sqlState.value
  }

  /** The insert may be tried again: its reply was lost, or it failed with no SQLSTATE or one of another class than 22 and 23. */
  ghost predicate MayRetry(a: Answer) {
    a.StoredReplyLost? || (a.Failed? && !RefusedWith(a, "22") && !RefusedWith(a, "23"))
  }

  lemma ByClass(a: Answer)
    ensures Goes(a, ToDead) <==> RefusedWith(a, "22") || RefusedWith(a, "23")
    ensures Goes(a, ToBuffer) <==> MayRetry(a)
    ensures Goes(a, ToDatabase) <==> a.Stored? || a.StoredReplyLost?
  {}

  /** A metric is dead-lettered exactly when its own insert was refused with class 22 or 23, and requeued exactly when its insert may be tried again. */
  lemma {:induction false} RowsByClass<M>(ms: seq<Entry<M>>, row: nat -> Answer, n: nat, x: Entry<M>)
    requires n <= |ms|
    ensures x in Rows(ms, row, n, ToDead) <==> exists i :: 0 <= i < n && ms[i] == x && (RefusedWith(row(i), "22") || RefusedWith(row(i), "23"))
    ensures x in Rows(ms, row, n, ToBuffer) <==> exists i :: 0 <= i < n && ms[i] == x && MayRetry(row(i))
    ensures x in Rows(ms, row, n, ToDatabase) <==> exists i :: 0 <= i < n && ms[i] == x && (row(i).Stored? || row(i).StoredReplyLost?)
  {
    if n > 0 {
      RowsByClass(ms, row, n - 1, x);
      ByClass(row(n - 1));
    }
  }

  /** What a flush leaves behind. */
  ghost function FlushOutcome<M>(s: Shared<M>, k: nat, a: Answers): Shared<M> {
    var ms := Decoded(Popped(s, k), true);
    if !a.popOk then s
    else if ms == [] then AfterPop(s, k)
    else if a.batch.Stored? then Inserted(AfterPop(s, k), ms)
    else if IsTransient(a.batch) then
      Requeued(if InDatabase(a.batch) then Inserted(AfterPop(s, k), ms) else AfterPop(s, k), ms, a.requeueReached)
    else
      var good, bad, retry := Rows(ms, a.row, |ms|, ToDatabase), Rows(ms, a.row, |ms|, ToDead), Rows(ms, a.row, |ms|, ToBuffer);
      DeadLettered(Requeued(Inserted(AfterPop(s, k), good), retry, a.requeueReached), bad, a.deadReached)
  }

  /** A refused batch is put back whole if it may be tried again, and nothing else changes; otherwise each row is tried on its own. */
  lemma FlushByClass<M>(s: Shared<M>, k: nat, a: Answers)
    requires a.popOk && Decoded(Popped(s, k), true) != [] && a.batch.Failed?
    ensures var ms, t := Decoded(Popped(s, k), true), FlushOutcome(s, k, a);
            if RefusedWith(a.batch, "22") || RefusedWith(a.batch, "23")
            then
              var bad, retry := Rows(ms, a.row, |ms|, ToDead), Rows(ms, a.row, |ms|, ToBuffer);
              && t.stored == s.stored + Rows(ms, a.row, |ms|, ToDatabase)
              && (a.requeueReached ==> t.buffer == Reverse(retry) + AfterPop(s, k).buffer)
              && (a.deadReached && |bad| + |s.dead| <= 10000 ==> t.dead == Reverse(bad) + s.dead)
            else t.stored == s.stored && t.dead == s.dead && (a.requeueReached ==> t.buffer == Reverse(ms) + AfterPop(s, k).buffer)
  {
    ByClass(a.batch);
  }

  /** Some insert of this flush hit a failure that may go away. */
  ghost predicate HitsTransient<M>(s: Shared<M>, k: nat, a: Answers) {
    var ms := Decoded(Popped(s, k), true);
    !a.popOk || (ms != [] && (IsTransient(a.batch) || (IsPermanent(a.batch) && Rows(ms, a.row, |ms|, ToBuffer) != [])))
  }

  /** What a flush stores and puts back as well. */
  ghost function Doubled<M>(s: Shared<M>, k: nat, a: Answers): seq<Entry<M>> {
    var ms := Decoded(Popped(s, k), true);
    if !a.popOk || ms == [] then []
    else if a.batch.StoredReplyLost? then ms
    else if IsPermanent(a.batch) then Rows(ms, a.row, |ms|, Twice)
    else []
  }

  /** A flush unmakes no entry and makes none but by a lost reply. */
  lemma FlushConserves<M>(s: Shared<M>, k: nat, a: Answers, x: Entry<M>)
    ensures Tally(FlushOutcome(s, k, a), x) == Tally(s, x) + Count(Doubled(s, k, a), x)
  {
    if a.popOk {
      var ms, s1 := Decoded(Popped(s, k), true), AfterPop(s, k);
      PopTally(s, k, x);
      if ms != [] {
        InsertTally(s1, ms, x);
        if IsTransient(a.batch) {
          RequeueTally(if InDatabase(a.batch) then Inserted(s1, ms) else s1, ms, a.requeueReached, x);
        } else if !a.batch.Stored? {
          IsolationConserves(s1, ms, a, x);
        }
      }
    }
  }

  lemma {:induction false} IsolationConserves<M>(s: Shared<M>, ms: seq<Entry<M>>, a: Answers, x: Entry<M>)
    ensures var good, bad, retry := Rows(ms, a.row, |ms|, ToDatabase), Rows(ms, a.row, |ms|, ToDead), Rows(ms, a.row, |ms|, ToBuffer);
            Tally(DeadLettered(Requeued(Inserted(s, good), retry, a.requeueReached), bad, a.deadReached), x) == Tally(s, x) + Count(ms, x) + Count(Rows(ms, a.row, |ms|, Twice), x)
  {
    var good, bad, retry := Rows(ms, a.row, |ms|, ToDatabase), Rows(ms, a.row, |ms|, ToDead), Rows(ms, a.row, |ms|, ToBuffer);
    RowsPartition(ms, a.row, |ms|, x);
    assert ms[..|ms|] == ms;
    var s2 := Inserted(s, good);
    var s3 := Requeued(s2, retry, a.requeueReached);
    InsertTally(s, good, x);
    RequeueTally(s2, retry, a.requeueReached, x);
    DeadLetterTally(s3, bad, a.deadReached, x);
  }

  /** The states around a row of flushes, the first answered by answers(0). */
  ghost predicate Trace<M>(tr: seq<Shared<M>>, k: nat, answers: nat -> Answers) {
    tr != [] && forall i {:trigger Turned(tr, k, answers, i)} :: 0 <= i < |tr| - 1 ==> Turned(tr, k, answers, i)
  }

  ghost predicate Turned<M>(tr: seq<Shared<M>>, k: nat, answers: nat -> Answers, i: nat)
    requires i + 1 < |tr|
  {
    tr[i + 1] == FlushOutcome(tr[i], k, answers(i))
  }

  ghost predicate CleanTurn<M>(tr: seq<Shared<M>>, k: nat, answers: nat -> Answers, i: nat)
    requires i < |tr|
  {
    !HitsTransient(tr[i], k, answers(i))
  }

  /** None of the flushes hit a transient failure. */
  ghost predicate Clean<M>(tr: seq<Shared<M>>, k: nat, answers: nat -> Answers) {
    forall i {:trigger CleanTurn(tr, k, answers, i)} :: 0 <= i < |tr| - 1 ==> CleanTurn(tr, k, answers, i)
  }

  lemma TraceFront<M>(tr: seq<Shared<M>>, k: nat, answers: nat -> Answers)
    requires Trace(tr, k, answers) && |tr| > 1
    ensures Trace(tr[..|tr| - 1], k, answers)
    ensures Clean(tr, k, answers) ==> Clean(tr[..|tr| - 1], k, answers)
  {
    var front := tr[..|tr| - 1];
    forall i | 0 <= i < |front| - 1 ensures Turned(front, k, answers, i) && (Clean(tr, k, answers) ==> CleanTurn(front, k, answers, i)) {
      assert Turned(tr, k, answers, i);
      assert Clean(tr, k, answers) ==> CleanTurn(tr, k, answers, i);
    }
  }

  /** What the first `n` flushes should leave of `x`: what there was, and the copies of lost replies. */
  ghost function WithCopies<M>(tr: seq<Shared<M>>, k: nat, answers: nat -> Answers, n: nat, x: Entry<M>): nat
    requires n < |tr|
  {
    if n == 0 then Tally(tr[0], x) else WithCopies(tr, k, answers, n - 1, x) + Count(Doubled(tr[n - 1], k, answers(n - 1)), x)
  }

  /** A drain unmakes no entry, and makes none but the copies of its lost replies. */
  lemma {:induction false} DrainConserves<M>(tr: seq<Shared<M>>, k: nat, answers: nat -> Answers, n: nat, x: Entry<M>)
    requires Trace(tr, k, answers) && n < |tr|
    ensures Tally(tr[n], x) == WithCopies(tr, k, answers, n, x)
  {
    if n > 0 {
      DrainConserves(tr, k, answers, n - 1, x);
      assert Turned(tr, k, answers, n - 1);
      FlushConserves(tr[n - 1], k, answers(n - 1), x);
    }
  }

  /** A flush without transient failure takes its batch off the buffer for good. */
  lemma CleanFlush<M>(s: Shared<M>, k: nat, a: Answers)
    requires !HitsTransient(s, k, a)
    ensures FlushOutcome(s, k, a).buffer == s.buffer[Cut(|s.buffer|, k)..]
    ensures |FlushOutcome(s, k, a).buffer| == |s.buffer| - Cut(|s.buffer|, k)
  {}

  /** What the first `t` batches of `k` leave of `n` entries. */
  function LeftOver(n: nat, k: nat, t: nat): nat {
    if n <= t * k then 0 else n - t * k
  }

  lemma {:induction false} CleanDrain<M>(tr: seq<Shared<M>>, k: nat, answers: nat -> Answers)
    requires Trace(tr, k, answers) && Clean(tr, k, answers)
    ensures |tr[|tr| - 1].buffer| == LeftOver(|tr[0].buffer|, k, |tr| - 1)
    decreases |tr|
  {
    if |tr| > 1 {
      var t := |tr| - 1;
      TraceFront(tr, k, answers);
      CleanDrain(tr[..t], k, answers);
      assert Turned(tr, k, answers, t - 1) && CleanTurn(tr, k, answers, t - 1);
      CleanFlush(tr[t - 1], k, answers(t - 1));
      OneMoreBatch(|tr[0].buffer|, k, t);
    }
  }

  lemma OneMoreBatch(n: nat, k: nat, t: nat)
    requires t > 0
    ensures LeftOver(n, k, t) == LeftOver(n, k, t - 1) - Cut(LeftOver(n, k, t - 1), k)
  {}

  /** A short batch means that the buffer ran dry, and further batches would find nothing. */
  lemma ShortBatch<M>(tr: seq<Shared<M>>, k: nat, answers: nat -> Answers, u: nat)
    requires Trace(tr, k, answers) && Clean(tr, k, answers) && 1 < |tr| <= u + 1
    requires |tr[|tr| - 2].buffer| < k
    ensures |tr[|tr| - 1].buffer| == LeftOver(|tr[0].buffer|, k, u)
  {
    var t := |tr| - 1;
    TraceFront(tr, k, answers);
    CleanDrain(tr[..t], k, answers);
    CleanDrain(tr, k, answers);
    OneMoreBatch(|tr[0].buffer|, k, t);
    Dry(|tr[0].buffer|, k, t, u);
  }

  lemma Dry(n: nat, k: nat, t: nat, u: nat)
    requires t <= u && LeftOver(n, k, t) == 0
    ensures LeftOver(n, k, u) == 0
  {}

  ghost predicate StoredAt(answers: nat -> Answers, i: nat) {
    answers(i).popOk && answers(i).batch.Stored?
  }

  /** From `s` to `t` the first `n` entries were taken off the buffer; their metrics were stored in their order, and the rest dropped. */
  ghost predicate TookHead<M>(s: Shared<M>, t: Shared<M>, n: nat) {
    && n <= |s.buffer| && t.buffer == s.buffer[n..]
    && t.stored == s.stored + Decoded(s.buffer[..n], true) && t.dropped == s.dropped + Decoded(s.buffer[..n], false)
    && t.dead == s.dead && t.lost == s.lost && t.trimmed == s.trimmed
  }

  lemma StoredFlush<M>(s: Shared<M>, k: nat, a: Answers)
    requires a.popOk && a.batch.Stored?
    ensures TookHead(s, FlushOutcome(s, k, a), Cut(|s.buffer|, k))
  {}

  lemma TookTwice<M>(s: Shared<M>, t: Shared<M>, u: Shared<M>, m: nat, n: nat)
    requires TookHead(s, t, m) && TookHead(t, u, n)
    ensures TookHead(s, u, m + n)
  {
    DecodedSplit(s.buffer, m, n, true);
    DecodedSplit(s.buffer, m, n, false);
    assert s.buffer[m..][n..] == s.buffer[m + n..];
  }

  lemma DecodedSplit<M>(items: seq<Entry<M>>, m: nat, n: nat, good: bool)
    requires m + n <= |items|
    ensures Decoded(items[..m + n], good) == Decoded(items[..m], good) + Decoded(items[m..][..n], good)
  {
    assert items[..m + n] == items[..m] + items[m..][..n];
    DecodedAppend(items[..m], items[m..][..n], good);
  }

  /** When every batch is stored, `t` flushes store the metrics of the first t * k entries in the order of the buffer. */
  lemma {:induction false} StoredInOrder<M>(tr: seq<Shared<M>>, k: nat, answers: nat -> Answers, t: nat)
    requires Trace(tr, k, answers) && t < |tr|
    requires forall i {:trigger StoredAt(answers, i)} :: 0 <= i < t ==> StoredAt(answers, i)
    ensures TookHead(tr[0], tr[t], Cut(|tr[0].buffer|, t * k))
  {
    if t == 0 {
      assert tr[0].buffer[..0] == [];
    } else {
      StoredInOrder(tr, k, answers, t - 1);
      assert Turned(tr, k, answers, t - 1) && StoredAt(answers, t - 1);
      StoredFlush(tr[t - 1], k, answers(t - 1));
      var n, m := |tr[0].buffer|, Cut(|tr[0].buffer|, (t - 1) * k);
      TookTwice(tr[0], tr[t - 1], tr[t], m, Cut(|tr[t - 1].buffer|, k));
      assert t * k == (t - 1) * k + k;
      assert m + Cut(n - m, k) == Cut(n, t * k);
    }
  }

  class Buffer<M(==)> {
    const batchSize: nat
    var s: Shared<M>

    constructor (batchSize: nat)
      ensures this.batchSize == batchSize && s == Shared([], [], [], [], [], [])
    {
      this.batchSize := batchSize;
      s := Shared([], [], [], [], [], []);
    }

    method Push(m: M)
      modifies this`s
      ensures s == old(s).(buffer := old(s).buffer + [Metric(m)])
    {
      s := s.(buffer := s.buffer + [Metric(m)]);
    }

    /** Pops a batch and keeps what unmarshals. */
    method Pop() returns (popped: nat, metrics: seq<Entry<M>>)
      modifies this`s
      ensures s == AfterPop(old(s), batchSize)
      ensures popped == |Popped(old(s), batchSize)| && metrics == Decoded(Popped(old(s), batchSize), true)
    {
      var items := s.buffer[..Cut(|s.buffer|, batchSize)];
      s := s.(buffer := s.buffer[|items|..]);
      popped := |items|;
      metrics := [];
      var i := 0;
      while i < |items|
        invariant 0 <= i <= |items|
        invariant metrics == Decoded(items[..i], true)
        invariant s == old(s).(buffer := old(s).buffer[|items|..], dropped := old(s).dropped + Decoded(items[..i], false))
      {
        assert items[..i + 1][..i] == items[..i];
        if items[i].Metric? {
          metrics := metrics + [items[i]];
        } else {
          s := s.(dropped := s.dropped + [items[i]]);
        }
        i := i + 1;
      }
      assert items[..i] == items;
    }

    /** One batch: how many entries were popped, and whether the drain may go on. */
    method Flush(a: Answers) returns (popped: nat, ok: bool)
      modifies this`s
      ensures s == FlushOutcome(old(s), batchSize, a)
      ensures popped == if a.popOk then Cut(|old(s).buffer|, batchSize) else 0
      ensures ok <==> !HitsTransient(old(s), batchSize, a)
    {
      if !a.popOk { return 0, false; }
      var metrics;
      popped, metrics := Pop();
      if popped == 0 { return 0, true; }
      if |metrics| == 0 { return popped, true; }
      if InDatabase(a.batch) { s := s.(stored := s.stored + metrics); }
      if a.batch.Stored? { return popped, true; }
      if !IsPermanent(a.batch) {
        Requeue(metrics, a.requeueReached);
        return popped, false;
      }
      var toRequeue, toDeadLetter := InsertRows(metrics, a.row);
      Requeue(toRequeue, a.requeueReached);
      DeadLetter(toDeadLetter, a.deadReached);
      ok := |toRequeue| == 0;
    }

    /** Inserts one by one and sorts the rest by whether the failure is permanent. */
    method InsertRows(metrics: seq<Entry<M>>, row: nat -> Answer) returns (toRequeue: seq<Entry<M>>, toDeadLetter: seq<Entry<M>>)
      modifies this`s
      ensures s == Inserted(old(s), Rows(metrics, row, |metrics|, ToDatabase))
      ensures toRequeue == Rows(metrics, row, |metrics|, ToBuffer)
      ensures toDeadLetter == Rows(metrics, row, |metrics|, ToDead)
    {
      toRequeue, toDeadLetter := [], [];
      var i := 0;
      while i < |metrics|
        invariant 0 <= i <= |metrics|
        invariant s == Inserted(old(s), Rows(metrics, row, i, ToDatabase))
        invariant toRequeue == Rows(metrics, row, i, ToBuffer)
        invariant toDeadLetter == Rows(metrics, row, i, ToDead)
      {
        var answer := row(i);
        if InDatabase(answer) { s := s.(stored := s.stored + [metrics[i]]); }
        if answer.Stored? {
        } else if IsPermanent(answer) {
          toDeadLetter := toDeadLetter + [metrics[i]];
        } else {
          toRequeue := toRequeue + [metrics[i]];
        }
        i := i + 1;
      }
    }

    method Requeue(metrics: seq<Entry<M>>, reached: bool)
      modifies this`s
      ensures s == Requeued(old(s), metrics, reached)
    {
      if |metrics| == 0 {
        assert s == Requeued(s, metrics, reached);
        return;
      }
      s := if reached then s.(buffer := Reverse(metrics) + s.buffer) else s.(lost := s.lost + metrics);
    }

    method DeadLetter(metrics: seq<Entry<M>>, reached: bool)
      modifies this`s
      ensures s == DeadLettered(old(s), metrics, reached)
    {
      if |metrics| == 0 { return; }
      if !reached {
        s := s.(lost := s.lost + metrics);
        return;
      }
      var all := Reverse(metrics) + s.dead;
      var n := Cut(|all|, DEAD_LETTER_MAX);
      s := s.(dead := all[..n], trimmed := all[n..] + s.trimmed);
    }

    /** One turn of the drain loop. */
    method Turn(answers: nat -> Answers, i: nat, ghost tr: seq<Shared<M>>) returns (popped: nat, ok: bool, ghost after: seq<Shared<M>>)
      requires |tr| == i + 1 && Trace(tr, batchSize, answers) && Clean(tr, batchSize, answers) && s == tr[i]
      modifies this`s
      ensures after == tr + [s] && Trace(after, batchSize, answers)
      ensures ok <==> Clean(after, batchSize, answers)
      ensures ok && popped < batchSize ==> |tr[i].buffer| < batchSize
    {
      popped, ok := Flush(answers(i));
      after := tr + [s];
      forall j | 0 <= j < |after| - 1
        ensures Turned(after, batchSize, answers, j) && (CleanTurn(after, batchSize, answers, j) <==> ok || j < i)
      {
        if j < i {
          assert Turned(tr, batchSize, answers, j) && CleanTurn(tr, batchSize, answers, j);
        }
      }
      assert Clean(after, batchSize, answers) ==> CleanTurn(after, batchSize, answers, i);
    }

    /**
     * Flushes until the buffer runs dry, a transient failure occurs, or 50 batches were done. With no
     * transient failure exactly the first 50 batches are gone from the buffer.
     */
    method Drain(answers: nat -> Answers) returns (ghost tr: seq<Shared<M>>)
      modifies this`s
      ensures Trace(tr, batchSize, answers) && tr[0] == old(s) && tr[|tr| - 1] == s && |tr| <= 51
      ensures Clean(tr, batchSize, answers) ==> |s.buffer| == LeftOver(|old(s).buffer|, batchSize, 50)
      ensures !Clean(tr, batchSize, answers) ==> |tr| > 1 && Clean(tr[..|tr| - 1], batchSize, answers)
    {
      tr := [s];
      var i := 0;
      while i < MAX_BATCHES_PER_TICK
        invariant 0 <= i <= MAX_BATCHES_PER_TICK && |tr| == i + 1
        invariant Trace(tr, batchSize, answers) && Clean(tr, batchSize, answers)
        invariant tr[0] == old(s) && tr[i] == s
      {
        ghost var before := tr;
        var popped, ok;
        popped, ok, tr := Turn(answers, i, tr);
        i := i + 1;
        if !ok {
          assert tr[..|tr| - 1] == before;
          return;
        }
        if popped < batchSize {
          ShortBatch(tr, batchSize, answers, MAX_BATCHES_PER_TICK);
          return;
        }
      }
      CleanDrain(tr, batchSize, answers);
    }
  }

  // ---------- Several instances at once -------------------------------------------------

  /** Where an instance stands in a flush, and the metrics only it holds. */
  datatype Pc<M> =
    | Idle
    | Holding(metrics: seq<Entry<M>>)
    | RowByRow(todo: seq<Entry<M>>, retry: seq<Entry<M>>, bad: seq<Entry<M>>)
    | Requeueing(retry: seq<Entry<M>>, bad: seq<Entry<M>>)
    | DeadLettering(bad: seq<Entry<M>>)

  ghost function Held<M>(pc: Pc<M>, x: Entry<M>): nat {
    match pc
    case Idle => 0
    case Holding(metrics) => Count(metrics, x)
    case RowByRow(todo, retry, bad) => Count(todo, x) + Count(retry, x) + Count(bad, x)
    case Requeueing(retry, bad) => Count(retry, x) + Count(bad, x)
    case DeadLettering(bad) => Count(bad, x)
  }

  function AllHeld<M>(pc: Pc<M>): seq<Entry<M>> {
    match pc
    case Idle => []
    case Holding(metrics) => metrics
    case RowByRow(todo, retry, bad) => todo + retry + bad
    case Requeueing(retry, bad) => retry + bad
    case DeadLettering(bad) => bad
  }

  datatype System<M> = System(shared: Shared<M>, pcs: seq<Pc<M>>)

  /** `i` is the instance that takes the step. */
  datatype Step<M> =
    | Push(e: Entry<M>)
    | Pop(i: nat)
    | ReplyLost(i: nat)
    | InsertBatch(i: nat, answer: Answer)
    | InsertRow(i: nat, answer: Answer)
    | RowsDone(i: nat)
    | Requeue(i: nat, reached: bool)
    | DeadLetter(i: nat, reached: bool)
    | Crash(i: nat)

  ghost predicate Enabled<M>(s: System<M>, step: Step<M>) {
    step.Push? || (step.i < |s.pcs| &&
      match step
      case Pop(i) => s.pcs[i].Idle?
      case ReplyLost(i) => s.pcs[i].Idle?
      case InsertBatch(i, _) => s.pcs[i].Holding?
      case InsertRow(i, _) => s.pcs[i].RowByRow? && s.pcs[i].todo != []
      case RowsDone(i) => s.pcs[i].RowByRow? && s.pcs[i].todo == []
      case Requeue(i, _) => s.pcs[i].Requeueing?
      case DeadLetter(i, _) => s.pcs[i].DeadLettering?
      case _ => true)
  }

  /** The shared lists after a step of an instance that stands at `pc`. */
  ghost function SharedAfter<M>(s: Shared<M>, pc: Pc<M>, step: Step<M>, k: nat): Shared<M> {
    match step
    case Push(e) => s.(buffer := s.buffer + [e])
    case Pop(_) => AfterPop(s, k)
    case ReplyLost(_) => AfterPop(s, k).(lost := s.lost + Decoded(Popped(s, k), true))
    case InsertBatch(_, answer) => if InDatabase(answer) && pc.Holding? then Inserted(s, pc.metrics) else s
    case InsertRow(_, answer) => if InDatabase(answer) && pc.RowByRow? && pc.todo != [] then Inserted(s, [pc.todo[0]]) else s
    case RowsDone(_) => s
    case Requeue(_, reached) => if pc.Requeueing? then Requeued(s, pc.retry, reached) else s
    case DeadLetter(_, reached) => if pc.DeadLettering? then DeadLettered(s, pc.bad, reached) else s
    case Crash(_) => s.(lost := s.lost + AllHeld(pc))
  }

  ghost function PcAfter<M>(s: Shared<M>, pc: Pc<M>, step: Step<M>, k: nat): Pc<M> {
    match step
    case Push(_) => pc
    case Pop(_) =>
      var ms := Decoded(Popped(s, k), true);
      if ms == [] then Idle else Holding(ms)
    case ReplyLost(_) => Idle
    case InsertBatch(_, answer) =>
      if !pc.Holding? || answer.Stored? then Idle
      else if IsPermanent(answer) then RowByRow(pc.metrics, [], [])
      else Requeueing(pc.metrics, [])
    case InsertRow(_, answer) =>
      if !pc.RowByRow? || pc.todo == [] then pc
      else if answer.Stored? then pc.(todo := pc.todo[1..])
      else if IsPermanent(answer) then pc.(todo := pc.todo[1..], bad := pc.bad + [pc.todo[0]])
      else pc.(todo := pc.todo[1..], retry := pc.retry + [pc.todo[0]])
    case RowsDone(_) => if pc.RowByRow? then Requeueing(pc.retry, pc.bad) else pc
    case Requeue(_, _) => if pc.Requeueing? then DeadLettering(pc.bad) else pc
    case DeadLetter(_, _) => Idle
    case Crash(_) => Idle
  }

  ghost function Next<M>(s: System<M>, step: Step<M>, k: nat): System<M>
    requires Enabled(s, step)
  {
    if step.Push? then s.(shared := SharedAfter(s.shared, Idle, step, k))
    else
      var pc := s.pcs[step.i];
      System(SharedAfter(s.shared, pc, step, k), s.pcs[step.i := PcAfter(s.shared, pc, step, k)])
  }

  /** How often a step of an instance at `pc` stores `x` and keeps it as well: the reply to its insert was lost. */
  ghost function CopiedBy<M>(pc: Pc<M>, step: Step<M>, x: Entry<M>): nat {
    match step
    case InsertBatch(_, answer) => if answer.StoredReplyLost? && pc.Holding? then Count(pc.metrics, x) else 0
    case InsertRow(_, answer) => if answer.StoredReplyLost? && pc.RowByRow? && pc.todo != [] && pc.todo[0] == x then 1 else 0
    case _ => 0
  }

  /** One instance's step moves entries between its memory and the shared lists; it unmakes none, and makes none but by a lost reply. */
  lemma StepConserves<M>(s: Shared<M>, pc: Pc<M>, step: Step<M>, k: nat, x: Entry<M>)
    requires !step.Push? && Enabled(System(s, [pc]), step.(i := 0))
    ensures Tally(SharedAfter(s, pc, step, k), x) + Held(PcAfter(s, pc, step, k), x) == Tally(s, x) + Held(pc, x) + CopiedBy(pc, step, x)
  {
    match step
    case Pop(_) => PopTally(s, k, x);
    case ReplyLost(_) => LostPopConserves(s, k, x);
    case InsertBatch(_, _) => BatchConserves(s, pc, step, k, x);
    case InsertRow(_, _) => RowConserves(s, pc, step, k, x);
    case RowsDone(_) =>
    case Requeue(_, reached) => RequeueTally(s, pc.retry, reached, x);
    case DeadLetter(_, reached) => DeadLetterTally(s, pc.bad, reached, x);
    case Crash(_) => CrashConserves(s, pc, x);
  }

  lemma LostPopConserves<M>(s: Shared<M>, k: nat, x: Entry<M>)
    ensures var ms := Decoded(Popped(s, k), true); Tally(AfterPop(s, k).(lost := s.lost + ms), x) == Tally(s, x)
  {
    var ms := Decoded(Popped(s, k), true);
    TallyIs(AfterPop(s, k), x);
    TallyIs(AfterPop(s, k).(lost := s.lost + ms), x);
    PopTally(s, k, x);
    CountAppend(s.lost, Decoded(Popped(s, k), true), x);
  }

  lemma BatchConserves<M>(s: Shared<M>, pc: Pc<M>, step: Step<M>, k: nat, x: Entry<M>)
    requires step.InsertBatch? && pc.Holding?
    ensures Tally(SharedAfter(s, pc, step, k), x) + Held(PcAfter(s, pc, step, k), x) == Tally(s, x) + Held(pc, x) + CopiedBy(pc, step, x)
  {
    if InDatabase(step.answer) {
      InsertTally(s, pc.metrics, x);
      assert SharedAfter(s, pc, step, k) == Inserted(s, pc.metrics);
    } else {
      assert SharedAfter(s, pc, step, k) == s;
    }
  }

  lemma RowConserves<M>(s: Shared<M>, pc: Pc<M>, step: Step<M>, k: nat, x: Entry<M>)
    requires step.InsertRow? && pc.RowByRow? && pc.todo != []
    ensures Tally(SharedAfter(s, pc, step, k), x) + Held(PcAfter(s, pc, step, k), x) == Tally(s, x) + Held(pc, x) + CopiedBy(pc, step, x)
  {
    CountHead(pc.todo, x);
    if InDatabase(step.answer) { InsertTally(s, [pc.todo[0]], x); }
    if IsPermanent(step.answer) {
      CountPush(pc.bad, pc.todo[0], x);
    } else if !step.answer.Stored? {
      CountPush(pc.retry, pc.todo[0], x);
    }
  }

  lemma CrashConserves<M>(s: Shared<M>, pc: Pc<M>, x: Entry<M>)
    ensures Tally(s.(lost := s.lost + AllHeld(pc)), x) == Tally(s, x) + Held(pc, x)
  {
    TallyIs(s, x);
    TallyIs(s.(lost := s.lost + AllHeld(pc)), x);
    CountAppend(s.lost, AllHeld(pc), x);
    match pc
    case RowByRow(todo, retry, bad) =>
      CountAppend(todo + retry, bad, x);
      CountAppend(todo, retry, x);
    case Requeueing(retry, bad) => CountAppend(retry, bad, x);
    case _ =>
  }

  /** How often `x` is in the memory of the first `n` instances. */
  ghost function HeldBy<M>(pcs: seq<Pc<M>>, n: nat, x: Entry<M>): nat
    requires n <= |pcs|
  {
    if n == 0 then 0 else HeldBy(pcs, n - 1, x) + Held(pcs[n - 1], x)
  }

  lemma {:induction false} HeldByUpdate<M>(pcs: seq<Pc<M>>, n: nat, i: nat, pc: Pc<M>, x: Entry<M>)
    requires n <= |pcs| && i < |pcs|
    ensures HeldBy(pcs[i := pc], n, x) + (if i < n then Held(pcs[i], x) else 0) == HeldBy(pcs, n, x) + (if i < n then Held(pc, x) else 0)
  {
    if n > 0 { HeldByUpdate(pcs, n - 1, i, pc, x); }
  }

  ghost function Start<M>(instances: nat): System<M> {
    System(Shared([], [], [], [], [], []), seq(instances, _ => Idle))
  }

  ghost function After<M>(s: System<M>, steps: seq<Step<M>>, n: nat, k: nat): Option<System<M>>
    requires n <= |steps|
  {
    if n == 0 then Some(s)
    else
      var before := After(s, steps, n - 1, k);
      if before.None? || !Enabled(before.value, steps[n - 1]) then None else Some(Next(before.value, steps[n - 1], k))
  }

  ghost function Pushed<M>(steps: seq<Step<M>>, n: nat, x: Entry<M>): nat
    requires n <= |steps|
  {
    if n == 0 then 0 else Pushed(steps, n - 1, x) + if steps[n - 1] == Push(x) then 1 else 0
  }

  /** How often a step stores `x` and keeps it as well. */
  ghost function CopiesOf<M>(s: System<M>, step: Step<M>, x: Entry<M>): nat
    requires Enabled(s, step)
  {
    if step.Push? then 0 else CopiedBy(s.pcs[step.i], step, x)
  }

  ghost function Copied<M>(s: System<M>, steps: seq<Step<M>>, n: nat, k: nat, x: Entry<M>): nat
    requires n <= |steps| && After(s, steps, n, k).Some?
  {
    if n == 0 then 0 else Copied(s, steps, n - 1, k, x) + CopiesOf(After(s, steps, n - 1, k).value, steps[n - 1], x)
  }

  /** How often `x` is anywhere. */
  ghost function Total<M>(s: System<M>, x: Entry<M>): nat {
    Tally(s.shared, x) + HeldBy(s.pcs, |s.pcs|, x)
  }

  lemma PushTally<M>(s: Shared<M>, e: Entry<M>, x: Entry<M>)
    ensures Tally(s.(buffer := s.buffer + [e]), x) == Tally(s, x) + if e == x then 1 else 0
  {
    TallyIs(s, x);
    TallyIs(s.(buffer := s.buffer + [e]), x);
    CountPush(s.buffer, e, x);
  }

  lemma StoredIsPart<M>(s: System<M>, x: Entry<M>)
    ensures Count(s.shared.stored, x) <= Total(s, x)
  {
    TallyIs(s.shared, x);
  }

  lemma NextConserves<M>(s: System<M>, step: Step<M>, k: nat, x: Entry<M>)
    requires Enabled(s, step)
    ensures Total(Next(s, step, k), x) == Total(s, x) + (if step == Push(x) then 1 else 0) + CopiesOf(s, step, x)
    ensures |s.shared.dead| <= DEAD_LETTER_MAX ==> |Next(s, step, k).shared.dead| <= DEAD_LETTER_MAX
  {
    if step.Push? {
      PushTally(s.shared, step.e, x);
    } else {
      var pc := s.pcs[step.i];
      StepConserves(s.shared, pc, step, k, x);
      HeldByUpdate(s.pcs, |s.pcs|, step.i, PcAfter(s.shared, pc, step, k), x);
      if |s.shared.dead| <= DEAD_LETTER_MAX { DeadStaysShort(s.shared, pc, step, k); }
    }
  }

  lemma {:induction false} RunConserves<M>(s: System<M>, steps: seq<Step<M>>, n: nat, k: nat, x: Entry<M>)
    requires n <= |steps| && After(s, steps, n, k).Some?
    ensures Total(After(s, steps, n, k).value, x) == Total(s, x) + Pushed(steps, n, x) + Copied(s, steps, n, k, x)
    ensures |s.shared.dead| <= DEAD_LETTER_MAX ==> |After(s, steps, n, k).value.shared.dead| <= DEAD_LETTER_MAX
  {
    if n > 0 {
      RunConserves(s, steps, n - 1, k, x);
      NextConserves(After(s, steps, n - 1, k).value, steps[n - 1], k, x);
    }
  }

  /**
   * In every run of any number of instances, with any mix of failures and crashes, every pushed entry, and
   * every copy that a lost reply to an insert made of it, is in exactly one place: stored, buffered, in
   * an instance's memory, dead-lettered, trimmed, dropped as undecodable, or lost with a failed Redis
   * command or a crash.
   */
  lemma EveryRunConserves<M>(instances: nat, steps: seq<Step<M>>, n: nat, k: nat, x: Entry<M>)
    requires n <= |steps| && After(Start(instances), steps, n, k).Some?
    ensures var s := After(Start(instances), steps, n, k).value;
            && Total(s, x) == Pushed(steps, n, x) + Copied(Start(instances), steps, n, k, x)
            && |s.shared.dead| <= DEAD_LETTER_MAX
  {
    RunConserves(Start(instances), steps, n, k, x);
    TallyIs(Start<M>(instances).shared, x);
    NoneHeld(Start<M>(instances).pcs, instances, x);
  }

  /** A crash while holding metrics, a lost reply to a pop, or a push that did not reach Redis. */
  ghost predicate Loses<M>(step: Step<M>) {
    match step
    case ReplyLost(_) => true
    case Requeue(_, reached) => !reached
    case DeadLetter(_, reached) => !reached
    case Crash(_) => true
    case _ => false
  }

  /** Entries get lost only through those steps. */
  lemma {:induction false} NothingElseLoses<M>(s: System<M>, steps: seq<Step<M>>, n: nat, k: nat)
    requires n <= |steps| && After(s, steps, n, k).Some?
    requires forall i :: 0 <= i < n ==> !Loses(steps[i])
    ensures After(s, steps, n, k).value.shared.lost == s.shared.lost
  {
    if n > 0 {
      NothingElseLoses(s, steps, n - 1, k);
      var before, step := After(s, steps, n - 1, k).value, steps[n - 1];
      if !step.Push? {
        LostUnchanged(before.shared, before.pcs[step.i], step, k);
      }
    }
  }

  lemma LostUnchanged<M>(s: Shared<M>, pc: Pc<M>, step: Step<M>, k: nat)
    requires !Loses(step)
    ensures SharedAfter(s, pc, step, k).lost == s.lost
  {}

  lemma DeadStaysShort<M>(s: Shared<M>, pc: Pc<M>, step: Step<M>, k: nat)
    requires |s.dead| <= DEAD_LETTER_MAX
    ensures |SharedAfter(s, pc, step, k).dead| <= DEAD_LETTER_MAX
  {}

  lemma {:induction false} NoneHeld<M>(pcs: seq<Pc<M>>, n: nat, x: Entry<M>)
    requires n <= |pcs| && forall i :: 0 <= i < |pcs| ==> pcs[i].Idle?
    ensures HeldBy(pcs, n, x) == 0
  {
    if n > 0 { NoneHeld(pcs, n - 1, x); }
  }

  // ---------- When an entry is stored twice ------------------------------------------------

  ghost predicate InsertReplyLost<M>(step: Step<M>) {
    (step.InsertBatch? || step.InsertRow?) && step.answer.StoredReplyLost?
  }

  /** From step `from` on, no reply to an insert is lost and `x` is not pushed. */
  ghost predicate NoCopies<M>(steps: seq<Step<M>>, from: nat, x: Entry<M>) {
    forall j {:trigger steps[j]} :: from <= j < |steps| ==> !InsertReplyLost(steps[j]) && steps[j] != Push(x)
  }

  lemma {:induction false} NothingCopied<M>(s: System<M>, steps: seq<Step<M>>, from: nat, n: nat, k: nat, x: Entry<M>)
    requires from <= n <= |steps| && After(s, steps, n, k).Some? && NoCopies(steps, from, x)
    ensures After(s, steps, from, k).Some?
    ensures Pushed(steps, n, x) == Pushed(steps, from, x) && Copied(s, steps, n, k, x) == Copied(s, steps, from, k, x)
    decreases n
  {
    if from < n {
      NothingCopied(s, steps, from, n - 1, k, x);
      assert steps[n - 1] != Push(x) && !InsertReplyLost(steps[n - 1]);
    }
  }

  /** Without a lost reply to an insert no entry is stored more often than it was pushed. */
  lemma {:induction false} StoredAtMostPushed<M>(instances: nat, steps: seq<Step<M>>, n: nat, k: nat, x: Entry<M>)
    requires n <= |steps| && After(Start(instances), steps, n, k).Some? && forall j :: 0 <= j < n ==> !InsertReplyLost(steps[j])
    ensures Count(After(Start(instances), steps, n, k).value.shared.stored, x) <= Pushed(steps, n, x)
  {
    EveryRunConserves(instances, steps, n, k, x);
    NoneCopied(Start(instances), steps, n, k, x);
    StoredIsPart(After(Start(instances), steps, n, k).value, x);
  }

  lemma {:induction false} NoneCopied<M>(s: System<M>, steps: seq<Step<M>>, n: nat, k: nat, x: Entry<M>)
    requires n <= |steps| && After(s, steps, n, k).Some? && forall j :: 0 <= j < n ==> !InsertReplyLost(steps[j])
    ensures Copied(s, steps, n, k, x) == 0
  {
    if n > 0 { NoneCopied(s, steps, n - 1, k, x); }
  }

  /** Step `ins` is about to insert `x`, in a batch or alone. */
  ghost predicate InsertsNow<M>(s: System<M>, ins: Step<M>, x: Entry<M>) {
    && Enabled(s, ins)
    && ((ins.InsertBatch? && x in s.pcs[ins.i].metrics) || (ins.InsertRow? && s.pcs[ins.i].todo[0] == x))
  }

  /** `steps` leads from `s` to `t` without a further copy of `x`. */
  ghost predicate Leads<M>(s: System<M>, steps: seq<Step<M>>, t: System<M>, k: nat, x: Entry<M>) {
    After(s, steps, |steps|, k) == Some(t) && NoCopies(steps, 0, x)
  }

  lemma {:induction false} AfterPrefix<M>(s: System<M>, front: seq<Step<M>>, back: seq<Step<M>>, n: nat, k: nat)
    requires n <= |front|
    ensures After(s, front + back, n, k) == After(s, front, n, k)
  {
    if n > 0 { AfterPrefix(s, front, back, n - 1, k); }
  }

  lemma {:induction false} AfterSplit<M>(s: System<M>, front: seq<Step<M>>, back: seq<Step<M>>, n: nat, k: nat)
    requires n <= |back| && After(s, front, |front|, k).Some?
    ensures After(s, front + back, |front| + n, k) == After(After(s, front, |front|, k).value, back, n, k)
  {
    if n == 0 {
      AfterPrefix(s, front, back, |front|, k);
    } else {
      AfterSplit(s, front, back, n - 1, k);
    }
  }

  lemma OneStep<M>(s: System<M>, step: Step<M>, k: nat)
    requires Enabled(s, step)
    ensures After(s, [step], 1, k) == Some(Next(s, step, k))
  {
    assert After(s, [step], 0, k) == Some(s);
  }

  lemma AfterOne<M>(s: System<M>, step: Step<M>, more: seq<Step<M>>, k: nat)
    requires Enabled(s, step)
    ensures After(s, [step] + more, 1 + |more|, k) == After(Next(s, step, k), more, |more|, k)
  {
    OneStep(s, step, k);
    AfterSplit(s, [step], more, |more|, k);
  }

  lemma LeadsOn<M>(s: System<M>, step: Step<M>, back: seq<Step<M>>, t: System<M>, k: nat, x: Entry<M>)
    requires Enabled(s, step) && !InsertReplyLost(step) && step != Push(x)
    requires Leads(Next(s, step, k), back, t, k, x)
    ensures Leads(s, [step] + back, t, k, x)
  {
    AfterOne(s, step, back, k);
    forall j | 0 <= j < |[step] + back| ensures !InsertReplyLost(([step] + back)[j]) && ([step] + back)[j] != Push(x) {
      if j > 0 { assert ([step] + back)[j] == back[j - 1]; }
    }
  }

  /** `x` is stored once more in `t`. */
  ghost predicate StoredAgain<M>(s: System<M>, t: System<M>, x: Entry<M>) {
    Count(t.shared.stored, x) > Count(s.shared.stored, x)
  }

  /** An idle instance that flushes on gets to every metric in the buffer. */
  lemma {:induction false} FlushesOn<M>(s: System<M>, i: nat, p: nat, k: nat, x: Entry<M>) returns (steps: seq<Step<M>>, t: System<M>)
    requires k > 0 && x.Metric? && i < |s.pcs| && s.pcs[i].Idle? && p < |s.shared.buffer| && s.shared.buffer[p] == x
    ensures Leads(s, steps, t, k, x) && StoredAgain(s, t, x)
    decreases p
  {
    var c, ms := Cut(|s.shared.buffer|, k), Decoded(Popped(s.shared, k), true);
    var popped := Next(s, Pop(i), k);
    var rest: seq<Step<M>> := [];
    if ms == [] {
      if p < c { PoppedIsHeld(s.shared, p, k); }
      rest, t := FlushesOn(popped, i, p - c, k, x);
    } else {
      var ins := InsertBatch(i, Stored);
      var stored := Next(popped, ins, k);
      CountAppend(s.shared.stored, ms, x);
      if p < c {
        PoppedIsHeld(s.shared, p, k);
        CountZero(ms, x);
        t := stored;
        assert After(stored, [], 0, k) == Some(stored);
      } else {
        rest, t := FlushesOn(stored, i, p - c, k, x);
      }
      LeadsOn(popped, ins, rest, t, k, x);
      rest := [ins] + rest;
    }
    LeadsOn(s, Pop(i), rest, t, k, x);
    steps := [Pop(i)] + rest;
  }

  lemma PoppedIsHeld<M>(s: Shared<M>, p: nat, k: nat)
    requires p < Cut(|s.buffer|, k) && s.buffer[p].Metric?
    ensures s.buffer[p] in Decoded(Popped(s, k), true)
  {
    DecodedHas(Popped(s, k), s.buffer[p]);
  }

  lemma {:induction false} DecodedHas<M>(items: seq<Entry<M>>, x: Entry<M>)
    requires x.Metric? && x in items
    ensures x in Decoded(items, true)
  {
    if x != items[|items| - 1] { DecodedHas(items[..|items| - 1], x); }
  }

  /** What is requeued is stored by a later flush. */
  lemma RequeuesAndStores<M>(s: System<M>, i: nat, k: nat, x: Entry<M>) returns (steps: seq<Step<M>>, t: System<M>)
    requires k > 0 && x.Metric? && i < |s.pcs| && s.pcs[i].Requeueing? && x in s.pcs[i].retry
    ensures Leads(s, steps, t, k, x) && StoredAgain(s, t, x)
  {
    var pc := s.pcs[i];
    var back := Next(s, Requeue(i, true), k);
    var idle := Next(back, DeadLetter(i, true), k);
    CountReverse(pc.retry, x);
    CountZero(pc.retry, x);
    CountZero(Reverse(pc.retry), x);
    var p: nat :| p < |Reverse(pc.retry)| && Reverse(pc.retry)[p] == x;
    var rest;
    rest, t := FlushesOn(idle, i, p, k, x);
    LeadsOn(back, DeadLetter(i, true), rest, t, k, x);
    LeadsOn(s, Requeue(i, true), [DeadLetter(i, true)] + rest, t, k, x);
    steps := [Requeue(i, true)] + ([DeadLetter(i, true)] + rest);
  }

  lemma {:induction false} FinishesRows<M>(s: System<M>, i: nat, k: nat, x: Entry<M>) returns (steps: seq<Step<M>>, t: System<M>)
    requires k > 0 && x.Metric? && i < |s.pcs| && s.pcs[i].RowByRow? && x in s.pcs[i].retry
    ensures Leads(s, steps, t, k, x) && StoredAgain(s, t, x)
    decreases if i < |s.pcs| && s.pcs[i].RowByRow? then |s.pcs[i].todo| else 0
  {
    var step := if s.pcs[i].todo == [] then RowsDone(i) else InsertRow(i, Stored);
    var next := Next(s, step, k);
    var rest;
    if s.pcs[i].todo == [] {
      rest, t := RequeuesAndStores(next, i, k, x);
    } else {
      CountAppend(s.shared.stored, [s.pcs[i].todo[0]], x);
      rest, t := FinishesRows(next, i, k, x);
    }
    LeadsOn(s, step, rest, t, k, x);
    steps := [step] + rest;
  }

  /** After `ins` the run goes on as `more`, without another lost reply, and `x` ends up stored twice. */
  ghost predicate StoresTwice<M>(s: System<M>, ins: Step<M>, more: seq<Step<M>>, k: nat, x: Entry<M>) {
    && NoCopies(more, 0, x)
    && After(s, [ins] + more, 1 + |more|, k).Some? && Count(After(s, [ins] + more, 1 + |more|, k).value.shared.stored, x) >= 2
  }

  ghost predicate MayStoreTwice<M(!new)>(s: System<M>, ins: Step<M>, k: nat, x: Entry<M>) {
    exists more {:trigger StoresTwice(s, ins, more, k, x)} :: StoresTwice(s, ins, more, k, x)
  }

  lemma LostReplyStores<M>(s: System<M>, ins: Step<M>, k: nat, x: Entry<M>)
    requires InsertsNow(s, ins, x) && ins.answer.StoredReplyLost?
    ensures StoredAgain(s, Next(s, ins, k), x)
  {
    if ins.InsertBatch? {
      CountAppend(s.shared.stored, s.pcs[ins.i].metrics, x);
      CountZero(s.pcs[ins.i].metrics, x);
    } else {
      CountPush(s.shared.stored, x, x);
    }
  }

  lemma LostReplyStoresTwice<M>(s: System<M>, ins: Step<M>, k: nat, x: Entry<M>) returns (more: seq<Step<M>>)
    requires k > 0 && x.Metric? && InsertsNow(s, ins, x) && ins.answer.StoredReplyLost?
    ensures StoresTwice(s, ins, more, k, x)
  {
    var next, t := Next(s, ins, k), s;
    if ins.InsertBatch? {
      more, t := RequeuesAndStores(next, ins.i, k, x);
    } else {
      more, t := FinishesRows(next, ins.i, k, x);
    }
    LostReplyStores(s, ins, k, x);
    AfterOne(s, ins, more, k);
  }

  /**
   * Exactly when: a metric that is in one place, and is being inserted, can end up stored twice without
   * any further lost reply if and only if the reply to this insert is lost.
   */
  lemma StoredTwiceIff<M(!new)>(s: System<M>, ins: Step<M>, k: nat, x: Entry<M>)
    requires k > 0 && x.Metric? && InsertsNow(s, ins, x) && Total(s, x) == 1
    ensures MayStoreTwice(s, ins, k, x) <==> ins.answer.StoredReplyLost?
  {
    if ins.answer.StoredReplyLost? {
      var more := LostReplyStoresTwice(s, ins, k, x);
    } else {
      forall more ensures !StoresTwice(s, ins, more, k, x) {
        if StoresTwice(s, ins, more, k, x) {
          var steps := [ins] + more;
          RunConserves(s, steps, |steps|, k, x);
          NothingCopied(s, steps, 0, |steps|, k, x);
          StoredIsPart(After(s, steps, |steps|, k).value, x);
          assert false;
        }
      }
    }
  }
}
