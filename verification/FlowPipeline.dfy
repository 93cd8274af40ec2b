/**
 * Flow ingest from the UDP readers through a bounded queue to the batch writer, with the ordered
 * shutdown: sockets, readers, queue, writer. The goroutines are interleaved one step at a time.
 */
module FlowPipeline {
  import opened Basics

  // ---------- The writer's own state ------------------------------------------------

  datatype Config = Config(queueSize: nat, batchSize: nat)

  /** `batches` are the batches handed to the store, oldest first. */
  datatype Writer<F> = Writer(queue: seq<F>, pending: seq<F>, batches: seq<seq<F>>)

  ghost function Flatten<F>(batches: seq<seq<F>>): seq<F> {
    if batches == [] then [] else Flatten(batches[..|batches| - 1]) + batches[|batches| - 1]
  }

  /** Everything that went through the writer, in order. */
  ghost function Contents<F>(w: Writer<F>): seq<F> {
    Flatten(w.batches) + w.pending + w.queue
  }

  ghost predicate InOrder<F>(w: Writer<F>, c: Config) {
    && |w.queue| <= c.queueSize && |w.pending| < c.batchSize
    && forall i :: 0 <= i < |w.batches| ==> 1 <= |w.batches[i]| <= c.batchSize
  }

  function Offered<F>(w: Writer<F>, c: Config, f: F): Writer<F> {
    if |w.queue| < c.queueSize then w.(queue := w.queue + [f]) else w
  }

  function Flushed<F>(w: Writer<F>): Writer<F> {
    if w.pending == [] then w else w.(pending := [], batches := w.batches + [w.pending])
  }

  function Received<F>(w: Writer<F>, c: Config): Writer<F>
    requires w.queue != []
  {
    var taken := w.(queue := w.queue[1..], pending := w.pending + [w.queue[0]]);
    if |taken.pending| >= c.batchSize then Flushed(taken) else taken
  }

  lemma OfferAppends<F>(w: Writer<F>, c: Config, f: F)
    requires InOrder(w, c)
    ensures InOrder(Offered(w, c, f), c)
    ensures Contents(Offered(w, c, f)) == if |w.queue| < c.queueSize then Contents(w) + [f] else Contents(w)
  {}

  lemma FlushKeeps<F>(w: Writer<F>, c: Config)
    requires InOrder(w.(pending := []), c) && |w.pending| <= c.batchSize
    ensures InOrder(Flushed(w), c) && Flushed(w).pending == []
    ensures Contents(Flushed(w)) == Contents(w)
  {}

  lemma ReceiveKeeps<F>(w: Writer<F>, c: Config)
    requires InOrder(w, c) && w.queue != []
    ensures InOrder(Received(w, c), c)
    ensures Contents(Received(w, c)) == Contents(w)
  {}

  class BatchWriter<F> {
    const cfg: Config
    var queue: seq<F>
    var pending: seq<F>
    var handedOff: seq<seq<F>>

    constructor (cfg: Config)
      requires cfg.batchSize >= 1
      ensures this.cfg == cfg && State() == Writer([], [], []) && InOrder(State(), cfg)
    {
      this.cfg := cfg;
      queue, pending, handedOff := [], [], [];
    }

    ghost function State(): Writer<F>
      reads this
    {
      Writer(queue, pending, handedOff)
    }

    /** Never blocks: refuses when the queue is full. */
    method Enqueue(f: F) returns (ok: bool)
      requires InOrder(State(), cfg)
      modifies this`queue
      ensures ok <==> |old(queue)| < cfg.queueSize
      ensures State() == Offered(old(State()), cfg, f) && InOrder(State(), cfg)
      ensures Contents(State()) == if ok then old(Contents(State())) + [f] else old(Contents(State()))
    {
      OfferAppends(State(), cfg, f);
      if |queue| < cfg.queueSize {
        queue := queue + [f];
        return true;
      }
      return false;
    }

    method Flush()
      modifies this`pending, this`handedOff
      ensures State() == Flushed(old(State()))
    {
      if |pending| == 0 { return; }
      handedOff := handedOff + [pending];
      pending := [];
    }

    /** One turn of the writer loop that takes a flow. */
    method Receive()
      requires InOrder(State(), cfg) && queue != []
      modifies this
      ensures State() == Received(old(State()), cfg) && InOrder(State(), cfg)
      ensures Contents(State()) == old(Contents(State()))
      ensures |handedOff| == |old(handedOff)| + if |old(pending)| + 1 == cfg.batchSize then 1 else 0
    {
      ReceiveKeeps(State(), cfg);
      var f := queue[0];
      queue := queue[1..];
      pending := pending + [f];
      if |pending| >= cfg.batchSize {
        Flush();
      }
    }

    /** The writer loop once the queue is closed: it empties the queue and flushes what is left. */
    method Drain()
      requires InOrder(State(), cfg)
      modifies this
      ensures InOrder(State(), cfg) && queue == [] && pending == []
      ensures old(handedOff) <= handedOff && Flatten(handedOff) == old(Contents(State()))
    {
      while |queue| > 0
        invariant InOrder(State(), cfg)
        invariant old(handedOff) <= handedOff && Contents(State()) == old(Contents(State()))
        decreases |queue|
      {
        Receive();
      }
      FlushKeeps(State(), cfg);
      Flush();
    }
  }

  // ---------- The whole server --------------------------------------------------------

  /** Where a read loop stands; `Sending` holds the decoded flows of a datagram not yet offered. */
  datatype Reader<F> = Absent | Reading | Sending(rest: seq<F>) | Finished

  datatype Shutdown = AwaitCancel | CloseNetflow | CloseSFlow | AwaitReaders | AwaitWriter | Done

  datatype Which = NetFlow | SFlow

  datatype State<F> = State(
    netflow: Reader<F>, sflow: Reader<F>, netflowOpen: bool, sflowOpen: bool,
    cancelled: bool, shutdown: Shutdown, queueClosed: bool, w: Writer<F>, writerDone: bool)
  {
    function Reader(r: Which): Reader<F> {
      if r == NetFlow then netflow else sflow
    }

    function Open(r: Which): bool {
      if r == NetFlow then netflowOpen else sflowOpen
    }

    function Set(r: Which, p: Reader<F>): State<F> {
      if r == NetFlow then this.(netflow := p) else this.(sflow := p)
    }
  }

  datatype Step<F> =
    | Datagram(r: Which, flows: seq<F>)
    | Offer(r: Which)
    | NextRead(r: Which)
    | ReadFails(r: Which)
    | Cancel
    | ShutdownStep
    | Take
    | Tick
    | WriterEnds

  function Start<F>(netflow: bool, sflow: bool): State<F> {
    State(if netflow then Reading else Absent, if sflow then Reading else Absent, netflow, sflow,
          false, AwaitCancel, false, Writer([], [], []), false)
  }

  predicate Over<F>(p: Reader<F>) {
    p.Absent? || p.Finished?
  }

  predicate Enabled<F>(s: State<F>, step: Step<F>) {
    match step
    case Datagram(r, _) => s.Reader(r).Reading? && s.Open(r)
    case Offer(r) => s.Reader(r).Sending? && s.Reader(r).rest != []
    case NextRead(r) => s.Reader(r).Sending? && s.Reader(r).rest == []
    case ReadFails(r) => s.Reader(r).Reading? && (s.cancelled || !s.Open(r))
    case Cancel => true
    case ShutdownStep =>
      match s.shutdown {
        case AwaitCancel => s.cancelled
        case CloseNetflow => true
        case CloseSFlow => true
        case AwaitReaders => Over(s.netflow) && Over(s.sflow)
        case AwaitWriter => s.writerDone
        case Done => false
      }
    case Take => !s.writerDone && s.w.queue != []
    case Tick => !s.writerDone
    case WriterEnds => !s.writerDone && s.queueClosed && s.w.queue == []
  }

  function Next<F>(s: State<F>, step: Step<F>, c: Config): State<F>
    requires Enabled(s, step)
  {
    match step
    case Datagram(r, flows) => s.Set(r, Sending(flows))
    case Offer(r) =>
      var rest := s.Reader(r).rest;
      s.Set(r, Sending(rest[1..])).(w := Offered(s.w, c, rest[0]))
    case NextRead(r) => s.Set(r, Reading)
    case ReadFails(r) => s.Set(r, Finished)
    case Cancel => s.(cancelled := true)
    case ShutdownStep =>
      match s.shutdown {
        case AwaitCancel => s.(shutdown := CloseNetflow)
        case CloseNetflow => s.(shutdown := CloseSFlow, netflowOpen := false)
        case CloseSFlow => s.(shutdown := AwaitReaders, sflowOpen := false)
        case AwaitReaders => s.(shutdown := AwaitWriter, queueClosed := true)
        case AwaitWriter => s.(shutdown := Done)
      }
    case Take => s.(w := Received(s.w, c))
    case Tick => s.(w := Flushed(s.w))
    case WriterEnds => s.(w := Flushed(s.w), writerDone := true)
  }

  /** The flow that a step puts into the queue, if it does: an offer the queue has room for. */
  ghost function Accepted<F>(s: State<F>, step: Step<F>, c: Config): seq<F>
    requires Enabled(s, step)
  {
    if step.Offer? && |s.w.queue| < c.queueSize then [s.Reader(step.r).rest[0]] else []
  }

  ghost predicate Inv<F>(s: State<F>, c: Config) {
    && InOrder(s.w, c)
    && (s.queueClosed <==> s.shutdown.AwaitWriter? || s.shutdown.Done?)
    && (s.queueClosed ==> Over(s.netflow) && Over(s.sflow))
    && (!s.shutdown.AwaitCancel? ==> s.cancelled)
    && (s.writerDone ==> s.queueClosed && s.w.queue == [] && s.w.pending == [])
    && (s.shutdown.Done? ==> s.writerDone)
  }

  /** Every step keeps the invariant and appends exactly what it accepted. */
  lemma {:induction false} StepKeeps<F>(s: State<F>, step: Step<F>, c: Config)
    requires Inv(s, c) && Enabled(s, step)
    ensures Inv(Next(s, step, c), c)
    ensures Contents(Next(s, step, c).w) == Contents(s.w) + Accepted(s, step, c)
  {
    if step.Offer? {
      OfferAppends(s.w, c, s.Reader(step.r).rest[0]);
    } else if step.Take? {
      ReceiveKeeps(s.w, c);
    } else if step.Tick? || step.WriterEnds? {
      FlushKeeps(s.w, c);
    }
  }

  // ---------- Every run --------------------------------------------------------------

  /** The state after the first `n` steps; None when one of them could not happen. */
  ghost function After<F>(s: State<F>, steps: seq<Step<F>>, n: nat, c: Config): Option<State<F>>
    requires n <= |steps|
  {
    if n == 0 then Some(s)
    else
      var before := After(s, steps, n - 1, c);
      if before.None? || !Enabled(before.value, steps[n - 1]) then None else Some(Next(before.value, steps[n - 1], c))
  }

  /** All flows accepted in the first `n` steps, in order. */
  ghost function AcceptedIn<F>(s: State<F>, steps: seq<Step<F>>, n: nat, c: Config): seq<F>
    requires n <= |steps| && After(s, steps, n, c).Some?
  {
    if n == 0 then [] else AcceptedIn(s, steps, n - 1, c) + Accepted(After(s, steps, n - 1, c).value, steps[n - 1], c)
  }

  /** At every reachable state the batches, the pending flows and the queue are the accepted flows, in order and once each. */
  lemma {:induction false} ExactlyOnceInOrder<F>(netflow: bool, sflow: bool, steps: seq<Step<F>>, n: nat, c: Config)
    requires c.batchSize >= 1 && n <= |steps| && After(Start(netflow, sflow), steps, n, c).Some?
    ensures var s := After(Start(netflow, sflow), steps, n, c).value;
            Inv(s, c) && Contents(s.w) == AcceptedIn(Start(netflow, sflow), steps, n, c)
  {
    var s0 := Start<F>(netflow, sflow);
    if n > 0 {
      ExactlyOnceInOrder(netflow, sflow, steps, n - 1, c);
      StepKeeps(After(s0, steps, n - 1, c).value, steps[n - 1], c);
    }
  }

  /** No send ever reaches a closed queue. */
  lemma NoSendAfterClose<F>(netflow: bool, sflow: bool, steps: seq<Step<F>>, n: nat, c: Config)
    requires c.batchSize >= 1 && n < |steps| && After(Start(netflow, sflow), steps, n + 1, c).Some?
    ensures steps[n].Offer? ==> !After(Start(netflow, sflow), steps, n, c).value.queueClosed
  {
    ExactlyOnceInOrder(netflow, sflow, steps, n, c);
  }

  /** When Stop returns, every accepted flow was handed to the store, in batches of one to batchSize flows. */
  lemma {:induction false} StopMeansHandedOff<F>(netflow: bool, sflow: bool, steps: seq<Step<F>>, n: nat, c: Config)
    requires c.batchSize >= 1 && n <= |steps| && After(Start(netflow, sflow), steps, n, c).Some?
    requires After(Start(netflow, sflow), steps, n, c).value.shutdown.Done?
    ensures var batches := After(Start(netflow, sflow), steps, n, c).value.w.batches;
            && Flatten(batches) == AcceptedIn(Start(netflow, sflow), steps, n, c)
            && forall i :: 0 <= i < |batches| ==> 1 <= |batches[i]| <= c.batchSize
  {
    ExactlyOnceInOrder(netflow, sflow, steps, n, c);
  }

  /** After that nothing happens any more except further calls of cancel. */
  lemma DoneIsFinal<F>(s: State<F>, step: Step<F>, c: Config)
    requires Inv(s, c) && s.shutdown.Done? && Enabled(s, step)
    ensures step.Cancel? && Next(s, step, c) == s
  {}

  // ---------- The shutdown is never stuck ------------------------------------------------

  function Weight<F>(p: Reader<F>): nat {
    match p
    case Absent => 0
    case Finished => 0
    case Reading => 1
    case Sending(rest) => 2 + 2 * |rest|
  }

  function Left(p: Shutdown): nat {
    match p
    case AwaitCancel => 5
    case CloseNetflow => 4
    case CloseSFlow => 3
    case AwaitReaders => 2
    case AwaitWriter => 1
    case Done => 0
  }

  function Work<F>(s: State<F>): nat {
    Left(s.shutdown) + Weight(s.netflow) + Weight(s.sflow) + |s.w.queue| + if s.writerDone then 0 else 1
  }

  /** Once cancelled, some goroutine can always take a step that leaves less work. */
  lemma ShutdownProgress<F>(s: State<F>, c: Config) returns (step: Step<F>)
    requires Inv(s, c) && s.cancelled && !s.shutdown.Done?
    ensures Enabled(s, step) && Work(Next(s, step, c)) < Work(s) && Next(s, step, c).cancelled
  {
    if s.shutdown.AwaitReaders? && !(Over(s.netflow) && Over(s.sflow)) {
      var r := if Over(s.netflow) then SFlow else NetFlow;
      step := if s.Reader(r).Reading? then ReadFails(r) else if s.Reader(r).rest == [] then NextRead(r) else Offer(r);
    } else if s.shutdown.AwaitWriter? && !s.writerDone {
      step := if s.w.queue == [] then WriterEnds else Take;
    } else {
      step := ShutdownStep;
    }
  }

  /** From every reachable state in which the server was cancelled, Stop can return. */
  lemma {:induction false} ShutdownCanFinish<F>(s: State<F>, c: Config) returns (steps: seq<Step<F>>)
    requires Inv(s, c) && s.cancelled
    ensures After(s, steps, |steps|, c).Some? && After(s, steps, |steps|, c).value.shutdown.Done?
    decreases Work(s)
  {
    steps := [];
    if !s.shutdown.Done? {
      var step := ShutdownProgress(s, c);
      StepKeeps(s, step, c);
      var rest := ShutdownCanFinish(Next(s, step, c), c);
      steps := [step] + rest;
      Prepend(s, step, rest, |rest|, c);
    }
  }

  lemma {:induction false} Prepend<F>(s: State<F>, step: Step<F>, rest: seq<Step<F>>, n: nat, c: Config)
    requires n <= |rest| && Enabled(s, step)
    ensures After(s, [step] + rest, n + 1, c) == After(Next(s, step, c), rest, n, c)
  {
    if n > 0 {
      Prepend(s, step, rest, n - 1, c);
    } else {
      assert After(s, [step] + rest, 0, c) == Some(s);
    }
  }

  // ---------- The device map --------------------------------------------------------------

  /** A device with its address; None for a host name, which is not matched. */
  datatype DeviceRow<A> = DeviceRow(id: int, address: Option<A>)

  ghost predicate At<A>(rows: seq<DeviceRow<A>>, n: nat, a: A, i: int)
    requires n <= |rows|
  {
    0 <= i < n && rows[i].address == Some(a)
  }

  /** The lowest id among the first `n` devices at every address that has one. */
  ghost predicate LowestIds<A(!new)>(rows: seq<DeviceRow<A>>, n: nat, m: map<A, int>)
    requires n <= |rows|
  {
    && (forall a :: a in m ==> exists i {:trigger At(rows, n, a, i)} :: At(rows, n, a, i) && rows[i].id == m[a])
    && (forall a, i {:trigger At(rows, n, a, i)} :: At(rows, n, a, i) ==> a in m && m[a] <= rows[i].id)
  }

  /** Reloads the map; on a failed load the previous map is kept. */
  method RefreshDevices<A(==, !new)>(loaded: Option<seq<DeviceRow<A>>>, current: map<A, int>) returns (m: map<A, int>)
    ensures loaded.None? ==> m == current
    ensures loaded.Some? ==> LowestIds(loaded.value, |loaded.value|, m)
  {
    if loaded.None? { return current; }
    var rows := loaded.value;
    m := map[];
    var n := 0;
    while n < |rows|
      invariant 0 <= n <= |rows|
      invariant LowestIds(rows, n, m)
    {
      var d := rows[n];
      ghost var was := m;
      if d.address.Some? && (d.address.value !in m || d.id < m[d.address.value]) {
        m := m[d.address.value := d.id];
      }
      DeviceStep(rows, n, was, m);
      n := n + 1;
    }
  }

  lemma DeviceStep<A(!new)>(rows: seq<DeviceRow<A>>, n: nat, was: map<A, int>, m: map<A, int>)
    requires n < |rows| && LowestIds(rows, n, was)
    requires var d := rows[n];
             m == if d.address.Some? && (d.address.value !in was || d.id < was[d.address.value]) then was[d.address.value := d.id] else was
    ensures LowestIds(rows, n + 1, m)
  {
    forall a | a in m ensures exists i {:trigger At(rows, n + 1, a, i)} :: At(rows, n + 1, a, i) && rows[i].id == m[a] {
      if a in was && m[a] == was[a] {
        var i :| At(rows, n, a, i) && rows[i].id == was[a];
        assert At(rows, n + 1, a, i);
      } else {
        assert At(rows, n + 1, a, n);
      }
    }
    forall a, i | At(rows, n + 1, a, i) ensures a in m && m[a] <= rows[i].id {
      if i < n { assert At(rows, n, a, i); }
    }
  }
}
