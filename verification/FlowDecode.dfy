/**
 * Normalising decoded flow records, and the two bounded tables of the decoder: templates per
 * exporter and exporters per decoder. Times and durations are nanoseconds; None is the zero time.
 */
module FlowDecode {
  import opened Basics

  type Byte = x: int | 0 <= x < 256
  type UInt64 = x: int | 0 <= x < 0x1_0000_0000_0000_0000
  type UInt32 = x: int | 0 <= x < 0x1_0000_0000

  const MAX_INT64: nat := 0x7fff_ffff_ffff_ffff
  const MAX_INT32: nat := 0x7fff_ffff
  const SECOND := 1_000_000_000
  const HOUR := 3600 * SECOND

  datatype FlowType = SFlow5 | OtherType

  datatype Message = Message(
    srcAddr: seq<Byte>, dstAddr: seq<Byte>, samplerAddress: seq<Byte>,
    startNs: UInt64, endNs: UInt64, samplingRate: UInt64,
    bytes: UInt64, packets: UInt64, inIf: UInt32, outIf: UInt32, kind: FlowType)

  datatype Flow = Flow(
    timestamp: int, srcIP: seq<Byte>, dstIP: seq<Byte>, bytes: nat, packets: nat, duration: int,
    exporter: seq<Byte>, inIf: Option<nat>, outIf: Option<nat>, samplingRate: nat)

  // ---------- Arithmetic ---------------------------------------------------------

  /** A sampled counter times the rate, saturating. The test divides so that the product cannot overflow. */
  function Scale(v: UInt64, rate: nat): nat
    requires rate > 0
  {
    if v == 0 then 0
    else if v > MAX_INT64 / rate then MAX_INT64
    else v * rate
  }

  lemma {:induction false} ScaleIsMin(v: UInt64, rate: nat)
    requires rate > 0
    ensures Scale(v, rate) == if v * rate <= MAX_INT64 then v * rate else MAX_INT64
  {
    var q := MAX_INT64 / rate;
    assert MAX_INT64 == q * rate + MAX_INT64 % rate;
    if v <= q {
      Monotone(v, q, rate);
    } else {
      Monotone(q + 1, v, rate);
      assert (q + 1) * rate == q * rate + rate;
    }
  }

  lemma Monotone(a: int, b: int, c: nat)
    requires a <= b
    ensures a * c <= b * c
  {}

  /** The rate used: the message's, else the record's own, else one; capped. */
  function EffectiveRate(messageRate: UInt64, recordRate: UInt32): (r: nat)
    ensures 1 <= r <= MAX_INT32
    ensures messageRate != 0 && messageRate <= MAX_INT32 ==> r == messageRate
    ensures messageRate == 0 && recordRate != 0 && recordRate <= MAX_INT32 ==> r == recordRate
  {
    var a: nat := if messageRate == 0 then recordRate else messageRate;
    var b := if a == 0 then 1 else a;
    if b > MAX_INT32 then MAX_INT32 else b
  }

  /** sFlow keeps a two-bit format above the index; a non-zero format carries no index. */
  function IfIndex(v: UInt32, kind: FlowType): (r: Option<nat>)
    ensures r.Some? ==> r.value == v <= MAX_INT32
    ensures r.None? <==> if kind.SFlow5? then v >= 0x4000_0000 else v > MAX_INT32
  {
    if kind.SFlow5? then
      if v / 0x4000_0000 != 0 then None else Some(v % 0x4000_0000)
    else if v > MAX_INT32 then None
    else Some(v)
  }

  // ---------- Times --------------------------------------------------------------

  function NsTime(ns: UInt64): Option<int> {
    if ns == 0 || ns > MAX_INT64 then None else Some(ns)
  }

  /** Set, at least one second past the epoch, at most an hour ahead and not older than `maxAge`. */
  function Plausible(t: Option<int>, recv: int, maxAge: int): bool {
    if t.None? || t.value / SECOND <= 0 then false
    else !(t.value > recv + HOUR) && !(t.value < recv - maxAge)
  }

  // ---------- Addresses ----------------------------------------------------------

  predicate IsAddress(b: seq<Byte>) {
    |b| == 4 || |b| == 16
  }

  predicate Zeros(b: seq<Byte>) {
    forall i :: 0 <= i < |b| ==> b[i] == 0
  }

  /** An IPv4 address wrapped in IPv6 is unwrapped. */
  function Unmap(b: seq<Byte>): seq<Byte> {
    if |b| == 16 && Zeros(b[..10]) && b[10] == 255 && b[11] == 255 then b[12..] else b
  }

  function ExporterAddress(sampler: seq<Byte>, src: seq<Byte>): seq<Byte> {
    if IsAddress(sampler) && !Zeros(sampler) then Unmap(sampler) else src
  }

  // ---------- Normalising --------------------------------------------------------

  function Normalise(m: Message, src: seq<Byte>, recv: int, maxAge: int, recordRate: UInt32): Option<Flow> {
    if !IsAddress(m.srcAddr) || !IsAddress(m.dstAddr) then None
    else
      var start, end := NsTime(m.startNs), NsTime(m.endNs);
      var ts := if Plausible(end, recv, maxAge) then end.value else recv;
      var dur :=
        if Plausible(start, recv, maxAge) && Plausible(end, recv, maxAge) && !(end.value < start.value) then end.value - start.value
        else 0;
      var rate := EffectiveRate(m.samplingRate, recordRate);
      Some(Flow(ts, Unmap(m.srcAddr), Unmap(m.dstAddr), Scale(m.bytes, rate), Scale(m.packets, rate), dur,
                ExporterAddress(m.samplerAddress, src), IfIndex(m.inIf, m.kind), IfIndex(m.outIf, m.kind), rate))
  }

  function Min(a: int, b: int): int {
    if a <= b then a else b
  }

  /** What every stored flow satisfies, whatever the exporter sent. */
  ghost predicate Bounded(f: Flow, m: Message, recv: int, maxAge: int) {
    && 1 <= f.samplingRate <= 0x7fff_ffff
    && f.bytes == Min(m.bytes * f.samplingRate, 0x7fff_ffff_ffff_ffff)
    && f.packets == Min(m.packets * f.samplingRate, 0x7fff_ffff_ffff_ffff)
    && recv - maxAge <= f.timestamp <= recv + 3_600_000_000_000
    && 0 <= f.duration <= maxAge + 3_600_000_000_000
    && (f.duration > 0 ==> f.timestamp == m.endNs && m.endNs - m.startNs == f.duration)
    && (f.inIf.Some? ==> f.inIf.value <= 0x7fff_ffff) && (f.outIf.Some? ==> f.outIf.value <= 0x7fff_ffff)
  }

  /** A record is kept exactly when both addresses have the length of one, and then its fields are in range. */
  lemma {:induction false} NormalisedIsBounded(m: Message, src: seq<Byte>, recv: int, maxAge: int, recordRate: UInt32)
    requires maxAge >= 0
    ensures Normalise(m, src, recv, maxAge, recordRate).Some? <==> (|m.srcAddr| == 4 || |m.srcAddr| == 16) && (|m.dstAddr| == 4 || |m.dstAddr| == 16)
    ensures var f := Normalise(m, src, recv, maxAge, recordRate); f.Some? ==> Bounded(f.value, m, recv, maxAge)
  {
    var rate := EffectiveRate(m.samplingRate, recordRate);
    ScaleIsMin(m.bytes, rate);
    ScaleIsMin(m.packets, rate);
  }

  /** `a` is the address in these bytes: the last four of them when the first ten are zero and then ff ff, else all of them. */
  ghost predicate AddressOf(a: seq<Byte>, b: seq<Byte>) {
    if |b| == 16 && (forall i :: 0 <= i < 10 ==> b[i] == 0) && b[10] == 0xff && b[11] == 0xff
    then a == [b[12], b[13], b[14], b[15]]
    else a == b
  }

  /** The index of an interface: thirty bits of it in sFlow, else thirty-one. */
  ghost predicate InterfaceOf(index: Option<nat>, v: UInt32, kind: FlowType) {
    index == if v < (if kind.SFlow5? then 0x4000_0000 else 0x8000_0000) then Some(v) else None
  }

  /** Source and destination are the message's own, and so are the interfaces when they fit. */
  lemma EndpointsAreTheMessages(m: Message, src: seq<Byte>, recv: int, maxAge: int, recordRate: UInt32)
    requires Normalise(m, src, recv, maxAge, recordRate).Some?
    ensures var f := Normalise(m, src, recv, maxAge, recordRate).value;
            && AddressOf(f.srcIP, m.srcAddr) && AddressOf(f.dstIP, m.dstAddr)
            && InterfaceOf(f.inIf, m.inIf, m.kind) && InterfaceOf(f.outIf, m.outIf, m.kind)
  {
    UnmapIsAddressOf(m.srcAddr);
    UnmapIsAddressOf(m.dstAddr);
  }

  lemma UnmapIsAddressOf(b: seq<Byte>)
    ensures AddressOf(Unmap(b), b)
  {
    if |b| == 16 {
      assert forall i :: 0 <= i < 10 ==> b[..10][i] == b[i];
      assert b[12..] == [b[12], b[13], b[14], b[15]];
    }
  }

  /** The exporter is the sampler address when that has the length of an address and is not all zeros, else the datagram's source. */
  lemma ExporterIsSampler(m: Message, src: seq<Byte>, recv: int, maxAge: int, recordRate: UInt32)
    requires Normalise(m, src, recv, maxAge, recordRate).Some?
    ensures var f, s := Normalise(m, src, recv, maxAge, recordRate).value, m.samplerAddress;
            if (|s| == 4 || |s| == 16) && exists i :: 0 <= i < |s| && s[i] != 0 then AddressOf(f.exporter, s) else f.exporter == src
  {
    UnmapIsAddressOf(m.samplerAddress);
  }

  /** The rate stored: the message's, else the record's, else one, and no more than fits 32 bits with a sign. */
  lemma RateIsFirstGiven(m: Message, src: seq<Byte>, recv: int, maxAge: int, recordRate: UInt32)
    requires Normalise(m, src, recv, maxAge, recordRate).Some?
    ensures var f := Normalise(m, src, recv, maxAge, recordRate).value;
            && (m.samplingRate > 0 ==> f.samplingRate == Min(m.samplingRate, 0x7fff_ffff))
            && (m.samplingRate == 0 && recordRate > 0 ==> f.samplingRate == Min(recordRate, 0x7fff_ffff))
            && (m.samplingRate == 0 && recordRate == 0 ==> f.samplingRate == 1)
  {}

  /** A time an exporter sent that can be trusted, as a range. */
  ghost predicate Trusted(ns: int, recv: int, maxAge: int) {
    1_000_000_000 <= ns <= 0x7fff_ffff_ffff_ffff && recv - maxAge <= ns <= recv + 3_600_000_000_000
  }

  /** The end time of the record is used exactly when it is plausible. */
  lemma TimestampIsEndOrReceive(m: Message, src: seq<Byte>, recv: int, maxAge: int, recordRate: UInt32)
    requires Normalise(m, src, recv, maxAge, recordRate).Some?
    ensures var f := Normalise(m, src, recv, maxAge, recordRate).value;
            f.timestamp == if Trusted(m.endNs, recv, maxAge) then m.endNs else recv
  {}

  /** The duration is the difference exactly when both times can be trusted and are in order, else zero. */
  lemma DurationIsDifference(m: Message, src: seq<Byte>, recv: int, maxAge: int, recordRate: UInt32)
    requires Normalise(m, src, recv, maxAge, recordRate).Some?
    ensures var f := Normalise(m, src, recv, maxAge, recordRate).value;
            f.duration == if Trusted(m.startNs, recv, maxAge) && Trusted(m.endNs, recv, maxAge) && m.startNs <= m.endNs then m.endNs - m.startNs else 0
  {}

  // ---------- Templates of one exporter --------------------------------------------

  const MAX_TEMPLATES: nat := 1024

  class BoundedTemplates<K(==), T> {
    var stored: map<K, T>
    var count: int

    /** The count is never re-read from the table; it stays equal to its size. */
    ghost predicate Valid()
      reads this
    {
      count == |stored| <= MAX_TEMPLATES
    }

    constructor ()
      ensures Valid() && stored == map[]
    {
      stored, count := map[], 0;
    }

    /** Replacing is always allowed; a new template is refused exactly when the table is full. */
    method AddTemplate(key: K, template: T) returns (ok: bool)
      requires Valid()
      modifies this
      ensures Valid()
      ensures ok <==> key in old(stored) || |old(stored)| < MAX_TEMPLATES
      ensures stored == if ok then old(stored)[key := template] else old(stored)
    {
      if key !in stored {
        if count >= MAX_TEMPLATES {
          return false;
        }
        count := count + 1;
      }
      stored := stored[key := template];
      return true;
    }

    method RemoveTemplate(key: K) returns (template: Option<T>)
      requires Valid()
      modifies this
      ensures Valid()
      ensures template == if key in old(stored) then Some(old(stored)[key]) else None
      ensures stored == old(stored) - {key}
    {
      if key !in stored {
        assert stored == stored - {key};
        return None;
      }
      template := Some(stored[key]);
      stored := stored - {key};
      count := count - 1;
    }
  }

  // ---------- The exporter table ---------------------------------------------------

  datatype Entry<T> = Entry(state: T, lastSeen: int)

  ghost predicate Idle<T>(e: Entry<T>, now: int) {
    now - e.lastSeen > HOUR
  }

  /** The entries that are not idle. */
  ghost function Active<A, T>(m: map<A, Entry<T>>, now: int): map<A, Entry<T>> {
    map a | a in m && !Idle(m[a], now) :: m[a]
  }

  datatype Lookup<T> = Found(state: T) | TableFull | NoProducer

  /**
   * The table and the answer after a datagram from `addr` at `now`; `initial` is the state a new
   * entry would get, None when the producer cannot be created.
   */
  ghost function Seen<A, T>(m: map<A, Entry<T>>, addr: A, now: int, cap: int, initial: Option<T>): (map<A, Entry<T>>, Lookup<T>) {
    if addr in m then (m[addr := m[addr].(lastSeen := now)], Found(m[addr].state))
    else
      var kept := if |m| >= cap then Active(m, now) else m;
      if |kept| >= cap then (kept, TableFull)
      else if initial.None? then (kept, NoProducer)
      else (kept[addr := Entry(initial.value, now)], Found(initial.value))
  }

  method EvictIdle<A(==), T>(exporters: map<A, Entry<T>>, now: int) returns (kept: map<A, Entry<T>>)
    ensures kept == Active(exporters, now)
    ensures forall a :: a in kept <==> a in exporters && now - exporters[a].lastSeen <= 3_600_000_000_000
  {
    kept := exporters;
    var pending := exporters.Keys;
    while pending != {}
      invariant kept.Keys <= exporters.Keys && pending <= exporters.Keys
      invariant forall a :: a in kept ==> kept[a] == exporters[a]
      invariant forall a :: a in exporters ==> (a in kept <==> a in pending || !Idle(exporters[a], now))
      decreases pending
    {
      var a :| a in pending;
      pending := pending - {a};
      if now - exporters[a].lastSeen > HOUR {
        kept := kept - {a};
      }
    }
  }

  class ExporterTable<A(==), K(==), V> {
    var exporters: map<A, Entry<BoundedTemplates<K, V>>>
    const maxExporters: int

    constructor (maxExporters: int)
      ensures this.maxExporters == maxExporters && exporters == map[]
    {
      this.maxExporters := maxExporters;
      exporters := map[];
    }

    method Exporter(addr: A, now: int, producerOk: bool) returns (r: Lookup<BoundedTemplates<K, V>>, ghost created: Option<BoundedTemplates<K, V>>)
      modifies this`exporters
      ensures (exporters, r) == Seen(old(exporters), addr, now, maxExporters, created)
      ensures created.Some? ==> producerOk && fresh(created.value) && created.value.Valid() && created.value.stored == map[]
      ensures addr !in old(exporters) && producerOk && !r.TableFull? ==> created.Some?
    {
      created := None;
      if addr in exporters {
        var e := exporters[addr];
        exporters := exporters[addr := e.(lastSeen := now)];
        return Found(e.state), created;
      }
      if |exporters| >= maxExporters {
        var kept := EvictIdle(exporters, now);
        exporters := kept;
        if |exporters| >= maxExporters {
          return TableFull, created;
        }
      }
      if !producerOk {
        return NoProducer, created;
      }
      var templates := new BoundedTemplates<K, V>();
      created := Some(templates);
      exporters := exporters[addr := Entry(templates, now)];
      return Found(templates), created;
    }
  }

  // ---------- Every run of the exporter table ----------------------------------------

  datatype Datagram<A> = Datagram(addr: A, now: int, producerOk: bool)

  /** The table after `n` datagrams; the state of an entry is the step that created it. */
  ghost function After<A>(run: seq<Datagram<A>>, n: nat, cap: int): map<A, Entry<nat>>
    requires n <= |run|
  {
    if n == 0 then map[]
    else Seen(After(run, n - 1, cap), run[n - 1].addr, run[n - 1].now, cap, if run[n - 1].producerOk then Some(n - 1) else None).0
  }

  ghost predicate Ordered<A>(run: seq<Datagram<A>>) {
    forall i, j :: 0 <= i <= j < |run| ==> run[i].now <= run[j].now
  }

  lemma ActiveIsSmaller<A, T>(m: map<A, Entry<T>>, now: int)
    ensures |Active(m, now)| <= |m|
  {
    SubsetCardinality(Active(m, now).Keys, m.Keys);
  }

  lemma {:induction false} TableWithinCap<A>(run: seq<Datagram<A>>, n: nat, cap: int)
    requires n <= |run|
    ensures |After(run, n, cap)| <= if cap > 0 then cap else 0
  {
    if n > 0 {
      TableWithinCap(run, n - 1, cap);
      ActiveIsSmaller(After(run, n - 1, cap), run[n - 1].now);
    }
  }

  /** A datagram evicts an entry only when the table is full, the sender is new and the entry is idle. */
  ghost predicate Evicts<A>(run: seq<Datagram<A>>, j: nat, cap: int, a: A)
    requires j < |run|
  {
    var m := After(run, j, cap);
    a in m && |m| >= cap && run[j].addr !in m && Idle(m[a], run[j].now)
  }

  /** Step `i` is the latest datagram of `a` in the first `n`. */
  ghost predicate LastFrom<A>(run: seq<Datagram<A>>, n: nat, a: A, i: nat)
    requires n <= |run|
  {
    i < n && run[i].addr == a && forall j :: i < j < n ==> run[j].addr != a
  }

  /** An entry carries the time of the latest datagram of its exporter. */
  lemma {:induction false} LastSeenIsLatest<A>(run: seq<Datagram<A>>, n: nat, cap: int, a: A) returns (i: nat)
    requires n <= |run| && a in After(run, n, cap)
    ensures LastFrom(run, n, a, i) && After(run, n, cap)[a].lastSeen == run[i].now
  {
    if run[n - 1].addr == a {
      i := n - 1;
    } else {
      i := LastSeenIsLatest(run, n - 1, cap, a);
    }
  }

  /**
   * Over every run an exporter keeps its state until a datagram evicts it, which happens only more
   * than an hour after its own latest datagram.
   */
  lemma {:induction false} KeptUntilEvicted<A>(run: seq<Datagram<A>>, i: nat, n: nat, cap: int, a: A)
    requires i <= n <= |run| && a in After(run, i, cap)
    requires forall j :: i <= j < n ==> !Evicts(run, j, cap, a)
    ensures a in After(run, n, cap) && After(run, n, cap)[a].state == After(run, i, cap)[a].state
    decreases n - i
  {
    if i < n {
      KeptUntilEvicted(run, i, n - 1, cap, a);
      assert !Evicts(run, n - 1, cap, a);
    }
  }

  lemma OnlyIdleEvicted<A>(run: seq<Datagram<A>>, j: nat, cap: int, a: A) returns (i: nat)
    requires j < |run| && Evicts(run, j, cap, a)
    ensures LastFrom(run, j, a, i) && run[j].now - run[i].now > 3_600_000_000_000
    ensures a !in After(run, j + 1, cap)
  {
    i := LastSeenIsLatest(run, j, cap, a);
  }

  /** An exporter heard from within the last hour is still there with the same state. */
  lemma ActiveExporterKept<A>(run: seq<Datagram<A>>, i: nat, n: nat, cap: int, a: A)
    requires i < n <= |run| && Ordered(run)
    requires run[i].addr == a && a in After(run, i + 1, cap)
    requires n > i + 1 ==> run[n - 1].now - run[i].now <= 3_600_000_000_000
    ensures a in After(run, n, cap) && After(run, n, cap)[a].state == After(run, i + 1, cap)[a].state
  {
    forall j | i + 1 <= j < n ensures !Evicts(run, j, cap, a) {
      if Evicts(run, j, cap, a) {
        var k := OnlyIdleEvicted(run, j, cap, a);
      }
    }
    KeptUntilEvicted(run, i + 1, n, cap, a);
  }

  /** A datagram is refused exactly when its sender is new and `cap` exporters were heard from within the hour. */
  lemma RefusedIffFullOfActive<A>(run: seq<Datagram<A>>, n: nat, cap: int)
    requires n < |run|
    ensures var m, d := After(run, n, cap), run[n];
            Seen(m, d.addr, d.now, cap, if d.producerOk then Some(n) else None).1.TableFull? <==> d.addr !in m && |Active(m, d.now)| >= cap
  {
    ActiveIsSmaller(After(run, n, cap), run[n].now);
  }
}
