/**
 * Interface rates from SNMP octet counters: one stored sample per interface, wrap-around of 32-bit
 * counters, and rejection of implausible differences. Rates are exact rationals.
 */
module SnmpRates {
  import opened Basics

  const WORD32: nat := 0x1_0000_0000
  const WORD64: nat := 0x1_0000_0000_0000_0000
  const SECOND := 1_000_000_000
  const MAX_RATE_GAP := 1800 * SECOND

  type Counter = x: int | 0 <= x < WORD64

  /** The octets between two readings; None when a 64-bit counter went backwards. Unsigned 64-bit arithmetic. */
  function CounterDelta(prev: Counter, cur: Counter, hc: bool): Option<Counter> {
    if cur >= prev then Some(cur - prev)
    else if hc then None
    else Some((cur + (WORD32 - prev) % WORD64) % WORD64)
  }

  /** The width at which the counter of an interface wraps. */
  function Width(hc: bool): nat {
    if hc then WORD64 else WORD32
  }

  lemma ModStep(t: nat, w: nat)
    requires w > 0
    ensures t == w * (t / w) + t % w && 0 <= t % w < w
  {}

  /**
   * What the difference of two readings says about the octets really counted: it is never too
   * large, and it is right exactly when fewer octets than the counter's width went by.
   */
  lemma DeltaIsIncrement(t0: nat, t1: nat, hc: bool)
    requires t0 <= t1
    ensures var d := CounterDelta(t0 % Width(hc), t1 % Width(hc), hc);
            && (d.None? <==> hc && t1 % Width(hc) < t0 % Width(hc))
            && (d.Some? ==> d.value <= t1 - t0)
            && (d.Some? ==> (d.value == t1 - t0 <==> t1 - t0 < Width(hc)))
  {
    var w := Width(hc);
    ModStep(t0, w);
    ModStep(t1, w);
    var k := t1 / w - t0 / w;
    assert t1 - t0 == w * k + (t1 % w - t0 % w) by {
      assert w * (t1 / w) - w * (t0 / w) == w * k;
    }
    Multiples(w, k);
  }

  lemma Multiples(w: int, k: int)
    requires w >= 0
    ensures k <= -1 ==> w * k <= -w
    ensures k >= 1 ==> w * k >= w
    ensures k >= 2 ==> w * k >= 2 * w
  {}

  datatype Direction = In | Out

  datatype Sample = Sample(inOctets: Counter, outOctets: Counter, hc: bool, at: int) {
    function Octets(d: Direction): Counter {
      if d == In then inOctets else outOctets
    }
  }

  datatype Rates = Rates(inBps: real, outBps: real) {
    function Bps(d: Direction): real {
      if d == In then inBps else outBps
    }
  }

  /** Bits per second when `octets` go by in `dt` nanoseconds. */
  function PerSecond(octets: nat, dt: int): (r: real)
    requires dt > 0
    ensures Bits(r, dt) == 8.0 * octets as real
  {
    8_000_000_000.0 * octets as real / dt as real
  }

  /** The bits that go by at rate `r` in `dt` nanoseconds. */
  function Bits(r: real, dt: int): real {
    r * dt as real / 1_000_000_000.0
  }

  function TooFast(bps: real, speedBps: int): bool {
    speedBps > 0 && bps > 1.5 * speedBps as real
  }

  /** The rates between two samples of one interface, or None when they are not reported. */
  function RatesBetween(prev: Sample, cur: Sample, speedBps: int): Option<Rates> {
    var dt := cur.at - prev.at;
    var dIn, dOut := CounterDelta(prev.inOctets, cur.inOctets, cur.hc), CounterDelta(prev.outOctets, cur.outOctets, cur.hc);
    if prev.hc != cur.hc || dt <= 0 || dt > MAX_RATE_GAP || dIn.None? || dOut.None? then None
    else
      var r := Rates(PerSecond(dIn.value, dt), PerSecond(dOut.value, dt));
      if TooFast(r.inBps, speedBps) || TooFast(r.outBps, speedBps) then None else Some(r)
  }

  /** A reported rate times the elapsed time is eight times the counted octets, at most 30 minutes apart and within 1.5 times a known speed. */
  lemma ReportedRates(prev: Sample, cur: Sample, speedBps: int, d: Direction)
    requires RatesBetween(prev, cur, speedBps).Some?
    ensures var rates, dt := RatesBetween(prev, cur, speedBps).value, cur.at - prev.at;
            var r := if d == In then rates.inBps else rates.outBps;
            var delta := if d == In then CounterDelta(prev.inOctets, cur.inOctets, cur.hc) else CounterDelta(prev.outOctets, cur.outOctets, cur.hc);
            && prev.hc == cur.hc && 0 < dt <= 1_800_000_000_000 && delta.Some?
            && Bits(r, dt) == 8.0 * delta.value as real
            && (speedBps > 0 ==> r <= 1.5 * speedBps as real)
  {}

  /** In whole numbers: the octets of `dt` nanoseconds stay within 1.5 times a known line speed. */
  ghost predicate WithinSpeed(octets: nat, dt: int, speedBps: int) {
    speedBps > 0 ==> 16_000_000_000 * octets <= 3 * (speedBps * dt)
  }

  lemma SpeedTest(octets: nat, dt: int, speedBps: int)
    requires dt > 0
    ensures TooFast(PerSecond(octets, dt), speedBps) <==> !WithinSpeed(octets, dt, speedBps)
  {
    var r, s, d := PerSecond(octets, dt), 1.5 * speedBps as real, dt as real;
    assert r * d == 8_000_000_000.0 * octets as real;
    assert s * d == 1.5 * (speedBps * dt) as real;
    Scaled(r, s, d);
  }

  lemma Scaled(a: real, b: real, d: real)
    requires d > 0.0
    ensures a > b <==> a * d > b * d
  {}

  /** Exactly when rates are reported. */
  lemma ReportedIff(prev: Sample, cur: Sample, speedBps: int)
    ensures var dt := cur.at - prev.at;
            var dIn, dOut := CounterDelta(prev.inOctets, cur.inOctets, cur.hc), CounterDelta(prev.outOctets, cur.outOctets, cur.hc);
            RatesBetween(prev, cur, speedBps).Some? <==>
              && prev.hc == cur.hc && 0 < dt <= 1_800_000_000_000 && dIn.Some? && dOut.Some?
              && WithinSpeed(dIn.value, dt, speedBps) && WithinSpeed(dOut.value, dt, speedBps)
  {
    var dt := cur.at - prev.at;
    var dIn, dOut := CounterDelta(prev.inOctets, cur.inOctets, cur.hc), CounterDelta(prev.outOctets, cur.outOctets, cur.hc);
    if dt > 0 && dIn.Some? && dOut.Some? {
      SpeedTest(dIn.value, dt, speedBps);
      SpeedTest(dOut.value, dt, speedBps);
    }
  }

  // ---------- The tracker -----------------------------------------------------

  type Table = map<int, map<int, Sample>>

  function Lookup(last: Table, device: int, ifIndex: int): Option<Sample> {
    if device in last && ifIndex in last[device] then Some(last[device][ifIndex]) else None
  }

  function Stored(last: Table, device: int, ifIndex: int, cur: Sample): Table {
    last[device := (if device in last then last[device] else map[])[ifIndex := cur]]
  }

  ghost function Forgotten(last: Table, device: int, seen: set<int>): Table {
    if device !in last then last
    else last[device := Restrict(last[device], seen)]
  }

  class RateTracker {
    var last: Table

    constructor ()
      ensures last == map[]
    {
      last := map[];
    }

    method Rate(device: int, ifIndex: int, cur: Sample, speedBps: int) returns (r: Option<Rates>)
      modifies this
      ensures last == Stored(old(last), device, ifIndex, cur)
      ensures var prev := Lookup(old(last), device, ifIndex);
              r == if prev.None? then None else RatesBetween(prev.value, cur, speedBps)
    {
      if device !in last {
        last := last[device := map[]];
      }
      var prev := Lookup(last, device, ifIndex);
      last := last[device := last[device][ifIndex := cur]];
      if prev.None? || prev.value.hc != cur.hc {
        return None;
      }
      var dt := cur.at - prev.value.at;
      if dt <= 0 || dt > MAX_RATE_GAP {
        return None;
      }
      var dIn := CounterDelta(prev.value.inOctets, cur.inOctets, cur.hc);
      var dOut := CounterDelta(prev.value.outOctets, cur.outOctets, cur.hc);
      if dIn.None? || dOut.None? {
        return None;
      }
      var inBps, outBps := PerSecond(dIn.value, dt), PerSecond(dOut.value, dt);
      if TooFast(inBps, speedBps) || TooFast(outBps, speedBps) {
        return None;
      }
      return Some(Rates(inBps, outBps));
    }

    /** Drops the samples of the device's interfaces that the latest poll did not see. */
    method Forget(device: int, seen: set<int>)
      modifies this
      ensures last == Forgotten(old(last), device, seen)
    {
      if device in last {
        var dev := DropUnseen(last[device], seen);
        last := last[device := dev];
      }
    }
  }

  method DropUnseen<K(==), V>(samples: map<K, V>, seen: set<K>) returns (dev: map<K, V>)
    ensures dev == Restrict(samples, seen)
  {
    dev := samples;
    var pending := dev.Keys;
    while pending != {}
      invariant dev.Keys <= samples.Keys && pending <= samples.Keys
      invariant forall i :: i in dev ==> dev[i] == samples[i]
      invariant forall i :: i in samples ==> (i in dev <==> i in pending || i in seen)
      decreases pending
    {
      var idx :| idx in pending;
      pending := pending - {idx};
      if idx !in seen {
        dev := dev - {idx};
      }
    }
  }

  // ---------- Every run -------------------------------------------------------

  datatype Op = Poll(device: int, ifIndex: int, cur: Sample, speedBps: int) | Forget(device: int, seen: set<int>)

  ghost function After(ops: seq<Op>, n: nat): Table
    requires n <= |ops|
  {
    if n == 0 then map[]
    else match ops[n - 1]
      case Poll(device, ifIndex, cur, _) => Stored(After(ops, n - 1), device, ifIndex, cur)
      case Forget(device, seen) => Forgotten(After(ops, n - 1), device, seen)
  }

  ghost predicate Polls(op: Op, device: int, ifIndex: int) {
    op.Poll? && op.device == device && op.ifIndex == ifIndex
  }

  ghost predicate Drops(op: Op, device: int, ifIndex: int) {
    op.Forget? && op.device == device && ifIndex !in op.seen
  }

  /** Step `i` is the latest poll of the interface and nothing dropped the sample since. */
  ghost predicate IsLatest(ops: seq<Op>, n: nat, device: int, ifIndex: int, i: nat)
    requires n <= |ops|
  {
    i < n && Polls(ops[i], device, ifIndex)
    && forall j :: i < j < n ==> !Polls(ops[j], device, ifIndex) && !Drops(ops[j], device, ifIndex)
  }

  /** Whatever other interfaces do, the stored sample is the latest poll that was not forgotten. */
  lemma {:induction false} StoredIsLatest(ops: seq<Op>, n: nat, device: int, ifIndex: int) returns (i: nat)
    requires n <= |ops|
    ensures Lookup(After(ops, n), device, ifIndex).Some? ==>
              IsLatest(ops, n, device, ifIndex, i) && Lookup(After(ops, n), device, ifIndex) == Some(ops[i].cur)
    ensures Lookup(After(ops, n), device, ifIndex).None? ==> forall k :: !IsLatest(ops, n, device, ifIndex, k)
  {
    i := 0;
    if n > 0 {
      i := StoredIsLatest(ops, n - 1, device, ifIndex);
      if Polls(ops[n - 1], device, ifIndex) {
        i := n - 1;
      } else if Lookup(After(ops, n), device, ifIndex).None? {
        forall k ensures !IsLatest(ops, n, device, ifIndex, k) {
          assert IsLatest(ops, n, device, ifIndex, k) ==> IsLatest(ops, n - 1, device, ifIndex, k);
        }
      }
    }
  }

  /** What step `i` reports. */
  ghost function Reported(ops: seq<Op>, i: nat): Option<Rates>
    requires i < |ops|
  {
    match ops[i]
    case Poll(device, ifIndex, cur, speedBps) =>
      var prev := Lookup(After(ops, i), device, ifIndex);
      if prev.None? then None else RatesBetween(prev.value, cur, speedBps)
    case Forget(_, _) => None
  }

  ghost predicate Logged(ops: seq<Op>, log: seq<Option<Rates>>) {
    |log| == |ops| && forall i {:trigger Reported(ops, i)} :: 0 <= i < |ops| ==> log[i] == Reported(ops, i)
  }

  /** A stretch of consecutive polls of one interface whose rates were all reported. */
  datatype Stretch = Stretch(first: nat, last: nat, bits: real, narrow: bool)

  /** The bits behind the reported rate of step `i`, the previous poll being step `p`. */
  ghost function BitsOf(ops: seq<Op>, log: seq<Option<Rates>>, p: nat, i: nat, d: Direction): real
    requires p < i < |ops| == |log| && ops[p].Poll? && ops[i].Poll? && log[i].Some?
  {
    Bits(log[i].value.Bps(d), ops[i].cur.at - ops[p].cur.at)
  }

  /**
   * The stretch that ends with the interface's latest poll after `n` steps. `bits` adds up reported
   * rate times elapsed time; `narrow` says that every increment of the true total was below the counter width.
   */
  ghost function Current(ops: seq<Op>, log: seq<Option<Rates>>, truth: seq<nat>, n: nat, device: int, ifIndex: int, d: Direction): (s: Option<Stretch>)
    requires n <= |ops| == |log| == |truth|
    ensures s.Some? ==> s.value.first <= s.value.last < n && ops[s.value.last].Poll?
  {
    if n == 0 then None
    else
      var before, i := Current(ops, log, truth, n - 1, device, ifIndex, d), n - 1;
      if Drops(ops[i], device, ifIndex) then None
      else if !Polls(ops[i], device, ifIndex) then before
      else if before.None? || log[i].None? then Some(Stretch(i, i, 0.0, true))
      else
        var p := before.value.last;
        Some(Stretch(before.value.first, i, before.value.bits + BitsOf(ops, log, p, i, d),
                     before.value.narrow && truth[i] - truth[p] < Width(ops[i].cur.hc)))
  }

  /** The readings are those of a counter that shows `truth`, a total that never shrinks, modulo its width. */
  ghost predicate Shows(ops: seq<Op>, truth: seq<nat>, device: int, ifIndex: int, d: Direction)
    requires |ops| == |truth|
  {
    && (forall i :: 0 <= i < |ops| && Polls(ops[i], device, ifIndex) ==> ops[i].cur.Octets(d) == truth[i] % Width(ops[i].cur.hc))
    && (forall i, j :: 0 <= i < j < |ops| && Polls(ops[i], device, ifIndex) && Polls(ops[j], device, ifIndex) ==> truth[i] <= truth[j])
  }

  /** One reported poll: its bits against the true increment. */
  lemma ReportedAgainstTruth(ops: seq<Op>, log: seq<Option<Rates>>, truth: seq<nat>, p: nat, i: nat, device: int, ifIndex: int, d: Direction)
    requires |ops| == |truth| && Logged(ops, log) && Shows(ops, truth, device, ifIndex, d)
    requires p < i < |ops| && IsLatest(ops, i, device, ifIndex, p) && Polls(ops[i], device, ifIndex) && log[i].Some?
    ensures truth[p] <= truth[i]
    ensures BitsOf(ops, log, p, i, d) <= 8.0 * (truth[i] - truth[p]) as real
    ensures BitsOf(ops, log, p, i, d) == 8.0 * (truth[i] - truth[p]) as real <==> truth[i] - truth[p] < Width(ops[i].cur.hc)
  {
    var k := StoredIsLatest(ops, i, device, ifIndex);
    assert log[i] == Reported(ops, i);
    assert k == p;
    ReportedRates(ops[p].cur, ops[i].cur, ops[i].speedBps, d);
    DeltaIsIncrement(truth[p], truth[i], ops[i].cur.hc);
  }

  ghost predicate Telescopes(s: Stretch, truth: seq<nat>)
    requires s.first < |truth| && s.last < |truth|
  {
    && truth[s.first] <= truth[s.last]
    && s.bits <= 8.0 * (truth[s.last] - truth[s.first]) as real
    && (s.bits == 8.0 * (truth[s.last] - truth[s.first]) as real <==> s.narrow)
  }

  /**
   * In every run, over every stretch of reported polls, the rates add up to no more than the true
   * octet total, and to exactly that total if and only if every increment was below the counter width.
   */
  lemma {:induction false} RatesTelescope(ops: seq<Op>, log: seq<Option<Rates>>, truth: seq<nat>, n: nat, device: int, ifIndex: int, d: Direction)
    requires n <= |ops| == |truth| && Logged(ops, log) && Shows(ops, truth, device, ifIndex, d)
    ensures var s := Current(ops, log, truth, n, device, ifIndex, d);
            s.Some? ==> IsLatest(ops, n, device, ifIndex, s.value.last) && Telescopes(s.value, truth)
  {
    if n > 0 {
      var i := n - 1;
      RatesTelescope(ops, log, truth, i, device, ifIndex, d);
      var before := Current(ops, log, truth, i, device, ifIndex, d);
      if Polls(ops[i], device, ifIndex) && before.Some? && log[i].Some? {
        ReportedAgainstTruth(ops, log, truth, before.value.last, i, device, ifIndex, d);
      }
    }
  }
}
