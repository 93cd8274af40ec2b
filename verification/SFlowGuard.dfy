/**
 * The guard in front of the sFlow decoder: a walk over the sample list of a datagram (sFlow
 * Version 5, section 5) that rejects expanded flow samples advertising too many records.
 */
module SFlowGuard {
  import opened Basics

  type Byte = x: int | 0 <= x < 256

  const MAX_RECORDS := 1000
  const EXPANDED_FLOW := 3
  const WORD := 0x1_0000_0000

  function Power(k: nat): nat {
    if k == 0 then 1 else 256 * Power(k - 1)
  }

  /** The big-endian number in the `k` octets at offset `at`. */
  function Number(s: seq<Byte>, at: nat, k: nat): (r: nat)
    requires at + k <= |s|
    ensures r < Power(k)
  {
    if k == 0 then 0
    else
      var low: int := s[at + k - 1];
      Number(s, at, k - 1) * 256 + low
  }

  /** The big-endian 32-bit number at offset `at`. */
  function U32(s: seq<Byte>, at: nat): nat
    requires at + 4 <= |s|
  {
    Number(s, at, WIDTH)
  }

  const WIDTH: nat := 4

  /** `x` in `k` octets, most significant first. */
  function Bytes(x: nat, k: nat): (s: seq<Byte>)
    ensures |s| == k
  {
    if k == 0 then []
    else
      var low: Byte := x % 256;
      Bytes(x / 256, k - 1) + [low]
  }

  lemma {:induction false} NumberSlice(s: seq<Byte>, t: seq<Byte>, at: nat, k: nat)
    requires at + k <= |s| && k <= |t| && forall i :: 0 <= i < k ==> s[at + i] == t[i]
    ensures Number(s, at, k) == Number(t, 0, k)
  {
    if k > 0 { NumberSlice(s, t, at, k - 1); }
  }

  lemma {:induction false} BytesRoundTrip(x: nat, k: nat)
    requires x < Power(k)
    ensures Number(Bytes(x, k), 0, k) == x
  {
    if k > 0 {
      var low: Byte := x % 256;
      var high := Bytes(x / 256, k - 1);
      BytesRoundTrip(x / 256, k - 1);
      NumberSlice(high + [low], high, 0, k - 1);
    }
  }

  lemma WordIs()
    ensures Power(WIDTH) == WORD
  {}

  function Bytes4(x: nat): (s: seq<Byte>)
    ensures |s| == 4
  {
    Bytes(x, WIDTH)
  }

  /** `piece` stands at offset `off`. */
  ghost predicate At(data: seq<Byte>, off: nat, piece: seq<Byte>) {
    off + |piece| <= |data| && forall i :: 0 <= i < |piece| ==> data[off + i] == piece[i]
  }

  lemma AtSplit(data: seq<Byte>, off: nat, a: seq<Byte>, b: seq<Byte>)
    requires At(data, off, a + b)
    ensures At(data, off, a) && At(data, off + |a|, b)
  {
    forall i | 0 <= i < |a| ensures data[off + i] == a[i] {
      assert (a + b)[i] == a[i];
    }
    forall i | 0 <= i < |b| ensures data[off + |a| + i] == b[i] {
      assert (a + b)[|a| + i] == b[i];
    }
  }

  /** Reading a number where it was written. */
  lemma ReadBack(data: seq<Byte>, off: nat, x: nat)
    requires At(data, off, Bytes4(x)) && x < WORD
    ensures U32(data, off) == x
  {
    WordIs();
    BytesRoundTrip(x, WIDTH);
    NumberSlice(data, Bytes4(x), off, WIDTH);
  }

  // ---------- The grammar: a list of length-prefixed samples ---------------------

  datatype Sample = Sample(format: nat, body: seq<Byte>)

  /** The samples a parser reads from offset `off` when `n` are advertised; it stops at the first that does not fit. */
  ghost function Samples(data: seq<Byte>, off: nat, n: nat): seq<Sample>
    decreases n
  {
    if n == 0 || |data| < off + 8 then []
    else
      var length := U32(data, off + 4);
      if length > |data| - (off + 8) then []
      else [Sample(U32(data, off), data[off + 8..off + 8 + length])] + Samples(data, off + 8 + length, n - 1)
  }

  /** An expanded flow sample whose record count, after ten 32-bit fields, is over the cap. */
  ghost predicate Oversized(s: Sample) {
    s.format == 3 && |s.body| >= 44 && U32(s.body, 40) > 1000
  }

  /** Octets of an agent address of this type; None for types the walk does not know. */
  function AddressLength(kind: nat): Option<nat> {
    if kind == 1 then Some(4) else if kind == 2 then Some(16) else None
  }

  /** Where the sample count stands: after version, address type, address, sub-agent, sequence and uptime. */
  ghost function CountOffset(data: seq<Byte>): (off: Option<nat>)
    ensures off.Some? ==> off.value + 4 <= |data|
  {
    if |data| < 8 then None
    else
      var a := AddressLength(U32(data, 4));
      if a.None? || |data| < 8 + a.value + 12 + 4 then None else Some(8 + a.value + 12)
  }

  /** All samples of a datagram. */
  ghost function Parse(data: seq<Byte>): seq<Sample> {
    var off := CountOffset(data);
    if off.None? then [] else Samples(data, off.value + 4, U32(data, off.value))
  }

  /** The record count of the first oversized sample, if there is one. */
  ghost function FirstOversized(ss: seq<Sample>): Option<nat> {
    if ss == [] then None
    else if Oversized(ss[0]) then Some(U32(ss[0].body, 40))
    else FirstOversized(ss[1..])
  }

  lemma {:induction false} FirstOversizedIs(ss: seq<Sample>) returns (i: nat)
    ensures FirstOversized(ss).None? ==> forall j :: 0 <= j < |ss| ==> !Oversized(ss[j])
    ensures FirstOversized(ss).Some? ==>
              && i < |ss| && Oversized(ss[i]) && FirstOversized(ss) == Some(U32(ss[i].body, 40))
              && forall j :: 0 <= j < i ==> !Oversized(ss[j])
  {
    i := 0;
    if ss != [] && !Oversized(ss[0]) {
      i := FirstOversizedIs(ss[1..]);
      assert forall j :: 0 < j < |ss| ==> ss[j] == ss[1..][j - 1];
      i := i + 1;
    }
  }

  lemma Turn(data: seq<Byte>, off: nat, n: nat)
    requires n > 0 && off + 8 <= |data|
    ensures var length := U32(data, off + 4);
            FirstOversized(Samples(data, off, n)) ==
              if length > |data| - (off + 8) then None
              else if U32(data, off) == EXPANDED_FLOW && length >= 44 && U32(data, off + 48) > MAX_RECORDS then Some(U32(data, off + 48))
              else FirstOversized(Samples(data, off + 8 + length, n - 1))
  {
    var length := U32(data, off + 4);
    if length <= |data| - (off + 8) {
      var body := data[off + 8..off + 8 + length];
      if length >= 44 {
        NumberSlice(data, data[off + 48..off + 52], off + 48, WIDTH);
        NumberSlice(body, data[off + 48..off + 52], 40, WIDTH);
      }
      var rest := Samples(data, off + 8 + length, n - 1);
      assert ([Sample(U32(data, off), body)] + rest)[1..] == rest;
    }
  }

  /** The loop over the sample list that starts at `start`. */
  method Walk(data: seq<Byte>, start: nat, n: nat) returns (rejected: Option<nat>, ghost turns: nat)
    requires 8 <= start <= |data|
    ensures rejected == FirstOversized(Samples(data, start, n))
    ensures 8 * turns <= |data|
  {
    var off, i: nat := start, 0;
    turns := 0;
    while i < n && |data| >= off + 8
      invariant i <= n && start <= off <= |data|
      invariant FirstOversized(Samples(data, start, n)) == FirstOversized(Samples(data, off, n - i))
      invariant i == turns && 8 * turns + 8 <= off
      decreases n - i
    {
      turns := turns + 1;
      Turn(data, off, n - i);
      var format, length := U32(data, off), U32(data, off + 4);
      off := off + 8;
      if length > |data| - off {
        return None, turns;
      }
      if format == EXPANDED_FLOW && length >= 44 {
        var c := U32(data, off + 40);
        if c > MAX_RECORDS {
          return Some(c), turns;
        }
      }
      off := off + length;
      i := i + 1;
    }
    rejected := None;
  }

  /**
   * The guard. It rejects exactly when the parse holds an oversized sample and names the count of
   * the first one; the number of turns is bounded by the data, whatever count is advertised.
   */
  method CheckSFlowRecordCounts(data: seq<Byte>) returns (rejected: Option<nat>, ghost turns: nat)
    ensures rejected.None? ==> forall i :: 0 <= i < |Parse(data)| ==> !Oversized(Parse(data)[i])
    ensures rejected.Some? ==>
              exists i :: 0 <= i < |Parse(data)| && Oversized(Parse(data)[i]) && rejected == Some(U32(Parse(data)[i].body, 40))
    ensures rejected == FirstOversized(Parse(data))
    ensures 8 * turns <= |data|
  {
    ghost var first := FirstOversizedIs(Parse(data));
    if |data| < 8 { return None, 0; }
    var off: nat := 8;
    var kind := U32(data, 4);
    if kind == 1 {
      off := off + 4;
    } else if kind == 2 {
      off := off + 16;
    } else {
      return None, 0;
    }
    off := off + 12;
    if |data| < off + 4 { return None, 0; }
    var n := U32(data, off);
    off := off + 4;
    rejected, turns := Walk(data, off, n);
  }

  // ---------- Encoded datagrams ---------------------------------------------------

  ghost predicate Encodable(ss: seq<Sample>) {
    forall i :: 0 <= i < |ss| ==> ss[i].format < WORD && |ss[i].body| < WORD
  }

  ghost function EncodeOne(s: Sample): seq<Byte> {
    Bytes4(s.format) + Bytes4(|s.body|) + s.body
  }

  ghost function Encode(ss: seq<Sample>): seq<Byte> {
    if ss == [] then [] else EncodeOne(ss[0]) + Encode(ss[1..])
  }

  /** A sample written at `off` is the one read there. */
  lemma EncodedHead(data: seq<Byte>, off: nat, s: Sample, n: nat)
    requires At(data, off, EncodeOne(s)) && s.format < WORD && |s.body| < WORD && n > 0
    ensures Samples(data, off, n) == [s] + Samples(data, off + |EncodeOne(s)|, n - 1)
  {
    AtSplit(data, off, Bytes4(s.format) + Bytes4(|s.body|), s.body);
    AtSplit(data, off, Bytes4(s.format), Bytes4(|s.body|));
    ReadBack(data, off, s.format);
    ReadBack(data, off + 4, |s.body|);
    assert data[off + 8..off + 8 + |s.body|] == s.body;
  }

  /** Parsing undoes encoding, whatever precedes and follows the advertised samples. */
  lemma {:induction false} SamplesRoundTrip(data: seq<Byte>, off: nat, ss: seq<Sample>)
    requires Encodable(ss) && At(data, off, Encode(ss))
    ensures Samples(data, off, |ss|) == ss
    decreases |ss|
  {
    if ss != [] {
      AtSplit(data, off, EncodeOne(ss[0]), Encode(ss[1..]));
      EncodedHead(data, off, ss[0], |ss|);
      SamplesRoundTrip(data, off + |EncodeOne(ss[0])|, ss[1..]);
    }
  }

  /** A datagram up to the samples: version, agent address, three header words and the sample count. */
  ghost function Header(version: nat, kind: nat, address: seq<Byte>, ids: seq<Byte>, count: nat): seq<Byte> {
    Bytes4(version) + (Bytes4(kind) + (address + ids + Bytes4(count)))
  }

  /** A well-formed datagram, with anything behind its last sample, is parsed into exactly its samples. */
  lemma {:induction false} DatagramRoundTrip(data: seq<Byte>, version: nat, kind: nat, address: seq<Byte>, ids: seq<Byte>, ss: seq<Sample>)
    requires version < WORD && kind < WORD && |ss| < WORD && Encodable(ss)
    requires ((kind == 1 && |address| == 4) || (kind == 2 && |address| == 16)) && |ids| == 12
    requires At(data, 0, Header(version, kind, address, ids, |ss|) + Encode(ss))
    ensures Parse(data) == ss
  {
    AtSplit(data, 0, Header(version, kind, address, ids, |ss|), Encode(ss));
    AtSplit(data, 0, Bytes4(version), Bytes4(kind) + (address + ids + Bytes4(|ss|)));
    AtSplit(data, 4, Bytes4(kind), address + ids + Bytes4(|ss|));
    AtSplit(data, 8, address + ids, Bytes4(|ss|));
    ReadBack(data, 4, kind);
    ReadBack(data, 8 + |address| + 12, |ss|);
    SamplesRoundTrip(data, 8 + |address| + 16, ss);
  }
}
