/** The PEX8619 debug tool: reading a register over I2C, checking the
    adapter's answer, assembling the 32-bit value, and decoding the switch's
    port configuration and per-lane and per-port status vectors from it. */
module Plx8619Dbg {
  import opened Bits
  import opened Python
  import opened Aardvark
  import opened PlxCommand

  const NumLanes := 16
  const NumPorts := 16

  /** n copies of x: Python's `n * [x]`. */
  function Repeat(x: int, n: nat): (r: seq<int>)
    ensures |r| == n && forall i :: 0 <= i < n ==> r[i] == x
  {
    seq(n, _ => x)
  }

  // ---------------------------------------------------------------------
  // Reading a register

  /** plx_validate_read: -1 for an adapter error, -2 when nothing was read,
      0 for the expected four bytes. Any other count reaches the message
      that formats `length`, a name defined nowhere in the tool, so the call
      raises instead of returning its -3. */
  function ValidateRead(count: int): (r: Result<int>)
    ensures r == Return(-1) <==> count < 0
    ensures r == Return(-2) <==> count == 0
    ensures r == Return(0) <==> count == 4
    ensures r.Raise? <==> count > 0 && count != 4
    ensures r.Raise? ==> r.exc == NameError
  {
    if count < 0 then Return(-1)
    else if count == 0 then Return(-2)
    else if count != 4 then Raise(NameError)
    else Return(0)
  }

  /** What plx_read_qword makes of the adapter's answer to its read: the
      validation error code, or the four bytes read as one number with the
      first byte received the most significant. */
  function Qword(resp: Response): (r: Result<int>)
    ensures r.Raise? <==> (resp.count > 0 && resp.count != 4) || (resp.count == 4 && |resp.data| < 4)
    ensures r.Return? && r.value < 0 <==> resp.count <= 0
    ensures r == Return(-1) <==> resp.count < 0
    ensures r == Return(-2) <==> resp.count == 0
    ensures r.Raise? && resp.count != 4 ==> r.exc == NameError
    ensures r.Raise? && resp.count == 4 ==> r.exc == IndexError
    ensures r.Return? && r.value >= 0 ==> r.value < 0x1_0000_0000
  {
    match ValidateRead(resp.count)
    case Raise(e) => Raise(e)
    case Return(errval) =>
      if errval < 0 then Return(errval)
      else if |resp.data| < 4 then Raise(IndexError)
      else
        var d := resp.data;
        Return(d[3] as int + d[2] as int * 0x100 + d[1] as int * 0x1_0000 + d[0] as int * 0x100_0000)
  }

  /** The four bytes of a 32-bit value, most significant first. */
  function BigEndian(v: int): (bs: seq<byte>)
    ensures |bs| == 4
  {
    var le := LittleEndian(v, 4);
    [le[3], le[2], le[1], le[0]]
  }

  /** A successful read is the big-endian reading of the first four bytes
      received: those bytes are exactly the value's big-endian bytes. */
  lemma QwordBigEndian(resp: Response)
    requires Qword(resp).Return? && Qword(resp).value >= 0
    ensures resp.count == 4 && |resp.data| >= 4
    ensures resp.data[..4] == BigEndian(Qword(resp).value)
  {
    var d := resp.data;
    var le := [d[3], d[2], d[1], d[0]];
    FromLittleEndian4(le);
    LittleEndianOfFrom(le);
  }

  /** Every 32-bit value comes back from a read that delivers its
      big-endian bytes, whatever follows them. */
  lemma QwordOfBigEndian(v: int, rest: seq<byte>)
    requires 0 <= v < 0x1_0000_0000
    ensures Qword(Response(4, BigEndian(v) + rest)) == Return(v)
  {
    var le := LittleEndian(v, 4);
    Pow2Table();
    LittleEndianRoundTrip(v, 4);
    FromLittleEndian4(le);
  }

  lemma FromLittleEndian4(le: seq<byte>)
    requires |le| == 4
    ensures FromLittleEndian(le) == le[0] as int + le[1] as int * 0x100 + le[2] as int * 0x1_0000 + le[3] as int * 0x100_0000
  {
    assert le[1..][1..][1..][1..] == [];
    assert FromLittleEndian(le[1..][1..][1..]) == le[3];
    assert FromLittleEndian(le[1..][1..]) == le[2] as int + 0x100 * le[3] as int;
  }

  /** The first byte received is the most significant: [1, 2, 3, 4] reads
      as 0x01020304. */
  lemma MostSignificantFirst()
    ensures Qword(Response(4, [1, 2, 3, 4])) == Return(0x0102_0304)
  {
  }

  /** plx_read4: write the read frame without a stop condition, then read
      four bytes in the same transaction. */
  method Read4(bus: Adapter, device: int, port: int, addr: int) returns (resp: Response)
    modifies bus
    ensures bus.trace == old(bus.trace) + [Write(device, NoStop, ReadFrame(port, addr)), Read(device, NoFlags, 4)]
    ensures bus.readCount == old(bus.readCount) + 1
    ensures resp == bus.oracle(old(bus.readCount))
  {
    bus.I2cWrite(device, NoStop, ReadFrame(port, addr));
    resp := bus.I2cRead(device, NoFlags, 4);
  }

  /** plx_read_qword: one register read, validated and assembled. */
  method ReadQword(bus: Adapter, device: int, port: int, addr: int) returns (r: Result<int>)
    modifies bus
    ensures bus.trace == old(bus.trace) + [Write(device, NoStop, ReadFrame(port, addr)), Read(device, NoFlags, 4)]
    ensures bus.readCount == old(bus.readCount) + 1
    ensures r == Qword(bus.oracle(old(bus.readCount)))
  {
    var resp := Read4(bus, device, port, addr);
    var errval := ValidateRead(resp.count);
    if errval.Raise? {
      return Raise(errval.exc);
    }
    if errval.value < 0 {
      return Return(errval.value);
    }
    if |resp.data| < 4 {
      return Raise(IndexError);
    }
    var d := resp.data;
    r := Return(d[3] as int + d[2] as int * 0x100 + d[1] as int * 0x1_0000 + d[0] as int * 0x100_0000);
  }

  // ---------------------------------------------------------------------
  // Port configuration

  /** plx_get_portconfig's decoding: the low four bits of the value read. */
  function PortConfig(val: int): (code: int)
    ensures 0 <= code < 16 && (val - code) % 16 == 0
  {
    Field(val, 0, 4)
  }

  /** plx_8619_get_portmap: the lanes of each of the 16 ports for the nine
      port configurations, the empty list for any other code. A second
      branch for code 7 follows the first and can never be taken. */
  function PortMap(portcfg: int): (pm: seq<int>)
    ensures |pm| == NumPorts <==> 0 <= portcfg <= 8
    ensures !(0 <= portcfg <= 8) ==> pm == []
  {
    if portcfg == 0 then Repeat(1, NumPorts)
    else if portcfg == 1 then Repeat(1, NumPorts)[0 := 4][4 := 0][6 := 0][8 := 0]
    else if portcfg == 2 then [4, 4, 1, 1, 0, 0, 0, 0, 0, 0, 1, 1, 1, 1, 1, 1]
    else if portcfg == 3 then [4, 4, 4, 1, 0, 0, 0, 0, 0, 0, 0, 1, 0, 1, 0, 1]
    else if portcfg == 4 then Repeat(4, 4) + Repeat(0, 12)
    else if portcfg == 5 then [8, 1, 0, 1, 0, 1, 0, 1, 0, 1, 0, 1, 0, 1, 0, 1]
    else if portcfg == 6 then [8, 4, 0, 1, 0, 0, 0, 0, 0, 0, 0, 1, 0, 1, 0, 1]
    else if portcfg == 7 then Repeat(0, NumPorts)[0 := 8][1 := 4][3 := 1][11 := 1][13 := 1][15 := 1]
    else if portcfg == 7 then [8, 4, 0, 4, 0, 0, 0, 0, 0, 0, 0, 0, 0, 0, 0, 0]
    else if portcfg == 8 then Repeat(0, NumPorts)[0 := 8][1 := 8]
    else []
  }

  /** plx_8619_get_portmap with code 7 given the map of the second code-7
      branch (ports 0, 1 and 3 at x8, x4 and x4), so that no two codes share
      a map. Every other code decodes as before. */
  function PortMapIntended(portcfg: int): (pm: seq<int>)
    ensures |pm| == NumPorts <==> 0 <= portcfg <= 8
    ensures portcfg != 7 ==> pm == PortMap(portcfg)
    ensures portcfg == 7 ==> pm != PortMap(6) && pm[..4] == [8, 4, 0, 4]
  {
    if portcfg == 7 then
      var pm := Repeat(0, NumPorts)[0 := 8][1 := 4][3 := 4];
      assert pm[3] != PortMap(6)[3];
      pm
    else PortMap(portcfg)
  }

  /** The lanes a port map allocates in total. */
  function Sum(s: seq<int>): int
  {
    if s == [] then 0 else s[0] + Sum(s[1..])
  }

  lemma SumStep(s: seq<int>, i: nat)
    requires i < |s|
    ensures Sum(s[i..]) == s[i] + Sum(s[i + 1..])
  {
    assert s[i..][1..] == s[i + 1..];
  }

  /** A 16-entry map's total, written out. */
  lemma Sum16(s: seq<int>)
    requires |s| == 16
    ensures Sum(s) == s[0] + s[1] + s[2] + s[3] + s[4] + s[5] + s[6] + s[7] +
      s[8] + s[9] + s[10] + s[11] + s[12] + s[13] + s[14] + s[15]
  {
    assert s[0..] == s;
    SumStep(s, 0); SumStep(s, 1); SumStep(s, 2); SumStep(s, 3);
    SumStep(s, 4); SumStep(s, 5); SumStep(s, 6); SumStep(s, 7);
    SumStep(s, 8); SumStep(s, 9); SumStep(s, 10); SumStep(s, 11);
    SumStep(s, 12); SumStep(s, 13); SumStep(s, 14); SumStep(s, 15);
    assert s[16..] == [];
  }

  /** A map that describes 16 ports sharing the switch's 16 lanes, each port
      unused or at x1, x4 or x8. */
  predicate LaneMap(pm: seq<int>)
  {
    |pm| == NumPorts && Sum(pm) == NumLanes && forall i :: 0 <= i < |pm| ==> PortWidth(pm[i])
  }

  /** The widths a PEX8619 port can be configured to; 0 for an unused port. */
  predicate PortWidth(lanes: int)
  {
    lanes == 0 || lanes == 1 || lanes == 4 || lanes == 8
  }

  /** Every defined configuration code gives a lane map, and any other code
      the empty list. */
  lemma PortMapShape(portcfg: int)
    ensures 0 <= portcfg <= 8 ==> LaneMap(PortMap(portcfg))
    ensures !(0 <= portcfg <= 8) ==> PortMap(portcfg) == []
  {
    var pm := PortMap(portcfg);
    if portcfg == 0 {
      LaneMapByEntries(pm);
    } else if portcfg == 1 {
      LaneMapByEntries(pm);
    } else if portcfg == 2 {
      LaneMapByEntries(pm);
    } else if portcfg == 3 {
      LaneMapByEntries(pm);
    } else if portcfg == 4 {
      LaneMapByEntries(pm);
    } else if portcfg == 5 {
      LaneMapByEntries(pm);
    } else if portcfg == 6 || portcfg == 7 {
      LaneMapByEntries(pm);
    } else if portcfg == 8 {
      LaneMapByEntries(pm);
    }
  }

  lemma LaneMapByEntries(pm: seq<int>)
    requires |pm| == 16
    requires PortWidth(pm[0]) && PortWidth(pm[1]) && PortWidth(pm[2]) && PortWidth(pm[3])
    requires PortWidth(pm[4]) && PortWidth(pm[5]) && PortWidth(pm[6]) && PortWidth(pm[7])
    requires PortWidth(pm[8]) && PortWidth(pm[9]) && PortWidth(pm[10]) && PortWidth(pm[11])
    requires PortWidth(pm[12]) && PortWidth(pm[13]) && PortWidth(pm[14]) && PortWidth(pm[15])
    requires pm[0] + pm[1] + pm[2] + pm[3] + pm[4] + pm[5] + pm[6] + pm[7] +
      pm[8] + pm[9] + pm[10] + pm[11] + pm[12] + pm[13] + pm[14] + pm[15] == 16
    ensures LaneMap(pm)
  {
    Sum16(pm);
  }

  /** The configuration code a map was decoded from, recognised by its first
      four ports; -1 for a map of no defined code. */
  function Identify(pm: seq<int>): int
  {
    if |pm| < 4 then -1
    else
      var key := pm[0] * 1000 + pm[1] * 100 + pm[2] * 10 + pm[3];
      if key == 1111 then 0
      else if key == 4111 then 1
      else if key == 4411 then 2
      else if key == 4441 then 3
      else if key == 4444 then 4
      else if key == 8101 then 5
      else if key == 8401 then 6
      else if key == 8404 then 7
      else if key == 8800 then 8
      else -1
  }

  /** As written, codes 6 and 7 decode to the same map, so the map of code 7
      is recognised as code 6; the second code-7 branch, with ports 0, 1 and
      3 at x8, x4 and x4, is never reached. */
  lemma PortMapSixIsSeven()
    ensures PortMap(7) == PortMap(6) == [8, 4, 0, 1, 0, 0, 0, 0, 0, 0, 0, 1, 0, 1, 0, 1]
    ensures PortMap(7) != [8, 4, 0, 4, 0, 0, 0, 0, 0, 0, 0, 0, 0, 0, 0, 0]
    ensures Identify(PortMap(7)) == 6
  {
    assert PortMap(7)[3] == 1;
  }

  /** Code 4 is four x4 ports followed by twelve unused ones. */
  lemma PortMapCode4()
    ensures PortMap(4) == [4, 4, 4, 4, 0, 0, 0, 0, 0, 0, 0, 0, 0, 0, 0, 0]
  {
  }

  /** With code 7 taken from its second branch, each defined code gives a
      lane map from which the code can be recovered, so distinct codes give
      distinct maps. */
  lemma PortMapIntendedIdentified(portcfg: int)
    requires 0 <= portcfg <= 8
    ensures LaneMap(PortMapIntended(portcfg))
    ensures Identify(PortMapIntended(portcfg)) == portcfg
  {
    var pm := PortMapIntended(portcfg);
    if portcfg == 7 {
      LaneMapByEntries(pm);
    } else {
      PortMapShape(portcfg);
    }
    IdentifyIntended(portcfg);
  }

  lemma IdentifyIntended(portcfg: int)
    requires 0 <= portcfg <= 8
    ensures Identify(PortMapIntended(portcfg)) == portcfg
  {
    var pm := PortMapIntended(portcfg);
    if portcfg < 4 {
      assert pm[0] == [1, 4, 4, 4][portcfg];
      assert pm[1] == [1, 1, 4, 4][portcfg];
      assert pm[2] == [1, 1, 1, 4][portcfg];
    } else {
      assert pm[0] == [4, 8, 8, 8, 8][portcfg - 4];
      assert pm[1] == [4, 1, 4, 4, 8][portcfg - 4];
      assert pm[3] == [4, 1, 1, 4, 0][portcfg - 4];
    }
  }

  lemma PortMapIntendedDistinct(c1: int, c2: int)
    requires 0 <= c1 <= 8 && 0 <= c2 <= 8
    ensures PortMapIntended(c1) == PortMapIntended(c2) <==> c1 == c2
  {
    PortMapIntendedIdentified(c1);
    PortMapIntendedIdentified(c2);
  }

  /** A failed read returns -1 or -2, which decode as port configurations
      15 and 14: both give the empty map. */
  lemma FailedReadPortMap()
    ensures PortConfig(-1) == 15 && PortConfig(-2) == 14
    ensures PortMap(PortConfig(-1)) == [] && PortMap(PortConfig(-2)) == []
  {
    Pow2Table();
    DivModUnique(-1, 16, -1, 15);
    DivModUnique(-2, 16, -1, 14);
  }

  // ---------------------------------------------------------------------
  // Per-lane and per-port bit vectors

  /** Bits shift .. shift+n-1 of val, one list entry per bit. */
  function BitVector(val: int, shift: nat, n: nat): (v: seq<int>)
    ensures |v| == n
  {
    seq(n, i requires 0 <= i < n => Field(val, shift + i, 1))
  }

  /** A bit vector holds only 0s and 1s, and read as binary digits, least
      significant first, it is the field it was cut from. */
  lemma BitVectorValue(val: int, shift: nat, n: nat)
    ensures forall i :: 0 <= i < n ==> BitVector(val, shift, n)[i] in {0, 1}
    ensures FromBits(BitVector(val, shift, n)) == Field(val, shift, n)
  {
    var v := BitVector(val, shift, n);
    assert Pow2(1) == 2;
    FromBitsOfField(val, shift, v);
  }

  /** A failed read's -1 decodes as every bit set. */
  lemma ErrorCodeAllOnes(shift: nat, n: nat)
    ensures BitVector(-1, shift, n) == Repeat(1, n)
  {
    forall i | 0 <= i < n
      ensures BitVector(-1, shift, n)[i] == 1
    {
      var k := shift + i;
      assert BitVector(-1, shift, n)[i] == Field(-1, k, 1);
      DivModUnique(-1, Pow2(k), -1, Pow2(k) - 1);
      assert Pow2(1) == 2;
      assert Field(-1, k, 1) == -1 % 2;
    }
  }

  /** plx_get_ports_enabled's decoding: entry i is 1 exactly when bit i of
      the value is set. */
  method PortsEnabled(val: int) returns (en: seq<int>)
    ensures en == BitVector(val, 0, NumPorts)
  {
    en := Repeat(0, NumPorts);
    for i := 0 to NumPorts
      invariant |en| == NumPorts
      invariant forall j :: 0 <= j < i ==> en[j] == Field(val, j, 1)
      invariant forall j :: i <= j < NumPorts ==> en[j] == 0
    {
      if val / Pow2(i) % 2 != 0 {
        en := en[i := 1];
      }
    }
  }

  /** plx_get_lanes_up's decoding: entry i is bit i of the value. */
  method LanesUp(val: int) returns (lanesUp: seq<int>)
    ensures lanesUp == BitVector(val, 0, NumLanes)
  {
    lanesUp := Repeat(0, NumLanes);
    for i := 0 to NumLanes
      invariant |lanesUp| == NumLanes
      invariant forall j :: 0 <= j < i ==> lanesUp[j] == Field(val, j, 1)
    {
      lanesUp := lanesUp[i := Field(val, i, 1)];
    }
  }

  /** plx_get_receiver_detected's decoding: lanes 0-7 are bits 24-31 of the
      low word, lanes 8-15 bits 24-31 of the high word. */
  method ReceiverDetected(rdLow: int, rdHigh: int) returns (rd: seq<int>)
    ensures rd == BitVector(rdLow, 24, 8) + BitVector(rdHigh, 24, 8)
  {
    rd := Repeat(0, NumLanes);
    for i := 0 to 8
      invariant |rd| == NumLanes
      invariant forall j :: 0 <= j < i ==> rd[j] == Field(rdLow, 24 + j, 1)
    {
      rd := rd[i := Field(rdLow, 24 + i, 1)];
    }
    for i := 0 to 8
      invariant |rd| == NumLanes
      invariant forall j :: 0 <= j < 8 ==> rd[j] == Field(rdLow, 24 + j, 1)
      invariant forall j :: 8 <= j < 8 + i ==> rd[j] == Field(rdHigh, 16 + j, 1)
    {
      rd := rd[8 + i := Field(rdHigh, 24 + i, 1)];
    }
  }

  /** The four low bytes of a word, least significant first. */
  function Bytes4(word: int): (bs: seq<int>)
    ensures |bs| == 4 && forall k :: 0 <= k < 4 ==> 0 <= bs[k] < 0x100
  {
    Pow2Table();
    [Field(word, 0, 8), Field(word, 8, 8), Field(word, 16, 8), Field(word, 24, 8)]
  }

  /** a[0], b[0], a[1], b[1], ...: lanes alternate between an even-lane
      and an odd-lane source. */
  function Interleave(a: seq<int>, b: seq<int>): (r: seq<int>)
    requires |a| == |b|
    ensures |r| == 2 * |a|
  {
    if a == [] then [] else [a[0], b[0]] + Interleave(a[1..], b[1..])
  }

  /** plx_get_recv_errcounts's decoding, one assignment per lane: lanes 2k
      and 2k+1 get byte k of the even-lane and the odd-lane word, lanes 0-7
      from the low pair of words and lanes 8-15 from the high pair. */
  method RecvErrCounts(even0246: int, odd1357: int, even8ace: int, odd9bdf: int) returns (counts: seq<int>)
    ensures counts == Interleave(Bytes4(even0246), Bytes4(odd1357)) + Interleave(Bytes4(even8ace), Bytes4(odd9bdf))
  {
    counts := Repeat(0, NumLanes);
    counts := counts[0 := Field(even0246, 0, 8)];
    counts := counts[1 := Field(odd1357, 0, 8)];
    counts := counts[2 := Field(even0246, 8, 8)];
    counts := counts[3 := Field(odd1357, 8, 8)];
    counts := counts[4 := Field(even0246, 16, 8)];
    counts := counts[5 := Field(odd1357, 16, 8)];
    counts := counts[6 := Field(even0246, 24, 8)];
    counts := counts[7 := Field(odd1357, 24, 8)];
    counts := counts[8 := Field(even8ace, 0, 8)];
    counts := counts[9 := Field(odd9bdf, 0, 8)];
    counts := counts[10 := Field(even8ace, 8, 8)];
    counts := counts[11 := Field(odd9bdf, 8, 8)];
    counts := counts[12 := Field(even8ace, 16, 8)];
    counts := counts[13 := Field(odd9bdf, 16, 8)];
    counts := counts[14 := Field(even8ace, 24, 8)];
    counts := counts[15 := Field(odd9bdf, 24, 8)];
    InterleaveFour(Bytes4(even0246), Bytes4(odd1357));
    InterleaveFour(Bytes4(even8ace), Bytes4(odd9bdf));
  }

  lemma InterleaveFour(a: seq<int>, b: seq<int>)
    requires |a| == 4 && |b| == 4
    ensures Interleave(a, b) == [a[0], b[0], a[1], b[1], a[2], b[2], a[3], b[3]]
  {
    var a1, b1 := a[1..], b[1..];
    var a2, b2 := a1[1..], b1[1..];
    var a3, b3 := a2[1..], b2[1..];
    assert a3[1..] == [] && b3[1..] == [];
    assert Interleave(a3, b3) == [a[3], b[3]];
    assert Interleave(a2, b2) == [a[2], b[2]] + [a[3], b[3]];
    assert Interleave(a1, b1) == [a[1], b[1]] + [a[2], b[2], a[3], b[3]];
    assert Interleave(a, b) == [a[0], b[0]] + [a[1], b[1], a[2], b[2], a[3], b[3]];
  }

  /** Position 2i of an interleaving holds a[i] and position 2i+1 holds b[i]:
      with the counts above, lane 2k of a group of eight is byte k of the
      even-lane word and lane 2k+1 byte k of the odd-lane word. */
  lemma {:induction false} InterleaveAt(a: seq<int>, b: seq<int>, i: nat)
    requires |a| == |b| && i < |a|
    ensures Interleave(a, b)[2 * i] == a[i] && Interleave(a, b)[2 * i + 1] == b[i]
  {
    if i > 0 {
      InterleaveAt(a[1..], b[1..], i - 1);
    }
  }

  /** The counts lose nothing of the words' low 32 bits: each word's four
      bytes, as base-256 digits, give the word back. */
  lemma RecvErrCountsRecover(word: int)
    ensures var c := Bytes4(word);
      Field(word, 0, 32) == c[0] + 0x100 * c[1] + 0x1_0000 * c[2] + 0x100_0000 * c[3]
  {
    Pow2Table();
    FieldConcat(word, 0, 8, 24);
    FieldConcat(word, 8, 8, 16);
    FieldConcat(word, 16, 8, 8);
  }

  // ---------------------------------------------------------------------
  // Link width and speed

  /** The 3-bit width code of port i (0-7) of a width word. */
  function WidthCode(word: int, i: nat): nat
  {
    Field(word, 6 * i, 3)
  }

  /** The 1-bit speed code of port i (0-7) of a width word. */
  function SpeedCode(word: int, i: nat): nat
  {
    Field(word, 6 * i + 3, 1)
  }

  /** Whether every width code of the word indexes the 4-entry width table. */
  predicate WidthsInTable(word: int)
  {
    forall i :: 0 <= i < 8 ==> WidthCode(word, i) < 4
  }

  /** plx_get_linkandspeed's decoding. Port i reads the 6-bit group at
      6·(i mod 8) of the low word (ports 0-7) or the high word (8-15): bits
      0-2 give the width 2^code through [1, 2, 4, 8] and bit 3 the speed
      through [2.5, 5.0] GT/s, here in tenths. A width code of 4 or more
      indexes past the width table and raises. */
  method LinkAndSpeed(widthsLow: int, widthsHigh: int) returns (r: Result<(seq<int>, seq<int>)>)
    ensures r.Raise? <==> !(WidthsInTable(widthsLow) && WidthsInTable(widthsHigh))
    ensures r.Raise? ==> r.exc == IndexError
    ensures r.Return? ==> |r.value.0| == NumPorts && |r.value.1| == NumPorts
    ensures r.Return? ==> forall i :: 0 <= i < 8 ==>
      r.value.0[i] == Pow2(WidthCode(widthsLow, i)) && r.value.0[8 + i] == Pow2(WidthCode(widthsHigh, i)) &&
      r.value.1[i] == 25 * (SpeedCode(widthsLow, i) + 1) && r.value.1[8 + i] == 25 * (SpeedCode(widthsHigh, i) + 1)
  {
    var widths := Repeat(0, NumPorts);
    var speeds := Repeat(0, NumPorts);
    var wMap := [1, 2, 4, 8];
    var sMap := [25, 50];
    Pow2Table();
    for i := 0 to 8
      invariant |widths| == NumPorts && |speeds| == NumPorts
      invariant forall j :: 0 <= j < i ==>
        WidthCode(widthsLow, j) < 4 &&
        widths[j] == Pow2(WidthCode(widthsLow, j)) && speeds[j] == 25 * (SpeedCode(widthsLow, j) + 1)
    {
      var ws := widthsLow / Pow2(6 * i);
      var w := Field(ws, 0, 3);
      var s := Field(ws, 3, 1);
      CodesOfShifted(widthsLow, i);
      if w >= 4 {
        return Raise(IndexError);
      }
      widths := widths[i := wMap[w]];
      speeds := speeds[i := sMap[s]];
    }
    for i := 0 to 8
      invariant |widths| == NumPorts && |speeds| == NumPorts
      invariant WidthsInTable(widthsLow)
      invariant forall j :: 0 <= j < 8 ==>
        widths[j] == Pow2(WidthCode(widthsLow, j)) && speeds[j] == 25 * (SpeedCode(widthsLow, j) + 1)
      invariant forall j :: 0 <= j < i ==>
        WidthCode(widthsHigh, j) < 4 &&
        widths[8 + j] == Pow2(WidthCode(widthsHigh, j)) && speeds[8 + j] == 25 * (SpeedCode(widthsHigh, j) + 1)
    {
      var ws := widthsHigh / Pow2(6 * i);
      var w := Field(ws, 0, 3);
      var s := Field(ws, 3, 1);
      CodesOfShifted(widthsHigh, i);
      if w >= 4 {
        return Raise(IndexError);
      }
      widths := widths[8 + i := wMap[w]];
      speeds := speeds[8 + i := sMap[s]];
    }
    r := Return((widths, speeds));
  }

  /** Shifting the word first and then masking gives the port's codes. */
  lemma CodesOfShifted(word: int, i: nat)
    ensures Field(word / Pow2(6 * i), 0, 3) == WidthCode(word, i)
    ensures Field(word / Pow2(6 * i), 3, 1) == SpeedCode(word, i)
  {
    FieldAboveSplit(word, 6 * i, 6 * i, 3);
    FieldAboveSplit(word, 6 * i, 6 * i + 3, 1);
  }

  /** A 32-bit word has nothing at bits 36-47, so its ports 6 and 7 always
      decode as width code 0 and speed code 0: one lane at 2.5 GT/s. */
  lemma UpperGroupsEmpty(word: int)
    requires 0 <= word < 0x1_0000_0000
    ensures WidthCode(word, 6) == 0 && SpeedCode(word, 6) == 0
    ensures WidthCode(word, 7) == 0 && SpeedCode(word, 7) == 0
  {
    Pow2Table();
    Pow2Add(32, 4);
    Pow2Add(36, 3);
    Pow2Add(39, 3);
    Pow2Add(42, 3);
    FieldAbove(word, 36, 3);
    FieldAbove(word, 39, 1);
    FieldAbove(word, 42, 3);
    FieldAbove(word, 45, 1);
  }

  // ---------------------------------------------------------------------
  // Applying a per-port query

  /** The results of f for the ports among 0 .. n-1 whose entry is nonzero. */
  function EnabledResults<T>(enabled: seq<int>, f: int -> T, n: nat): seq<T>
    requires n <= |enabled|
  {
    if n == 0 then []
    else EnabledResults(enabled, f, n - 1) + (if enabled[n - 1] != 0 then [f(n - 1)] else [])
  }

  /** How many of the first n entries are nonzero. */
  function CountEnabled(enabled: seq<int>, n: nat): nat
    requires n <= |enabled|
  {
    if n == 0 then 0 else CountEnabled(enabled, n - 1) + (if enabled[n - 1] != 0 then 1 else 0)
  }

  /** plx_for_all_enabled_ports, with the per-port query as a function of the
      port number: the results for the enabled ports in port order. An
      enabled list shorter than 16 entries is indexed past its end. */
  method ForAllEnabledPorts<T>(enabled: seq<int>, f: int -> T) returns (r: Result<seq<T>>)
    ensures r.Return? <==> |enabled| >= NumLanes
    ensures r.Raise? ==> r.exc == IndexError
    ensures r.Return? ==> r.value == EnabledResults(enabled, f, NumLanes)
  {
    var params: seq<T> := [];
    for i := 0 to NumLanes
      invariant i <= |enabled| && params == EnabledResults(enabled, f, i)
    {
      if i >= |enabled| {
        return Raise(IndexError);
      }
      if enabled[i] != 0 {
        params := params + [f(i)];
      }
    }
    r := Return(params);
  }

  /** One result per enabled port. */
  lemma {:induction false} EnabledResultsCount<T>(enabled: seq<int>, f: int -> T, n: nat)
    requires n <= |enabled|
    ensures |EnabledResults(enabled, f, n)| == CountEnabled(enabled, n)
  {
    if n > 0 {
      EnabledResultsCount(enabled, f, n - 1);
    }
  }

  /** The result of the k-th enabled port is the k-th result. */
  lemma {:induction false} EnabledResultsAt<T>(enabled: seq<int>, f: int -> T, n: nat, i: nat)
    requires i < n <= |enabled| && enabled[i] != 0
    ensures CountEnabled(enabled, i) < |EnabledResults(enabled, f, n)|
    ensures EnabledResults(enabled, f, n)[CountEnabled(enabled, i)] == f(i)
  {
    var prev := EnabledResults(enabled, f, n - 1);
    EnabledResultsCount(enabled, f, n - 1);
    if i < n - 1 {
      EnabledResultsAt(enabled, f, n - 1, i);
    }
  }
}
