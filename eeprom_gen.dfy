/** The PLX EEPROM image generator: register writes are packed into 6-byte
    entries (a 16-bit stream address and a 32-bit value, little endian), and
    the stream is framed by a signature byte, a zero byte, the entries' byte
    count and a 32-bit CRC field that is always written as zero. */
module EepromGen {
  import opened Bits
  import opened Python

  datatype Option<T> = None | Some(value: T)

  /** Keys of the port table: station-relative port numbers, and the names
      of the special functions. */
  datatype PortKey = Num(n: int) | Named(name: string)

  /** PLX_port: the stream port number of each port and special function.
      Ports 4-7 live in the second station, at 0x08 | n. */
  const PlxPort: map<PortKey, int> := map[
    Num(0) := 0x00, Num(1) := 0x01, Num(2) := 0x02, Num(3) := 0x03,
    Num(4) := 0x08, Num(5) := 0x09, Num(6) := 0x0A, Num(7) := 0x0B,
    Named("A-LUT RAM0") := 0x2C, Named("A-LUT RAM1") := 0x2D,
    Named("A-LUT RAM2") := 0x2E, Named("A-LUT RAM3") := 0x2F,
    Named("VS0") := 0x30, Named("VS1") := 0x31,
    Named("NT0 Link") := 0x38, Named("NT0 Virtual") := 0x39,
    Named("NT1 Link") := 0x3A, Named("NT1 Virtual") := 0x3B]

  /** Every table entry is a 6-bit port number, so every entry the script can
      build from the table packs; ports 0-3 map to themselves and ports 4-7
      to 8-11. */
  lemma PlxPortTable()
    ensures forall k | k in PlxPort :: 0 <= PlxPort[k] < 64
    ensures forall n: int | 0 <= n < 8 :: Num(n) in PlxPort && PlxPort[Num(n)] == if n < 4 then n else n + 4
  {
    forall n: int | 0 <= n < 8
      ensures Num(n) in PlxPort && PlxPort[Num(n)] == if n < 4 then n else n + 4
    {
      assert n == 0 || n == 1 || n == 2 || n == 3 || n == 4 || n == 5 || n == 6 || n == 7;
    }
  }

  /** PLX_RegAddr: the stream address of a register, the port number above
      bit 10 and the register's dword index in bits 0-9. The `|` adds, since
      `port << 10` has its ten low bits clear. */
  function RegAddr(port: int, addr: int): (r: int)
    ensures r / 0x400 == port && r % 0x400 == Field(addr, 2, 10)
    ensures 0 <= r < 0x1_0000 <==> 0 <= port < 64
  {
    port * 0x400 + Field(addr, 2, 10)
  }

  /** The two low bits and the bits above 11 of the byte offset do not reach
      the stream address. */
  lemma RegAddrDwordIndex(port: int, addr: int, k: int)
    requires 0 <= k < 4
    ensures RegAddr(port, addr / 4 * 4 + k) == RegAddr(port, addr)
    ensures RegAddr(port, addr + 0x1000) == RegAddr(port, addr)
  {
    assert Pow2(2) == 4 && Pow2(10) == 0x400;
    DivAddMultiple(addr / 4, k, 4);
    DivAddMultiple(0x400, addr / 4, 0x400);
    assert (addr + 0x1000) / 4 == 0x400 + addr / 4;
  }

  type Record = s: seq<byte> | |s| == 6 witness [0, 0, 0, 0, 0, 0]

  /** PLX_RegEntry: struct.pack('<HI', PLX_RegAddr(port, addr), value), which
      raises struct.error when either number is out of its field's range. */
  function RegEntry(port: int, addr: int, value: int): (r: Result<Record>)
    ensures r.Return? <==> 0 <= port < 64 && 0 <= value < 0x1_0000_0000
    ensures r.Raise? ==> r.exc == StructError
  {
    var a := RegAddr(port, addr);
    if 0 <= a < 0x1_0000 && 0 <= value < 0x1_0000_0000 then
      var e: Record := LittleEndian(a, 2) + LittleEndian(value, 4);
      Return(e)
    else
      Raise(StructError)
  }

  /** The stream address and value a record carries. */
  function ParseRecord(e: Record): (int, int)
  {
    (FromLittleEndian(e[..2]), FromLittleEndian(e[2..]))
  }

  /** A packed entry gives back its port, its dword index and its value. */
  lemma RegEntryRoundTrip(port: int, addr: int, value: int)
    requires RegEntry(port, addr, value).Return?
    ensures var (a, v) := ParseRecord(RegEntry(port, addr, value).value);
      a / 0x400 == port && a % 0x400 == Field(addr, 2, 10) && v == value
  {
    ParsePacked(RegAddr(port, addr), value);
  }

  lemma ParsePacked(a: int, v: int)
    requires 0 <= a < 0x1_0000 && 0 <= v < 0x1_0000_0000
    ensures ParseRecord(LittleEndian(a, 2) + LittleEndian(v, 4)) == (a, v)
  {
    var e := LittleEndian(a, 2) + LittleEndian(v, 4);
    Pow2Table();
    assert e[..2] == LittleEndian(a, 2) && e[2..] == LittleEndian(v, 4);
    LittleEndianRoundTrip(a, 2);
    LittleEndianRoundTrip(v, 4);
  }

  /** The stream address of register 0x220 of port 4 is 0x1088. */
  lemma RegAddrExample()
    ensures RegAddr(4, 0x220) == 0x1088
  {
    Pow2Table();
  }

  /** Register 0x7C of port 1 with value 0x01234567 packs to
      1f 04 67 45 23 01. */
  lemma RegEntryExample()
    ensures RegEntry(1, 0x7C, 0x0123_4567).Return?
    ensures RegEntry(1, 0x7C, 0x0123_4567).value == [0x1F, 0x04, 0x67, 0x45, 0x23, 0x01]
  {
    Pow2Table();
  }

  /** The entry a register write packs to, for arguments that fit. */
  function Entry(port: int, addr: int, value: int): Record
    requires 0 <= port < 64 && 0 <= value < 0x1_0000_0000
  {
    RegEntry(port, addr, value).value
  }

  // ---------------------------------------------------------------------
  // The register stream and its image

  /** The records laid end to end. */
  function Flatten(es: seq<Record>): seq<byte>
  {
    if es == [] then [] else Flatten(es[..|es| - 1]) + es[|es| - 1]
  }

  /** The image serialize produces for a list of entries. */
  function Image(es: seq<Record>): seq<byte>
  {
    [0x5A, 0x00] + LittleEndian(6 * |es|, 2) + Flatten(es) + LittleEndian(0, 4)
  }

  /** PLX_RegStream: the list of packed entries. */
  class RegStream {
    var entries: seq<Record>

    constructor ()
      ensures entries == []
    {
      entries := [];
    }

    method Append(e: Record)
      modifies this
      ensures entries == old(entries) + [e]
    {
      entries := entries + [e];
    }

    /** serialize: the '<H' byte count overflows, raising struct.error,
        from 10923 entries on. */
    method Serialize() returns (r: Result<seq<byte>>)
      ensures r.Return? <==> |entries| <= 10922
      ensures r.Return? ==> r.value == Image(entries)
      ensures r.Raise? ==> r.exc == StructError
    {
      var count := |entries| * 6;
      if !(count < 0x1_0000) {
        return Raise(StructError);
      }
      var buf: seq<byte> := [0x5A] + [0x00] + LittleEndian(count, 2);
      for i := 0 to |entries|
        invariant buf == [0x5A, 0x00] + LittleEndian(count, 2) + Flatten(entries[..i])
      {
        assert entries[..i + 1][..i] == entries[..i];
        buf := buf + entries[i];
      }
      assert entries[..|entries|] == entries;
      var crcval := 0;
      buf := buf + LittleEndian(crcval, 4);
      r := Return(buf);
    }
  }

  /** The inverse of Image: the entries of a well-formed image with a zero
      CRC field, or None. */
  function ParseImage(b: seq<byte>): Option<seq<Record>>
  {
    if |b| < 8 || b[0] != 0x5A || b[1] != 0x00 then None
    else
      var count := FromLittleEndian(b[2..4]);
      if count % 6 != 0 || |b| != 8 + count || b[4 + count..] != [0, 0, 0, 0] then None
      else Some(Chunks(b[4..4 + count], count / 6))
  }

  /** s cut into n records. */
  function Chunks(s: seq<byte>, n: nat): (es: seq<Record>)
    requires |s| == 6 * n
    ensures |es| == n
  {
    seq(n, k requires 0 <= k < n => s[6 * k..6 * k + 6])
  }

  /** Where each part of the image lies. */
  lemma ImageLayout(es: seq<Record>)
    requires 6 * |es| < 0x1_0000
    ensures var b := Image(es);
      |b| == 8 + 6 * |es| && b[0] == 0x5A && b[1] == 0x00 &&
      FromLittleEndian(b[2..4]) == 6 * |es| &&
      b[4..4 + 6 * |es|] == Flatten(es) &&
      (forall k :: 0 <= k < |es| ==> b[4 + 6 * k..10 + 6 * k] == es[k]) &&
      b[4 + 6 * |es|..] == [0, 0, 0, 0]
  {
    var head, body, tail := [0x5A, 0x00] + LittleEndian(6 * |es|, 2), Flatten(es), LittleEndian(0, 4);
    var b := Image(es);
    assert b == head + body + tail;
    FlattenLength(es);
    CountAndCrcFields(6 * |es|);
    ThreeParts(head, body, tail);
    assert b[2..4] == head[2..4] == LittleEndian(6 * |es|, 2);
    forall k | 0 <= k < |es|
      ensures b[4 + 6 * k..10 + 6 * k] == es[k]
    {
      FlattenAt(es, k);
      assert b[4 + 6 * k..10 + 6 * k] == body[6 * k..6 * k + 6];
    }
  }

  /** The count field reads back as the count; a zero CRC is four zero bytes. */
  lemma CountAndCrcFields(count: int)
    requires 0 <= count < 0x1_0000
    ensures FromLittleEndian(LittleEndian(count, 2)) == count
    ensures LittleEndian(0, 4) == [0, 0, 0, 0]
  {
    Pow2Table();
    LittleEndianRoundTrip(count, 2);
  }

  lemma ThreeParts<T>(a: seq<T>, b: seq<T>, c: seq<T>)
    ensures (a + b + c)[..|a|] == a
    ensures (a + b + c)[|a|..|a| + |b|] == b
    ensures (a + b + c)[|a| + |b|..] == c
  {
  }

  /** Parsing recovers the entries of every image serialize can produce. */
  lemma ImageRoundTrip(es: seq<Record>)
    requires 6 * |es| < 0x1_0000
    ensures ParseImage(Image(es)) == Some(es)
  {
    var b := Image(es);
    ImageLayout(es);
    assert 6 * |es| / 6 == |es|;
    ChunksOfFlatten(es);
  }

  /** Conversely, every byte string that parses is the image of what it
      parses to: the image format has no other form. */
  lemma ParseImageExact(b: seq<byte>)
    requires ParseImage(b).Some?
    ensures Image(ParseImage(b).value) == b
  {
    var count := FromLittleEndian(b[2..4]);
    var n := count / 6;
    var es := ParseImage(b).value;
    assert 6 * n == count;
    FlattenChunks(b[4..4 + count], n);
    LittleEndianOfFrom(b[2..4]);
    Reassemble(b, es);
  }

  /** A byte string laid out as the image of es is that image. */
  lemma Reassemble(b: seq<byte>, es: seq<Record>)
    requires |b| == 8 + 6 * |es| && b[0] == 0x5A && b[1] == 0x00
    requires b[2..4] == LittleEndian(6 * |es|, 2)
    requires b[4..4 + 6 * |es|] == Flatten(es)
    requires b[4 + 6 * |es|..] == [0, 0, 0, 0]
    ensures Image(es) == b
  {
    assert LittleEndian(0, 4) == [0, 0, 0, 0];
    assert b[..2] == [0x5A, 0x00];
    Split4(b, 2, 4, 4 + 6 * |es|);
  }

  lemma Split4<T>(s: seq<T>, i: int, j: int, k: int)
    requires 0 <= i <= j <= k <= |s|
    ensures s == s[..i] + s[i..j] + s[j..k] + s[k..]
  {
  }

  // ---------------------------------------------------------------------
  // Helpers about Flatten

  lemma {:induction false} FlattenLength(es: seq<Record>)
    ensures |Flatten(es)| == 6 * |es|
    decreases |es|
  {
    if es != [] {
      FlattenLength(es[..|es| - 1]);
    }
  }

  lemma {:induction false} FlattenAt(es: seq<Record>, k: int)
    requires 0 <= k < |es|
    ensures 6 * k + 6 <= |Flatten(es)| && Flatten(es)[6 * k..6 * k + 6] == es[k]
    decreases |es|
  {
    var init := es[..|es| - 1];
    FlattenLength(init);
    FlattenLength(es);
    if k < |es| - 1 {
      FlattenAt(init, k);
      assert init[k] == es[k];
      assert Flatten(es)[6 * k..6 * k + 6] == Flatten(init)[6 * k..6 * k + 6];
    } else {
      assert Flatten(es)[6 * k..6 * k + 6] == es[|es| - 1];
    }
  }

  lemma ChunksOfFlatten(es: seq<Record>)
    ensures |Flatten(es)| == 6 * |es| && Chunks(Flatten(es), |es|) == es
  {
    FlattenLength(es);
    var cs := Chunks(Flatten(es), |es|);
    forall k | 0 <= k < |es|
      ensures cs[k] == es[k]
    {
      FlattenAt(es, k);
    }
  }

  lemma {:induction false} FlattenChunks(s: seq<byte>, n: nat)
    requires |s| == 6 * n
    ensures Flatten(Chunks(s, n)) == s
  {
    if n > 0 {
      var cs := Chunks(s, n);
      var prefix := s[..6 * (n - 1)];
      FlattenChunks(prefix, n - 1);
      forall k | 0 <= k < n - 1
        ensures cs[k] == Chunks(prefix, n - 1)[k]
      {
        assert prefix[6 * k..6 * k + 6] == s[6 * k..6 * k + 6];
      }
      assert cs[..n - 1] == Chunks(prefix, n - 1);
      assert cs[n - 1] == s[6 * (n - 1)..];
      assert s == prefix + s[6 * (n - 1)..];
    }
  }

  // ---------------------------------------------------------------------
  // The script

  /** The script's switches, in the order it tests them. */
  datatype Toggles = Toggles(
    station2LaneReversal: bool,
    disablePort1: bool,
    disablePort4: bool,
    upstreamPort1: bool,
    ntPort1: bool,
    ntPort4: bool,
    portCfgX4x4x4x4: bool,
    portCfgX8x8: bool)

  /** The switches as the script ships. */
  const Shipped := Toggles(
    station2LaneReversal := true, disablePort1 := false, disablePort4 := false,
    upstreamPort1 := true, ntPort1 := false, ntPort4 := false,
    portCfgX4x4x4x4 := false, portCfgX8x8 := true)

  // Register values, as the script composes them from single bits. Where a
  // line masks with `& ~(1 << n)`, Python's precedence makes the mask clear
  // bit n of the term just before it only.
  const Station2Value := 0x4000_7100    // bits 8, 12, 13, 14 and 30
  const PortDisableValue1 := 0x2        // bit 1
  const ClockDisable1 := 0x0100_00FD    // power-on 0x010000ff without bit 1
  const PortDisableValue4 := 0x1        // bit 0
  const ClockDisable4 := 0x0100_00EF    // power-on 0x010000ff without bit 4
  const UpstreamPort1Value := 0x001A_1A01  // upstream 1, NT0 port 0x1a, NT1 port 0x1a
  const NtPort1Value := 0x001A_2100     // upstream 0, NT0 port 1 enabled, NT1 port 0x1a
  const NtPort4Value := 0x001A_2400     // upstream 0, NT0 port 4 enabled, NT1 port 0x1a
  const PortCfgX4x4x4x4 := 0x1C         // 'x4x4x4x4' (4) in bits 0-2, 'x8x4x4' (3) from bit 3
  const PortCfgX8x8 := 0x1A             // 'x8x8' (2) in bits 0-2, 'x8x4x4' (3) from bit 3

  /** The writes each switch appends when it is on. */
  const LaneReversalWrites: seq<Record> := [Entry(PlxPort[Num(4)], 0x220, Station2Value)]
  const DisablePort1Writes: seq<Record> :=
    [Entry(PlxPort[Num(0)], 0x208, PortDisableValue1), Entry(PlxPort[Num(0)], 0x30C, ClockDisable1)]
  const DisablePort4Writes: seq<Record> :=
    [Entry(PlxPort[Num(4)], 0x208, PortDisableValue4), Entry(PlxPort[Num(0)], 0x30C, ClockDisable4)]
  const UpstreamPort1Writes: seq<Record> := [Entry(PlxPort[Num(0)], 0x360, UpstreamPort1Value)]
  const NtPort1Writes: seq<Record> := [Entry(PlxPort[Num(0)], 0x360, NtPort1Value)]
  const NtPort4Writes: seq<Record> := [Entry(PlxPort[Num(0)], 0x360, NtPort4Value)]
  const PortCfgX4x4x4x4Writes: seq<Record> := [Entry(PlxPort[Num(0)], 0x300, PortCfgX4x4x4x4)]
  const PortCfgX8x8Writes: seq<Record> := [Entry(PlxPort[Num(0)], 0x300, PortCfgX8x8)]

  /** What one `if` of the script appends. */
  function When(on: bool, writes: seq<Record>): seq<Record>
  {
    if on then writes else []
  }

  /** The entries the script appends for the switches, in order. */
  function Selection(t: Toggles): seq<Record>
  {
    When(t.station2LaneReversal, LaneReversalWrites)
    + When(t.disablePort1, DisablePort1Writes)
    + When(t.disablePort4, DisablePort4Writes)
    + When(t.upstreamPort1, UpstreamPort1Writes)
    + When(t.ntPort1, NtPort1Writes)
    + When(t.ntPort4, NtPort4Writes)
    + When(t.portCfgX4x4x4x4, PortCfgX4x4x4x4Writes)
    + When(t.portCfgX8x8, PortCfgX8x8Writes)
  }

  /** At most ten entries: no choice of switches overflows the byte count. */
  lemma SelectionFits(t: Toggles)
    ensures |Selection(t)| <= 10 && 6 * |Selection(t)| < 0x1_0000
  {
  }

  /** `rs.append(PLX_RegEntry(port, addr, value))`, for arguments that pack. */
  method Add(rs: RegStream, port: int, addr: int, value: int)
    requires 0 <= port < 64 && 0 <= value < 0x1_0000_0000
    modifies rs
    ensures rs.entries == old(rs.entries) + [Entry(port, addr, value)]
  {
    var e := RegEntry(port, addr, value);
    rs.Append(e.value);
  }

  /** The script's body up to the output: one `if` per switch, each
      appending its writes to the stream. */
  method BuildStream(t: Toggles) returns (rs: RegStream)
    ensures fresh(rs) && rs.entries == Selection(t)
  {
    rs := new RegStream();
    PlxPortTable();
    if t.station2LaneReversal {
      Add(rs, PlxPort[Num(4)], 0x220, Station2Value);
    }
    assert rs.entries == When(t.station2LaneReversal, LaneReversalWrites);
    ghost var e := rs.entries;
    if t.disablePort1 {
      Add(rs, PlxPort[Num(0)], 0x208, PortDisableValue1);
      Add(rs, PlxPort[Num(0)], 0x30C, ClockDisable1);
    }
    assert rs.entries == e + When(t.disablePort1, DisablePort1Writes);
    e := rs.entries;
    if t.disablePort4 {
      Add(rs, PlxPort[Num(4)], 0x208, PortDisableValue4);
      Add(rs, PlxPort[Num(0)], 0x30C, ClockDisable4);
    }
    assert rs.entries == e + When(t.disablePort4, DisablePort4Writes);
    e := rs.entries;
    if t.upstreamPort1 {
      Add(rs, PlxPort[Num(0)], 0x360, UpstreamPort1Value);
    }
    assert rs.entries == e + When(t.upstreamPort1, UpstreamPort1Writes);
    e := rs.entries;
    if t.ntPort1 {
      Add(rs, PlxPort[Num(0)], 0x360, NtPort1Value);
    }
    assert rs.entries == e + When(t.ntPort1, NtPort1Writes);
    e := rs.entries;
    if t.ntPort4 {
      Add(rs, PlxPort[Num(0)], 0x360, NtPort4Value);
    }
    assert rs.entries == e + When(t.ntPort4, NtPort4Writes);
    e := rs.entries;
    if t.portCfgX4x4x4x4 {
      Add(rs, PlxPort[Num(0)], 0x300, PortCfgX4x4x4x4);
    }
    assert rs.entries == e + When(t.portCfgX4x4x4x4, PortCfgX4x4x4x4Writes);
    e := rs.entries;
    if t.portCfgX8x8 {
      Add(rs, PlxPort[Num(0)], 0x300, PortCfgX8x8);
    }
    assert rs.entries == e + When(t.portCfgX8x8, PortCfgX8x8Writes);
  }

  /** The whole script: the stream is serialized twice, once for the console
      and once for the file, and both times gives the same image. */
  method Generate(t: Toggles) returns (printed: Result<seq<byte>>, written: Result<seq<byte>>)
    ensures printed == written == Return(Image(Selection(t)))
  {
    var rs := BuildStream(t);
    SelectionFits(t);
    printed := rs.Serialize();
    written := rs.Serialize();
  }

  /** The shipped switches append three writes: the station-2 lane
      reversal at port 8, the upstream-port choice and the x8x8 port
      configuration. */
  lemma ShippedSelection()
    ensures Selection(Shipped) == [
      Entry(8, 0x220, Station2Value),
      Entry(0, 0x360, UpstreamPort1Value),
      Entry(0, 0x300, PortCfgX8x8)]
  {
  }

  /** The image the shipped switches produce, byte for byte. */
  lemma ShippedImage()
    ensures Image(Selection(Shipped)) == [
      0x5A, 0x00, 0x12, 0x00,
      0x88, 0x20, 0x00, 0x71, 0x00, 0x40,
      0xD8, 0x00, 0x01, 0x1A, 0x1A, 0x00,
      0xC0, 0x00, 0x1A, 0x00, 0x00, 0x00,
      0x00, 0x00, 0x00, 0x00]
  {
    ShippedSelection();
    ShippedEntries();
    var e1 := Entry(8, 0x220, Station2Value);
    var e2 := Entry(0, 0x360, UpstreamPort1Value);
    var e3 := Entry(0, 0x300, PortCfgX8x8);
    ImageOfThree(e1, e2, e3);
    ShippedBytes(e1, e2, e3);
  }

  lemma ShippedBytes(e1: seq<byte>, e2: seq<byte>, e3: seq<byte>)
    requires e1 == [0x88, 0x20, 0x00, 0x71, 0x00, 0x40]
    requires e2 == [0xD8, 0x00, 0x01, 0x1A, 0x1A, 0x00]
    requires e3 == [0xC0, 0x00, 0x1A, 0x00, 0x00, 0x00]
    ensures [0x5A, 0x00] + [0x12, 0x00] + (e1 + e2 + e3) + [0x00, 0x00, 0x00, 0x00] == [
      0x5A, 0x00, 0x12, 0x00,
      0x88, 0x20, 0x00, 0x71, 0x00, 0x40,
      0xD8, 0x00, 0x01, 0x1A, 0x1A, 0x00,
      0xC0, 0x00, 0x1A, 0x00, 0x00, 0x00,
      0x00, 0x00, 0x00, 0x00]
  {
  }

  lemma ShippedEntries()
    ensures Entry(8, 0x220, Station2Value) == [0x88, 0x20, 0x00, 0x71, 0x00, 0x40]
    ensures Entry(0, 0x360, UpstreamPort1Value) == [0xD8, 0x00, 0x01, 0x1A, 0x1A, 0x00]
    ensures Entry(0, 0x300, PortCfgX8x8) == [0xC0, 0x00, 0x1A, 0x00, 0x00, 0x00]
  {
    LaneReversalEntry();
    UpstreamPort1Entry();
    PortCfgX8x8Entry();
  }

  lemma LaneReversalEntry()
    ensures Entry(8, 0x220, Station2Value) == [0x88, 0x20, 0x00, 0x71, 0x00, 0x40]
  {
    EntryBytes(8, 0x220, Station2Value, 0x2088);
  }

  lemma UpstreamPort1Entry()
    ensures Entry(0, 0x360, UpstreamPort1Value) == [0xD8, 0x00, 0x01, 0x1A, 0x1A, 0x00]
  {
    EntryBytes(0, 0x360, UpstreamPort1Value, 0xD8);
  }

  lemma PortCfgX8x8Entry()
    ensures Entry(0, 0x300, PortCfgX8x8) == [0xC0, 0x00, 0x1A, 0x00, 0x00, 0x00]
  {
    EntryBytes(0, 0x300, PortCfgX8x8, 0xC0);
  }

  lemma EntryBytes(port: int, addr: int, value: int, a: int)
    requires 0 <= port < 64 && 0 <= value < 0x1_0000_0000
    requires a == port * 0x400 + addr / 4 % 0x400
    ensures Entry(port, addr, value) == LittleEndian(a, 2) + LittleEndian(value, 4)
  {
    Pow2Table();
  }

  lemma ImageOfThree(e1: Record, e2: Record, e3: Record)
    ensures Image([e1, e2, e3]) == [0x5A, 0x00] + [0x12, 0x00] + (e1 + e2 + e3) + [0x00, 0x00, 0x00, 0x00]
  {
    FlattenThree(e1, e2, e3);
    assert LittleEndian(18, 2) == [0x12, 0x00];
    assert LittleEndian(0, 4) == [0x00, 0x00, 0x00, 0x00];
  }

  lemma FlattenThree(e1: Record, e2: Record, e3: Record)
    ensures Flatten([e1, e2, e3]) == e1 + e2 + e3
  {
    assert [e1][..0] == [];
    assert Flatten([e1]) == e1;
    assert [e1, e2][..1] == [e1];
    assert Flatten([e1, e2]) == e1 + e2;
    assert [e1, e2, e3][..2] == [e1, e2];
  }

}
