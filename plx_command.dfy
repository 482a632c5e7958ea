/** The PLX register-access command frame sent over I2C. Both tools build
    the same 4-byte read frame: the opcode, then the port number split over
    two bytes, then the register's dword index split over two bytes. */
module PlxCommand {
  import opened Bits

  /** PLX_CMD_WRITE = 0b00000011: the register-write opcode, kept to document
      the command set; neither tool's modelled code sends it. */
  const CmdWrite: byte := 3
  const CmdRead: byte := 4  // PLX_CMD_READ = 0b00000100

  /** `[cmd, (port >> 1) & 0xf, ((port & 1) << 7) | ((addr >> 10) & 3), (addr >> 2) & 0xff]`.
      The two parts of the third byte occupy disjoint bits, so the `|` is a sum. */
  function ReadFrame(port: int, addr: int): (f: seq<byte>)
    ensures |f| == 4 && f[0] == CmdRead
  {
    [CmdRead, Field(port, 1, 4), port % 2 * 0x80 + Field(addr, 10, 2), Field(addr, 2, 8)]
  }

  /** The frame names port modulo 32 and the dword-aligned offset within the
      port's 4 KiB register space: bits 0-1 and from bit 12 up of the offset,
      and from bit 5 up of the port, are not sent. */
  lemma ReadFrameAddresses(port: int, addr: int)
    ensures FramePort(ReadFrame(port, addr)) == port % 32
    ensures FrameOffset(ReadFrame(port, addr)) == addr % 0x1000 - addr % 4
  {
    var f := ReadFrame(port, addr);
    var p, d := port % 32, addr % 0x1000 / 4;
    FrameFromParts(port, addr);
    JoinFrameBytes(p, d, f[1], f[2], f[3]);
  }

  lemma JoinFrameBytes(p: int, d: int, b1: int, b2: int, b3: int)
    requires 0 <= p < 32 && 0 <= d < 0x400
    requires b1 == p / 2 && b2 == p % 2 * 0x80 + d / 0x100 && b3 == d % 0x100
    ensures b1 * 2 + b2 / 0x80 == p && b2 % 4 * 0x400 + b3 * 4 == d * 4
  {
  }

  /** The port number a read frame addresses. */
  function FramePort(f: seq<byte>): int
    requires |f| == 4
  {
    f[1] as int * 2 + f[2] as int / 0x80
  }

  /** The dword-aligned byte offset a read frame addresses. */
  function FrameOffset(f: seq<byte>): int
    requires |f| == 4
  {
    f[2] as int % 4 * 0x400 + f[3] as int * 4
  }

  /** Two reads send the same frame exactly when they agree on the port
      modulo 32 and on bits 2 to 11 of the byte offset. */
  lemma ReadFrameDetermines(p1: int, a1: int, p2: int, a2: int)
    ensures ReadFrame(p1, a1) == ReadFrame(p2, a2) <==>
      p1 % 32 == p2 % 32 && a1 % 0x1000 / 4 == a2 % 0x1000 / 4
  {
    var f1, f2 := ReadFrame(p1, a1), ReadFrame(p2, a2);
    FrameFromParts(p1, a1);
    FrameFromParts(p2, a2);
    if p1 % 32 == p2 % 32 && a1 % 0x1000 / 4 == a2 % 0x1000 / 4 {
      assert f1[1] == f2[1] && f1[2] == f2[2] && f1[3] == f2[3];
      assert f1 == f2;
    }
  }

  /** For ports below 32 and dword-aligned offsets below 0x1000, distinct
      registers are read with distinct frames. */
  lemma ReadFrameInjective(p1: int, a1: int, p2: int, a2: int)
    requires 0 <= p1 < 32 && 0 <= p2 < 32
    requires 0 <= a1 < 0x1000 && 0 <= a2 < 0x1000 && a1 % 4 == 0 && a2 % 4 == 0
    ensures ReadFrame(p1, a1) == ReadFrame(p2, a2) <==> p1 == p2 && a1 == a2
  {
    ReadFrameAddresses(p1, a1);
    ReadFrameAddresses(p2, a2);
    Addressable(p1, a1);
    Addressable(p2, a2);
  }

  lemma Addressable(p: int, a: int)
    requires 0 <= p < 32 && 0 <= a < 0x1000 && a % 4 == 0
    ensures p % 32 == p && a % 0x1000 - a % 4 == a
  {
  }

  /** The frame's bytes in terms of the port modulo 32 and the dword index
      modulo 0x400 alone. */
  lemma FrameFromParts(port: int, addr: int)
    ensures var p, d := port % 32, addr % 0x1000 / 4;
      Field(port, 1, 4) == p / 2 && port % 2 == p % 2 &&
      Field(addr, 10, 2) == d / 0x100 && Field(addr, 2, 8) == d % 0x100 &&
      addr % 0x1000 == d * 4 + addr % 4
  {
    assert Pow2(1) == 2 && Pow2(2) == 4 && Pow2(4) == 16 && Pow2(8) == 0x100 && Pow2(10) == 0x400;
    DivDiv(port, 2, 16);
    DivDiv(addr, 4, 0x400);
    DivDiv(addr, 4, 0x100);
    DivDiv(addr / 4, 0x100, 4);
  }

}
