/** The I2C register reader and EEPROM page writer: a write of `length`
    bytes split into frames that never cross an 8-byte page, and a scan
    that reads a range of switch registers four bytes at a time until a read
    fails. The adapter is the tracing Aardvark model; the write's pause
    after each frame is not part of this model. */
module PlxRead {
  import opened Bits
  import opened Python
  import opened Aardvark
  import opened PlxCommand

  const PageSize := 8

  // ---------------------------------------------------------------------
  // Page-split writes

  /** One frame's worth of a write: the address of its first data byte,
      that byte's position within the whole write, and the number of data
      bytes. */
  datatype Chunk = Chunk(addr: int, offset: nat, size: nat)

  /** How many of the remaining bytes fit before the next page boundary. */
  function ChunkSize(addr: int, remaining: int): (c: int)
    requires remaining > 0
    ensures 1 <= c <= remaining && c <= PageSize - addr % PageSize
    ensures c == remaining || c == PageSize - addr % PageSize
  {
    if remaining < PageSize - addr % PageSize then remaining else PageSize - addr % PageSize
  }

  /** The frames of a write from position n on, whose next byte goes to addr. */
  function Chunks(addr: int, n: nat, length: int): seq<Chunk>
    decreases length - n
  {
    if n >= length then []
    else
      var c := ChunkSize(addr, length - n);
      [Chunk(addr, n, c)] + Chunks(addr + c, n + c, length)
  }

  /** The data byte at position n of the write: the position's low 8 bits,
      or 0 when the write is zero-filling. */
  function DataByte(n: nat, zero: bool): byte
  {
    if zero then 0 else (n % 0x100) as byte
  }

  function DataBytes(n: nat, count: nat, zero: bool): (bs: seq<byte>)
    ensures |bs| == count
  {
    seq<byte>(count, k requires 0 <= k < count => DataByte(n + k, zero))
  }

  /** The bytes put on the bus for one chunk: the address's low 8 bits,
      then the data. */
  function FrameOf(ch: Chunk, zero: bool): seq<byte>
  {
    [(ch.addr % 0x100) as byte] + DataBytes(ch.offset, ch.size, zero)
  }

  function WriteEvents(device: int, chunks: seq<Chunk>, zero: bool): (es: seq<Event>)
    ensures |es| == |chunks|
  {
    if chunks == [] then []
    else WriteEvents(device, chunks[..|chunks| - 1], zero) + [Write(device, NoFlags, FrameOf(chunks[|chunks| - 1], zero))]
  }

  /** The data bytes of a list of chunks, in order. */
  function Payload(chunks: seq<Chunk>, zero: bool): seq<byte>
  {
    if chunks == [] then [] else DataBytes(chunks[0].offset, chunks[0].size, zero) + Payload(chunks[1..], zero)
  }

  /** _writeMemory: each pass of the loop sends one frame, an address byte
      and up to PageSize data bytes, until length bytes have gone out. */
  method WriteMemory(bus: Adapter, device: int, addr: int, length: int, zero: bool)
    modifies bus
    ensures bus.trace == old(bus.trace) + WriteEvents(device, Chunks(addr, 0, length), zero)
    ensures bus.readCount == old(bus.readCount)
  {
    var n: nat := 0;
    var a := addr;
    ghost var done: seq<Chunk> := [];
    while n < length
      invariant Chunks(addr, 0, length) == done + Chunks(a, n, length)
      invariant bus.trace == old(bus.trace) + WriteEvents(device, done, zero)
      invariant bus.readCount == old(bus.readCount)
      decreases length - n
    {
      var frame, a', n' := FillFrame(a, n, length, zero);
      ghost var ch := Chunk(a, n, n' - n);
      bus.I2cWrite(device, NoFlags, frame);
      WriteEventsAppend(device, done, ch, zero);
      SeqAssoc(done, [ch], Chunks(a', n', length));
      done, a, n := done + [ch], a', n';
    }
    assert done + Chunks(a, n, length) == done;
  }

  /** One frame of _writeMemory: the address byte, then data bytes until the
      write ends or the address reaches a page boundary; the loop always
      runs at least once. Returns the frame and the address and position
      that follow it. */
  method FillFrame(addr: int, n: nat, length: int, zero: bool) returns (frame: seq<byte>, a: int, m: nat)
    requires n < length
    ensures var ch := Chunk(addr, n, ChunkSize(addr, length - n));
      frame == FrameOf(ch, zero) && a == addr + ch.size && m == n + ch.size
    ensures Chunks(addr, n, length) == [Chunk(addr, n, m - n)] + Chunks(a, m, length)
  {
    var dataOut := new byte[PageSize + 1](_ => 0);
    dataOut[0] := (addr % 0x100) as byte;
    ghost var c := ChunkSize(addr, length - n);
    a, m := addr, n;
    var i := 1;
    while true
      invariant 1 <= i <= c && m == n + i - 1 && a == addr + i - 1
      invariant dataOut[0] == (addr % 0x100) as byte
      invariant forall k :: 1 <= k < i ==> dataOut[k] == DataByte(n + k - 1, zero)
      invariant forall k :: i <= k < dataOut.Length ==> dataOut[k] == 0
      decreases c - i
    {
      if !zero {
        dataOut[i] := (m % 0x100) as byte;
      }
      a := a + 1;
      m := m + 1;
      i := i + 1;
      if i - 1 < c {
        InsidePage(addr, i - 1);
      } else {
        PageEnd(addr);
      }
      if !(m < length && a % PageSize != 0) {
        break;
      }
    }
    FrameOfBuffer(dataOut[..], Chunk(addr, n, c), zero);
    frame := dataOut[..i];
  }

  lemma SeqAssoc<T>(x: seq<T>, y: seq<T>, z: seq<T>)
    ensures x + (y + z) == (x + y) + z
  {
  }

  /** The first size + 1 bytes of the buffer, once filled, are the chunk's frame. */
  lemma FrameOfBuffer(buf: seq<byte>, ch: Chunk, zero: bool)
    requires ch.size < |buf| && buf[0] == (ch.addr % 0x100) as byte
    requires forall k :: 1 <= k <= ch.size ==> buf[k] == DataByte(ch.offset + k - 1, zero)
    ensures buf[..ch.size + 1] == FrameOf(ch, zero)
  {
    var f := FrameOf(ch, zero);
    assert forall k | 1 <= k <= ch.size :: f[k] == DataByte(ch.offset + k - 1, zero);
  }

  lemma WriteEventsAppend(device: int, chunks: seq<Chunk>, ch: Chunk, zero: bool)
    ensures WriteEvents(device, chunks + [ch], zero) ==
      WriteEvents(device, chunks, zero) + [Write(device, NoFlags, FrameOf(ch, zero))]
  {
    assert (chunks + [ch])[..|chunks|] == chunks;
  }

  lemma InsidePage(a: int, j: int)
    requires 0 < j < PageSize - a % PageSize
    ensures (a + j) % PageSize != 0
  {
    DivModUnique(a + j, PageSize, a / PageSize, a % PageSize + j);
  }

  lemma PageEnd(a: int)
    ensures (a + (PageSize - a % PageSize)) % PageSize == 0
  {
    DivModUnique(a + (PageSize - a % PageSize), PageSize, a / PageSize + 1, 0);
  }

  /** A chunk that fits before the page boundary stays within one page. */
  lemma SamePage(a: int, c: int)
    requires 1 <= c <= PageSize - a % PageSize
    ensures (a + c - 1) / PageSize == a / PageSize
  {
    DivModUnique(a + c - 1, PageSize, a / PageSize, a % PageSize + c - 1);
  }

  /** Every frame carries one to PageSize data bytes, all within one page,
      and every frame after the first starts on a page boundary. */
  lemma {:induction false} ChunksInPages(addr: int, n: nat, length: int)
    ensures var cs := Chunks(addr, n, length);
      forall j | 0 <= j < |cs| ::
        1 <= cs[j].size <= PageSize && (cs[j].addr + cs[j].size - 1) / PageSize == cs[j].addr / PageSize &&
        (j > 0 ==> cs[j].addr % PageSize == 0)
    decreases length - n
  {
    if n < length {
      var c := ChunkSize(addr, length - n);
      var a, m := addr + c, n + c;
      SamePage(addr, c);
      ChunksInPages(a, m, length);
      if m < length {
        PageEnd(addr);
        assert Chunks(a, m, length)[0].addr % PageSize == 0;
      }
      assert forall j | 1 <= j < |Chunks(addr, n, length)| :: Chunks(addr, n, length)[j] == Chunks(a, m, length)[j - 1];
    }
  }

  /** The frames follow each other without gap or overlap, both in the
      address they write and in the position of their data; the first
      carries min(length - n, PageSize - addr % PageSize) bytes, and the last
      ends the write. A write of length at most n sends nothing. */
  lemma {:induction false} ChunksContiguous(addr: int, n: nat, length: int)
    ensures var cs := Chunks(addr, n, length);
      (cs == [] <==> length <= n) &&
      (cs != [] ==>
        cs[0].addr == addr && cs[0].offset == n &&
        cs[0].size == (if length - n < PageSize - addr % PageSize then length - n else PageSize - addr % PageSize) &&
        cs[|cs| - 1].offset + cs[|cs| - 1].size == length) &&
      forall j | 0 <= j < |cs| - 1 ::
        cs[j + 1].addr == cs[j].addr + cs[j].size && cs[j + 1].offset == cs[j].offset + cs[j].size
    decreases length - n
  {
    if n < length {
      var c := ChunkSize(addr, length - n);
      ChunksContiguous(addr + c, n + c, length);
    }
  }

  /** Across all frames the data is exactly the bytes at positions n to
      length - 1: as many bytes as the write asks for, each the low 8 bits
      of its position or 0 when zero-filling. */
  lemma {:induction false} ChunksPayload(addr: int, n: nat, length: int, zero: bool)
    requires n <= length
    ensures Payload(Chunks(addr, n, length), zero) == DataBytes(n, length - n, zero)
    decreases length - n
  {
    if n < length {
      var c := ChunkSize(addr, length - n);
      ChunksPayload(addr + c, n + c, length, zero);
      DataBytesSplit(n, c, length - n - c, zero);
    }
  }

  lemma DataBytesSplit(n: nat, a: nat, b: nat, zero: bool)
    ensures DataBytes(n, a + b, zero) == DataBytes(n, a, zero) + DataBytes(n + a, b, zero)
  {
    var whole, front, back := DataBytes(n, a + b, zero), DataBytes(n, a, zero), DataBytes(n + a, b, zero);
    assert forall k | 0 <= k < b :: whole[a + k] == back[k];
    assert forall k | 0 <= k < a :: whole[k] == front[k];
  }

  /** A five-byte write starting two bytes before a page boundary goes out
      as two frames: two bytes, then three from the boundary on. */
  lemma WriteExample()
    ensures Chunks(6, 0, 5) == [Chunk(6, 0, 2), Chunk(8, 2, 3)]
    ensures FrameOf(Chunk(6, 0, 2), false) == [6, 0, 1] && FrameOf(Chunk(8, 2, 3), false) == [8, 2, 3, 4]
  {
    assert Chunks(8, 2, 5) == [Chunk(8, 2, 3)] + Chunks(11, 5, 5);
    assert DataBytes(0, 2, false) == [0, 1];
    assert DataBytes(2, 3, false) == [2, 3, 4];
  }

  // ---------------------------------------------------------------------
  // Register scan

  /** The two bus events of one register read. */
  function ReadEvents(device: int, port: int, reg: int): seq<Event>
  {
    [Write(device, NoStop, ReadFrame(port, reg)), Read(device, NoFlags, 4)]
  }

  /** The bus events of the first n reads of a scan from addr: the
      registers addr, addr + 4, ... in turn. */
  function ScanEvents(device: int, port: int, addr: int, n: nat): seq<Event>
  {
    if n == 0 then [] else ScanEvents(device, port, addr, n - 1) + ReadEvents(device, port, addr + 4 * (n - 1))
  }

  lemma ScanEventsStep(t0: seq<Event>, device: int, port: int, addr: int, n: nat)
    ensures t0 + ScanEvents(device, port, addr, n) + ReadEvents(device, port, addr + 4 * n) ==
      t0 + ScanEvents(device, port, addr, n + 1)
  {
  }

  /** plxread_qword: the same read frame as the debug tool sends, without a
      stop condition, then a 4-byte read; the response is returned as it
      comes. */
  method ReadQword(bus: Adapter, device: int, port: int, addr: int) returns (resp: Response)
    modifies bus
    ensures bus.trace == old(bus.trace) + ReadEvents(device, port, addr)
    ensures bus.readCount == old(bus.readCount) + 1
    ensures resp == bus.oracle(old(bus.readCount))
  {
    bus.I2cWrite(device, NoStop, ReadFrame(port, addr));
    resp := bus.I2cRead(device, NoFlags, 4);
  }

  /** What the scan reports, line by line. */
  datatype Report =
    | ReadError(status: int)          // a negative count: the adapter's status
    | NoBytes                         // a count of 0
    | ShortRead(count: int)           // a positive count other than 4
    | Dump(reg: int, data: seq<byte>) // the register and its four bytes

  /** How many registers were read, the reports, and how the scan ended. */
  datatype ScanResult = ScanResult(regsRead: nat, reports: seq<Report>, ended: Result<()>)

  /** Whether the scan goes on after a read: a positive count and at least
      the four bytes that are then indexed. */
  predicate Continues(resp: Response)
  {
    resp.count > 0 && |resp.data| >= 4
  }

  /** The lines reported for one read of register reg. */
  function ReadReports(resp: Response, reg: int): seq<Report>
  {
    if resp.count < 0 then [ReadError(resp.count)]
    else if resp.count == 0 then [NoBytes]
    else
      (if resp.count != 4 then [ShortRead(resp.count)] else []) +
      (if |resp.data| < 4 then [] else [Dump(reg, resp.data[..4])])
  }

  /** How a scan whose last read was resp ends. */
  function LastEnd(resp: Response): Result<()>
  {
    if resp.count > 0 && |resp.data| < 4 then Raise(IndexError) else Return(())
  }

  /** The scan from offset i on, the next read answered by oracle(k). */
  function ScanFrom(oracle: nat -> Response, k: nat, addr: int, length: int, i: nat): ScanResult
    decreases length - i
  {
    if i >= length then ScanResult(0, [], Return(()))
    else if Continues(oracle(k)) then
      Then(1, ReadReports(oracle(k), addr + i), ScanFrom(oracle, k + 1, addr, length, i + 4))
    else ScanResult(1, ReadReports(oracle(k), addr + i), LastEnd(oracle(k)))
  }

  /** A scan's reads and reports so far, followed by the rest of it. */
  function Then(regsRead: nat, reports: seq<Report>, rest: ScanResult): ScanResult
  {
    ScanResult(regsRead + rest.regsRead, reports + rest.reports, rest.ended)
  }

  /** One pass of plxread's loop: read the scan's register n, at addr + 4 * n,
      and report on the response. goOn is false where the scan stops, ended
      says how it does. The read extends a trace of the scan's first n reads
      (after t0) to one of its first n + 1. */
  method ReadRegister(bus: Adapter, device: int, port: int, addr: int, n: nat, ghost t0: seq<Event>) returns (resp: Response, more: seq<Report>, goOn: bool, ended: Result<()>)
    modifies bus
    ensures bus.trace == old(bus.trace) + ReadEvents(device, port, addr + 4 * n)
    ensures old(bus.trace) == t0 + ScanEvents(device, port, addr, n) ==>
      bus.trace == t0 + ScanEvents(device, port, addr, n + 1)
    ensures bus.readCount == old(bus.readCount) + 1
    ensures resp == bus.oracle(old(bus.readCount))
    ensures more == ReadReports(resp, addr + 4 * n) && goOn == Continues(resp) && ended == LastEnd(resp)
  {
    var reg := addr + 4 * n;
    resp := ReadQword(bus, device, port, reg);
    ScanEventsStep(t0, device, port, addr, n);
    goOn, ended := false, Return(());
    if resp.count < 0 {
      return resp, [ReadError(resp.count)], goOn, ended;
    } else if resp.count == 0 {
      return resp, [NoBytes], goOn, ended;
    }
    more := if resp.count != 4 then [ShortRead(resp.count)] else [];
    if |resp.data| < 4 {
      return resp, more, goOn, Raise(IndexError);
    }
    more := more + [Dump(reg, resp.data[..4])];
    goOn := true;
  }

  /** plxread: read the registers at addr + i for i in range(0, length, 4).
      A failed or empty read ends the scan, a short one is reported and the
      scan goes on; data with fewer than four bytes raises when indexed. */
  method PlxRead(bus: Adapter, device: int, port: int, addr: int, length: int) returns (s: ScanResult)
    modifies bus
    ensures s == ScanFrom(bus.oracle, old(bus.readCount), addr, length, 0)
    ensures bus.trace == old(bus.trace) + ScanEvents(device, port, addr, s.regsRead)
  {
    ghost var oracle: nat -> Response, k0: nat, t0: seq<Event> := bus.oracle, bus.readCount, bus.trace;
    ghost var whole := ScanFrom(oracle, k0, addr, length, 0);
    ghost var k: nat := k0;
    var regsRead: nat := 0;
    var reports: seq<Report> := [];
    var i: nat := 0;
    while i < length
      invariant i == 4 * regsRead && bus.readCount == k
      invariant bus.trace == t0 + ScanEvents(device, port, addr, regsRead)
      invariant whole == Then(regsRead, reports, ScanFrom(oracle, k, addr, length, i))
      decreases length - i
    {
      var resp, more, goOn, ended := ReadRegister(bus, device, port, addr, regsRead, t0);
      if !goOn {
        ScanEnds(oracle, k, resp, addr, length, i, regsRead, reports, more);
        return ScanResult(regsRead + 1, reports + more, ended);
      }
      ScanGoesOn(oracle, k, resp, addr, length, i, regsRead, reports, more);
      regsRead, reports := regsRead + 1, reports + more;
      i, k := i + 4, k + 1;
    }
    return ScanResult(regsRead, reports, Return(()));
  }

  /** A read the scan goes on after: its reports join those gathered so
      far, and the scan continues four bytes on. */
  lemma ScanGoesOn(oracle: nat -> Response, k: nat, resp: Response, addr: int, length: int, i: nat,
                   regsRead: nat, reports: seq<Report>, more: seq<Report>)
    requires i < length && oracle(k) == resp && Continues(resp) && more == ReadReports(resp, addr + i)
    ensures Then(regsRead, reports, ScanFrom(oracle, k, addr, length, i)) ==
      Then(regsRead + 1, reports + more, ScanFrom(oracle, k + 1, addr, length, i + 4))
  {
    var next := ScanFrom(oracle, k + 1, addr, length, i + 4);
    assert reports + (more + next.reports) == (reports + more) + next.reports;
  }

  /** A read the scan stops at: it is the last one. */
  lemma ScanEnds(oracle: nat -> Response, k: nat, resp: Response, addr: int, length: int, i: nat,
                 regsRead: nat, reports: seq<Report>, more: seq<Report>)
    requires i < length && oracle(k) == resp && !Continues(resp) && more == ReadReports(resp, addr + i)
    ensures Then(regsRead, reports, ScanFrom(oracle, k, addr, length, i)) ==
      ScanResult(regsRead + 1, reports + more, LastEnd(resp))
  {
  }

  /** The number of offsets in range(0, r, 4). */
  function Steps(r: int): nat
  {
    if r <= 0 then 0 else (r + 3) / 4
  }

  lemma StepsStep(r: int)
    requires r > 0
    ensures Steps(r) == 1 + Steps(r - 4)
  {
  }

  /** The scan reads at least one register of a non-empty range and never
      more than range(i, length, 4) holds, so the last register it reads,
      addr + i + 4 * (regsRead - 1), lies inside the range. */
  lemma {:induction false} ScanRegisters(oracle: nat -> Response, k: nat, addr: int, length: int, i: nat)
    ensures var s := ScanFrom(oracle, k, addr, length, i);
      s.regsRead <= Steps(length - i) && (i < length <==> s.regsRead > 0) &&
      (s.regsRead > 0 ==> i + 4 * (s.regsRead - 1) < length)
    decreases length - i
  {
    if i < length {
      ScanRegisters(oracle, k + 1, addr, length, i + 4);
      StepsStep(length - i);
    }
  }

  /** Every read but the last returned a positive count and four bytes,
      and a scan that stops short of the range does so because its last
      read returned a count of at most 0 or fewer than four bytes. */
  lemma {:induction false} ScanStops(oracle: nat -> Response, k: nat, addr: int, length: int, i: nat)
    ensures var s := ScanFrom(oracle, k, addr, length, i);
      (forall j | k <= j < k + s.regsRead - 1 :: oracle(j).count > 0 && |oracle(j).data| >= 4) &&
      (s.regsRead < Steps(length - i) ==>
        s.regsRead > 0 && (oracle(k + s.regsRead - 1).count <= 0 || |oracle(k + s.regsRead - 1).data| < 4))
    decreases length - i
  {
    if i < length {
      ScanStops(oracle, k + 1, addr, length, i + 4);
      StepsStep(length - i);
    }
  }

  /** A scan raises exactly when its last read returned a positive count
      but fewer than four bytes. */
  lemma {:induction false} ScanRaises(oracle: nat -> Response, k: nat, addr: int, length: int, i: nat)
    ensures var s := ScanFrom(oracle, k, addr, length, i);
      s.ended.Raise? <==>
        s.regsRead > 0 && oracle(k + s.regsRead - 1).count > 0 && |oracle(k + s.regsRead - 1).data| < 4
    ensures ScanFrom(oracle, k, addr, length, i).ended.Raise? ==>
      ScanFrom(oracle, k, addr, length, i).ended.exc == IndexError
    decreases length - i
  {
    if i < length {
      ScanRaises(oracle, k + 1, addr, length, i + 4);
    }
  }
}
