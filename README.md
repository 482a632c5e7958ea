# plxtools in Dafny

This project models three small Python tools for PLX PCIe switches that are
driven over I2C through a Total Phase Aardvark adapter:

- **eeprom_gen.py** packs register writes into the switch's EEPROM
  configuration stream and serialises it. The image is:
  - the signature byte `0x5A`;
  - a CRC-enable byte of `0x00`;
  - the 16-bit little-endian byte count;
  - one 6-byte record per write (the 16-bit stream address, then the 32-bit value, both little endian);
  - a 32-bit CRC field written as zero.

  Module-level switches choose which writes the script appends.
- **plx8619dbg.py** is the PEX8619 debug tool. It reads a register with a
  4-byte read frame, checks the adapter's byte count, assembles the value
  most significant byte first, and decodes it. The decoders cover:
  - the port configuration and its lane map;
  - the per-port and per-lane bit vectors;
  - link widths and speeds;
  - the Debug Control register (0x1DC);
  - the Link Control/Link Status register (0x78) and the Link Control 2/Link Status 2 register (0x98). These follow sections 7.8.7, 7.8.8, 7.8.19 and 7.8.20 of the PCI Express Base Specification, revision 3.0.
- **plxread.py** writes an EEPROM range in frames that never cross an 8-byte
  page. It also scans a range of switch registers four bytes at a time and
  stops at the first failed or empty read.

## How it is modelled

- **Modules.** There is one module per source file: `EepromGen`, `Plx8619Dbg` with `Plx8619Registers`, and `PlxRead`.
- **Shared modules.**
  - `Bits` holds Python integer bit arithmetic. `x >> s` is floor division by 2^s and `& (2^w - 1)` is the non-negative remainder, so decoders are exact for any int, including the negative error codes that reach them.
  - `Python` holds the `Result` of a call: a returned value or a raised `StructError`, `IndexError` or `NameError`.
  - `PlxCommand` holds the read frame that both tools build.
  - `Aardvark` holds the adapter.
- **The adapter** is a class holding a trace of the write and read requests it received. The answer to its k-th read comes from a fixed oracle. Code that talks to the adapter is imperative and is proved against that trace and oracle.
- **Mutable structures** become a class or loops, as in the source:
  - `PLX_RegStream` is a class over a sequence of records;
  - `serialize`, `_writeMemory`, the scan and the list-building decoders are methods with loops;
  - the frame, the validation, the assembly and the field decoders are functions.
- **Speeds** of 2.5 and 5.0 GT/s, and the -1 in one table, are written in tenths: 25, 50 and -10.

## Notes on the code

The model follows what the code does, also where that differs from what it
appears to mean:

- **`plx_validate_read`** has a `return -3` for a positive byte count other than 4. The message printed just before it formats `length`, which is defined nowhere in plx8619dbg.py, so the call raises `NameError` and never returns -3.
- **`plx_read_qword`** makes the first byte received the most significant. `[1, 2, 3, 4]` reads as `0x01020304`, not `0x04030201`.
- **`plxread`** reports a short read, then indexes `data_in[0..3]`. A response with fewer than four bytes therefore raises `IndexError`.
- **The `qword` expression** at plxread.py:135-138 parses as a chain of shifts and its value is never used. Only its indexing is modelled.
- **The block at eeprom_gen.py:154** is guarded by `if False and ...`, so it never appends and is not modelled.
- **The second `portcfg == 7` branch** of `plx_8619_get_portmap` can never be taken (see Findings).

## Model

| member | source | states |
|---|---|---|
| Aardvark.Adapter.I2cWrite | plx8619dbg.py:77 | a write appends one Write event with the device, flags and bytes to the trace, and reads nothing |
| Aardvark.Adapter.I2cRead | plx8619dbg.py:79 | a read appends one Read event and returns the oracle's answer to the next read |
| PlxCommand.ReadFrame | plxread.py:101-106 | the frame is four bytes and starts with the read opcode 0x04 |
| PlxCommand.ReadFrameAddresses | plx8619dbg.py:67-72 | the frame carries the port modulo 32 and the dword-aligned offset modulo 0x1000, nothing else |
| PlxCommand.ReadFrameDetermines | plx8619dbg.py:67-72 | two frames are equal if and only if the ports agree modulo 32 and the offsets agree in bits 2-11 |
| PlxCommand.ReadFrameInjective | plx8619dbg.py:67-72 | for ports below 32 and dword-aligned offsets below 0x1000, equal frames mean the same port and offset, and conversely |
| Plx8619Dbg.ValidateRead | plx8619dbg.py:47-60 | -1 if and only if count < 0, -2 if and only if count == 0, 0 if and only if count == 4, and a NameError for every other count |
| Plx8619Dbg.Qword | plx8619dbg.py:84-94 | the result is negative exactly when count <= 0 (-1 exactly for any negative count, -2 for a count of 0); it raises NameError for a positive count other than 4 and IndexError when a count of 4 comes with fewer than four bytes; a success lies in [0, 2^32) |
| Plx8619Dbg.QwordBigEndian | plx8619dbg.py:92 | a successful read came with count 4, and its first four bytes are the value's big-endian bytes |
| Plx8619Dbg.QwordOfBigEndian | plx8619dbg.py:92 | every 32-bit value is returned by the read that delivers its big-endian bytes, whatever follows them |
| Plx8619Dbg.MostSignificantFirst | plx8619dbg.py:92 | bytes [1, 2, 3, 4] assemble to 0x01020304 |
| Plx8619Dbg.Read4 | plx8619dbg.py:63-82 | the trace grows by the read frame, written without a stop, and then a 4-byte read; the response is the oracle's next answer |
| Plx8619Dbg.ReadQword | plx8619dbg.py:84-94 | the same bus events as Read4, and the result is Qword of the response |
| Plx8619Dbg.PortConfig | plx8619dbg.py:96-100 | the code is in 0..15 and congruent to the value modulo 16 |
| Plx8619Dbg.PortMap | plx8619dbg.py:102-149 | the map has 16 entries exactly for codes 0-8, and is the empty list for any other code |
| Plx8619Dbg.PortMapIntended | plx8619dbg.py:138-142 | the corrected definition: code 7 gives the second code-7 branch's map, with ports 0-3 at 8, 4, 0, 4, unlike code 6; every other code decodes as PortMap does |
| Plx8619Dbg.PortMapShape | plx8619dbg.py:102-149 | codes 0-8 give 16 port widths of 0, 1, 4 or 8 that sum to 16 lanes; any other code gives the empty list |
| Plx8619Dbg.PortMapCode4 | plx8619dbg.py:120-121 | code 4 is four x4 ports followed by twelve unused ones |
| Plx8619Dbg.PortMapSixIsSeven | plx8619dbg.py:126-142 | as written, code 7 yields code 6's map, is recognised as code 6, and never yields the second branch's map |
| Plx8619Dbg.PortMapIntendedIdentified | plx8619dbg.py:102-149 | with the second code-7 map, each code 0-8 gives a lane map from which the code is recovered |
| Plx8619Dbg.PortMapIntendedDistinct | plx8619dbg.py:102-149 | with the second code-7 map, two codes 0-8 give the same map if and only if they are equal |
| Plx8619Dbg.FailedReadPortMap | plx8619dbg.py:96-100 | the error codes -1 and -2 decode as configurations 15 and 14, and both give the empty map |
| Plx8619Dbg.BitVectorValue | plx8619dbg.py:201-208 | every entry of a decoded bit vector is 0 or 1, and read as binary digits the vector is the field it was cut from |
| Plx8619Dbg.ErrorCodeAllOnes | plx8619dbg.py:180-185 | a failed read's -1 decodes as every bit set |
| Plx8619Dbg.PortsEnabled | plx8619dbg.py:178-185 | entry i is bit i of the value, for the 16 ports |
| Plx8619Dbg.LanesUp | plx8619dbg.py:201-208 | entry i is bit i of the value, for the 16 lanes |
| Plx8619Dbg.ReceiverDetected | plx8619dbg.py:187-199 | lanes 0-7 are bits 24-31 of the low word, and lanes 8-15 are bits 24-31 of the high word |
| Plx8619Dbg.RecvErrCounts | plx8619dbg.py:151-176 | lanes 0-7 interleave the bytes of the 0246 and 1357 words, and lanes 8-15 those of the 8ace and 9bdf words, each byte in 0..255 |
| Plx8619Dbg.InterleaveAt | plx8619dbg.py:158-174 | lane 2k of a group of eight is byte k of the even-lane word, and lane 2k+1 is byte k of the odd-lane word |
| Plx8619Dbg.RecvErrCountsRecover | plx8619dbg.py:158-174 | a word's four counts, as base-256 digits, give back its low 32 bits |
| Plx8619Dbg.LinkAndSpeed | plx8619dbg.py:210-232 | port i's width is 2^code of the 3-bit group at 6·(i mod 8), and its speed is 2.5 or 5.0 GT/s by bit 3 of that group; it raises IndexError if and only if some width code is 4 or more |
| Plx8619Dbg.UpperGroupsEmpty | plx8619dbg.py:220-231 | for a 32-bit word, ports 6 and 7 of the word have width code 0 and speed code 0 |
| Plx8619Dbg.ForAllEnabledPorts | plx8619dbg.py:319-326 | the results of the query for the enabled ports in port order, or an IndexError when the enabled list has fewer than 16 entries |
| Plx8619Dbg.EnabledResultsCount | plx8619dbg.py:319-326 | there is one result per enabled port |
| Plx8619Dbg.EnabledResultsAt | plx8619dbg.py:319-326 | the k-th result is the query's answer for the k-th enabled port |
| Plx8619Registers.DecodeDebugControl | plx8619dbg.py:234-257 | every decoded field fits its bits: 1-bit flags, 4-bit port numbers, a 2-bit fencing mode |
| Plx8619Registers.DebugControlRoundTrip | plx8619dbg.py:239-255 | every Debug Control record whose fields fit is decoded back from the value that holds it |
| Plx8619Registers.DecodeLinkStatus | plx8619dbg.py:259-280 | raises IndexError if and only if the 4-bit speed code is 3 or more; otherwise every field fits and the speed is from the table |
| Plx8619Registers.LinkStatusRoundTrip | plx8619dbg.py:266-279 | every Link Status record whose fields fit is decoded back from the value that holds it |
| Plx8619Registers.DecodeLinkControl2With | plx8619dbg.py:282-297 | raises IndexError if and only if the target speed code is 3 or more; otherwise every field fits, and the margin fits its given width |
| Plx8619Registers.DecodeLinkControl2 | plx8619dbg.py:282-297 | as written: raises IndexError if and only if the speed code is 3 or more, and the Transmit Margin is two bits |
| Plx8619Registers.DecodeLinkControl2Intended | plx8619dbg.py:292 | the decoding with the 3-bit Transmit Margin: the same IndexError condition, and the margin fits three bits |
| Plx8619Registers.LinkControl2Fields | plx8619dbg.py:289-296 | every field of a setting, the margin at its full three bits, reads back from the value that holds it |
| Plx8619Registers.LinkControl2IntendedRoundTrip | plx8619dbg.py:289-296 | with the 3-bit margin, every Link Control 2 setting is decoded back to itself |
| Plx8619Registers.LinkControl2RoundTrip | plx8619dbg.py:289-296 | as written, a setting is decoded back with its margin reduced modulo 4 |
| Plx8619Registers.TransmitMarginDropsBit9 | plx8619dbg.py:292 | 0x200 decodes with margin 0 as written, and with margin 4 as intended |
| EepromGen.PlxPortTable | eeprom_gen.py:33-51 | every table entry is a 6-bit port number; ports 0-3 map to themselves and ports 4-7 to 8-11 |
| EepromGen.RegAddr | eeprom_gen.py:53-56 | the address above bit 10 is the port, and bits 0-9 are the dword index (addr >> 2) & 0x3ff; it fits 16 bits if and only if 0 <= port < 64 |
| EepromGen.RegAddrDwordIndex | eeprom_gen.py:53-56 | the two low bits of the offset, and offsets 0x1000 apart, give the same stream address |
| EepromGen.RegEntry | eeprom_gen.py:59-61 | packs if and only if 0 <= port < 64 and 0 <= value < 2^32, and raises a struct error otherwise |
| EepromGen.RegAddrExample | eeprom_gen.py:53-56 | port 4, offset 0x220 gives stream address 0x1088 |
| EepromGen.RegEntryExample | eeprom_gen.py:59-61 | port 1, offset 0x7C, value 0x01234567 packs to 1f 04 67 45 23 01 |
| EepromGen.RegEntryRoundTrip | eeprom_gen.py:59-61 | a packed entry's two little-endian fields give back the port, the dword index and the value |
| EepromGen.RegStream.constructor | eeprom_gen.py:66-68 | a new stream is empty |
| EepromGen.RegStream.Append | eeprom_gen.py:87-92 | appending adds the entry at the end and changes nothing else |
| EepromGen.RegStream.Serialize | eeprom_gen.py:70-79 | returns the image of the entries in order if and only if there are at most 10922 of them, and raises a struct error otherwise; the stream is not changed |
| EepromGen.ImageLayout | eeprom_gen.py:70-79 | the image is 8 + 6n bytes: 0x5A, 0x00, the count 6n, entry k unchanged at bytes 4+6k..9+6k, then four zero bytes |
| EepromGen.ImageRoundTrip | eeprom_gen.py:70-79 | parsing an image gives back its entries |
| EepromGen.ParseImageExact | eeprom_gen.py:5-26 | every byte string that parses as a stream image is the image of what it parses to |
| EepromGen.Add | eeprom_gen.py:99-106 | rs.append(PLX_RegEntry(...)) adds exactly the packed entry at the end |
| EepromGen.BuildStream | eeprom_gen.py:82-182 | the stream holds the writes of the switches that are on, in script order |
| EepromGen.SelectionFits | eeprom_gen.py:82-182 | no choice of switches appends more than ten entries, so the byte count never overflows |
| EepromGen.Generate | eeprom_gen.py:184-200 | both serialisations of the script's stream succeed and give the same image |
| EepromGen.ShippedSelection | eeprom_gen.py:84-182 | the shipped switches give three entries in order: (8, 0x220, 0x40007100), (0, 0x360, 0x001A1A01), (0, 0x300, 0x1A) |
| EepromGen.ShippedEntries | eeprom_gen.py:86-182 | the bytes of those three entries |
| EepromGen.LaneReversalEntry | eeprom_gen.py:86-92 | the lane-reversal entry is 88 20 00 71 00 40 |
| EepromGen.UpstreamPort1Entry | eeprom_gen.py:123-131 | the upstream-port entry is d8 00 01 1a 1a 00 |
| EepromGen.PortCfgX8x8Entry | eeprom_gen.py:177-182 | the x8x8 port configuration entry is c0 00 1a 00 00 00 |
| EepromGen.ShippedImage | eeprom_gen.py:82-185 | the shipped image, byte for byte (26 bytes, count 0x12) |
| PlxRead.ChunkSize | plxread.py:71-79 | a frame carries between 1 and the remaining bytes, never past the page end, and stops only at the write's end or the page end |
| PlxRead.FillFrame | plxread.py:65-82 | one pass of the outer loop builds the address byte and the chunk's data bytes, and advances address and position by the chunk size |
| PlxRead.WriteMemory | plxread.py:57-86 | the trace grows by one write event per chunk, each frame an address byte and that chunk's data, and nothing is read |
| PlxRead.ChunksInPages | plxread.py:75-79 | every frame carries 1 to 8 data bytes within one 8-byte page, and every frame after the first starts on a page boundary |
| PlxRead.ChunksContiguous | plxread.py:63-79 | no frames if and only if length <= 0; the first frame carries min(length, 8 - addr mod 8) bytes; frames follow each other without gap or overlap; the last frame ends the write |
| PlxRead.ChunksPayload | plxread.py:63-76 | the data across all frames is exactly the write's length, byte n being n & 0xff, or 0 when zero-filling |
| PlxRead.WriteExample | plxread.py:57-86 | a 5-byte write at address 6 goes out as [6, 0, 1] and then [8, 2, 3, 4] |
| PlxRead.ReadQword | plxread.py:98-117 | the trace grows by the read frame, written without a stop, and a 4-byte read; the response is returned unchanged |
| PlxRead.ReadRegister | plxread.py:122-140 | one pass reads register addr + 4n and reports on it, and continues exactly when the count is positive and four bytes came back |
| PlxRead.PlxRead | plxread.py:119-140 | the reads, reports and ending follow the scan definition over the oracle's answers, and the trace holds exactly the frames of the registers read, in order |
| PlxRead.ScanRegisters | plxread.py:121 | a non-empty range reads at least one register and never more than range(0, length, 4) holds, all inside the range |
| PlxRead.ScanStops | plxread.py:121-133 | every read but the last had a positive count and four bytes; a scan that stops short does so at a count <= 0 or at missing bytes |
| PlxRead.ScanRaises | plxread.py:135-138 | the scan raises IndexError exactly when its last read had a positive count but fewer than four bytes |

## Left out

- **Adapter and process setup.** Opening, configuring and closing the adapter is left out, as are the pull-ups, target power, bit rate and bus timeout, and the main program blocks of plx8619dbg.py and plxread.py. These are foreign-library calls and command-line handling. The adapter is a write trace and a read oracle.
- **Delays.** `aa_sleep_ms(10)` after each EEPROM frame is a timing effect.
- **Output.** All printing is left out: `print`, `sys.stdout.write`, `dict_pprint`, the hex dump of the image, and the status strings of adapter errors. Report lines are kept as a `Report` datatype.
- **The output file.** eeprom_gen.py's file name is built from the switches and the image is written to that file. `Generate` states what is serialised for the console and the file, not the name or the write.
- **`plx_get_vc0_negotiation_pending`, the bad TLP/DLLP counts and `plx_for_all_ports`.** These are single reads, or a loop that only reads. Their decoding is one field or none.
- **Bus hangs.** A read of a disabled port hangs the bus; this is a hardware effect.
- **The CRC.** The CRC is never computed and is always written as zero.
- **Floats.** The float speed values are kept as integer tenths of a GT/s.
- **Dict metadata.** The "**note**" and "Port" keys of the decoders' dictionaries are replaced by one record type per register.
- **PlxRead.PlxRead:** does not state the adapter's read counter afterwards. The trace it states holds one read event per register read.
- **PlxCommand.ReadFrame:** its own contract states only the length and the opcode. What the frame encodes is stated by ReadFrameAddresses, ReadFrameDetermines and ReadFrameInjective.
- **Plx8619Dbg.ForAllEnabledPorts:** takes the per-port query as a total function of the port number. The queries' own reads are not traced, and a query cannot raise, so an exception that would end the source's loop early is not modelled.

## Findings

| source | as written | input that shows it | evidently intended | confidence | as-written member | corrected member |
|---|---|---|---|---|---|---|
| plx8619dbg.py:129-142 | the first `portcfg == 7` branch repeats code 6's map, and the second code-7 branch (ports 0, 1 and 3 at x8, x4 and x4) is unreachable | portcfg 7 gives [8, 4, 0, 1, 0, 0, 0, 0, 0, 0, 0, 1, 0, 1, 0, 1], the same as portcfg 6 | code 7 gives [8, 4, 0, 4, 0, ...], so that every code has its own map | medium, not executed | Plx8619Dbg.PortMapSixIsSeven | Plx8619Dbg.PortMapIntendedDistinct |
| plx8619dbg.py:292 | Transmit Margin is `(val >> 7) & 0x3`, two bits | val 0x200 (margin 4 in bits 7-9) reports margin 0 | `(val >> 7) & 0x7`, the 3-bit field of section 7.8.19 of the PCI Express Base Specification, revision 3.0 | high, not executed | Plx8619Registers.TransmitMarginDropsBit9 | Plx8619Registers.LinkControl2IntendedRoundTrip |
