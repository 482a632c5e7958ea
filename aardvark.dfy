/** The Aardvark I2C adapter, as the tools see it: every write and read
    request is recorded in a trace, and the answer to the k-th read comes
    from a fixed oracle. Opening, configuring and closing the adapter are
    not part of this model. */
module Aardvark {
  import opened Bits

  /** AA_I2C_NO_FLAGS and AA_I2C_NO_STOP: the latter leaves the bus
      transaction open so that the next read continues it. */
  datatype Flags = NoFlags | NoStop

  /** What aa_i2c_read hands back: the status or byte count, and the bytes. */
  datatype Response = Response(count: int, data: seq<byte>)

  datatype Event =
    | Write(device: int, flags: Flags, bytes: seq<byte>)
    | Read(device: int, flags: Flags, length: nat)

  class Adapter {
    var trace: seq<Event>
    var readCount: nat
    const oracle: nat -> Response

    constructor (oracle: nat -> Response)
      ensures trace == [] && readCount == 0 && this.oracle == oracle
    {
      this.oracle := oracle;
      trace := [];
      readCount := 0;
    }

    /** aa_i2c_write */
    method I2cWrite(device: int, flags: Flags, bytes: seq<byte>)
      modifies this
      ensures trace == old(trace) + [Write(device, flags, bytes)]
      ensures readCount == old(readCount)
    {
      trace := trace + [Write(device, flags, bytes)];
    }

    /** aa_i2c_read */
    method I2cRead(device: int, flags: Flags, length: nat) returns (resp: Response)
      modifies this
      ensures trace == old(trace) + [Read(device, flags, length)]
      ensures readCount == old(readCount) + 1 && resp == oracle(old(readCount))
    {
      resp := oracle(readCount);
      trace := trace + [Read(device, flags, length)];
      readCount := readCount + 1;
    }
  }
}
