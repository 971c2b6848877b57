/** The part of .NET's `System.IO.BinaryReader` that the database reader uses, over an
    in-memory stream: a byte sequence and a cursor. */
module Streams {
  import opened Common

  /** What a read at a cursor yields: its result and where the cursor is afterwards. */
  datatype Step<+T> = Step(result: Result<T>, next: nat)

  /** `ReadByte`: the byte under the cursor; at end of stream an `EndOfStreamException`. */
  function ByteAt(data: seq<byte>, pos: nat): Step<byte>
    requires pos <= |data|
  {
    if pos < |data| then Step(Ok(data[pos]), pos + 1) else Step(Err(EndOfStream), |data|)
  }

  /** `ReadBytes(count)`: at most `count` bytes; fewer at end of stream, which is no error. */
  function BytesAt(data: seq<byte>, pos: nat, count: nat): (seq<byte>, nat)
    requires pos <= |data|
  {
    var n := Min(count, |data| - pos);
    (data[pos..pos + n], pos + n)
  }

  /** The little-endian two's-complement value of two bytes, as `ReadInt16` decodes them. */
  function Int16LE(lo: byte, hi: byte): (v: int)
    ensures -0x8000 <= v < 0x8000
    ensures (if v < 0 then v + 0x1_0000 else v) == lo as int + 0x100 * hi as int
  {
    var u := lo as int + 0x100 * hi as int;
    if u < 0x8000 then u else u - 0x1_0000
  }

  /** `ReadInt16`: two bytes, little-endian; fewer than two left is end of stream. */
  function Int16At(data: seq<byte>, pos: nat): Step<int>
    requires pos <= |data|
  {
    if pos + 2 <= |data| then Step(Ok(Int16LE(data[pos], data[pos + 1])), pos + 2)
    else Step(Err(EndOfStream), |data|)
  }

  /** A binary reader over a stream whose content is `data`; `pos` is the stream position. */
  class BinaryReader {
    const data: seq<byte>
    var pos: nat

    ghost predicate Valid()
      reads this
    {
      pos <= |data|
    }

    constructor (data: seq<byte>)
      ensures this.data == data && pos == 0 && Valid()
    {
      this.data := data;
      pos := 0;
    }

    method ReadByte() returns (r: Result<byte>)
      requires Valid()
      modifies this`pos
      ensures Valid() && Step(r, pos) == ByteAt(data, old(pos))
    {
      if pos < |data| {
        r := Ok(data[pos]);
        pos := pos + 1;
      } else {
        r := Err(EndOfStream);
      }
    }

    method ReadBytes(count: nat) returns (r: seq<byte>)
      requires Valid()
      modifies this`pos
      ensures Valid() && (r, pos) == BytesAt(data, old(pos), count)
    {
      var n := Min(count, |data| - pos);
      r := data[pos..pos + n];
      pos := pos + n;
    }

    method ReadInt16() returns (r: Result<int>)
      requires Valid()
      modifies this`pos
      ensures Valid() && Step(r, pos) == Int16At(data, old(pos))
    {
      if pos + 2 <= |data| {
        r := Ok(Int16LE(data[pos], data[pos + 1]));
        pos := pos + 2;
      } else {
        r := Err(EndOfStream);
        pos := |data|;
      }
    }
  }
}
