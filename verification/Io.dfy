/** The cursor-style reader and writer the packet parsers stand on (src/io.rs). */
module Io {
  import opened Bytes

  class BinaryReader {
    const data: bytes
    var offset: nat

    ghost predicate Valid()
      reads this
    {
      offset <= |data|
    }

    /** The bytes that have not been read yet. */
    function Rest(): bytes
      requires Valid()
      reads this
    {
      data[offset..]
    }

    constructor (data: bytes)
      ensures Valid() && this.data == data && Rest() == data && offset == 0
    {
      this.data := data;
      offset := 0;
    }

    function Peek(ahead: nat): Option<byte>
      requires Valid()
      reads this
    {
      if offset + ahead < |data| then Some(data[offset + ahead]) else None
    }

    method Skip(len: nat) returns (ok: bool)
      requires Valid()
      modifies this
      ensures Valid() && ok == (len <= |old(Rest())|)
      ensures Rest() == if ok then old(Rest())[len..] else old(Rest())
      ensures offset == if ok then old(offset) + len else old(offset)
    {
      ok := len <= |data| - offset;
      if ok { offset := offset + len; }
    }

    method ReadU16() returns (value: Option<nat>)
      requires Valid()
      modifies this
      ensures Valid() && value == if |old(Rest())| >= 2 then Some(Bytes.ReadU16(old(Rest()))) else None
      ensures Rest() == if value.Some? then old(Rest())[2..] else old(Rest())
      ensures offset == if value.Some? then old(offset) + 2 else old(offset)
    {
      if |data| - offset < 2 { return None; }
      value := Some(data[offset] as int * 256 + data[offset + 1]);
      offset := offset + 2;
    }

    method ReadU32() returns (value: Option<nat>)
      requires Valid()
      modifies this
      ensures Valid() && value == if |old(Rest())| >= 4 then Some(Bytes.ReadU32(old(Rest()))) else None
      ensures Rest() == if value.Some? then old(Rest())[4..] else old(Rest())
      ensures offset == if value.Some? then old(offset) + 4 else old(offset)
    {
      if |data| - offset < 4 { return None; }
      value := Some(Bytes.ReadU32(data[offset..]));
      offset := offset + 4;
    }

    method ReadBytes(len: nat) returns (value: Option<bytes>)
      requires Valid()
      modifies this
      ensures Valid() && value == if len <= |old(Rest())| then Some(old(Rest())[..len]) else None
      ensures Rest() == if value.Some? then old(Rest())[len..] else old(Rest())
      ensures offset == if value.Some? then old(offset) + len else old(offset)
    {
      if |data| - offset < len { return None; }
      assert data[offset..offset + len] == Rest()[..len];
      value := Some(data[offset..offset + len]);
      offset := offset + len;
    }
  }

  class BinaryWriter {
    const data: array<byte>
    var offset: nat

    ghost predicate Valid()
      reads this
    {
      offset <= data.Length
    }

    /** The bytes written so far. */
    function Written(): bytes
      requires Valid()
      reads this, data
    {
      data[..offset]
    }

    constructor (data: array<byte>)
      ensures Valid() && this.data == data && Written() == []
    {
      this.data := data;
      offset := 0;
    }

    /** Every write appends its bytes, or fails and changes nothing when they do not fit. */
    method WriteBytes(value: bytes) returns (ok: bool)
      requires Valid()
      modifies this, data
      ensures Valid() && ok == (old(offset) + |value| <= data.Length)
      ensures Written() == if ok then old(Written()) + value else old(Written())
    {
      ok := |value| <= data.Length - offset;
      if ok {
        for i := 0 to |value|
          invariant Valid() && offset == old(offset)
          invariant forall k | 0 <= k < offset :: data[k] == old(data[k])
          invariant forall k | 0 <= k < i :: data[offset + k] == value[k]
        {
          data[offset + i] := value[i];
        }
        offset := offset + |value|;
      }
    }

    method WriteU8(value: byte) returns (ok: bool)
      requires Valid()
      modifies this, data
      ensures Valid() && ok == (old(offset) + 1 <= data.Length)
      ensures Written() == if ok then old(Written()) + [value] else old(Written())
    {
      ok := WriteBytes([value]);
    }

    method WriteU16(value: nat) returns (ok: bool)
      requires Valid() && value < 0x1_0000
      modifies this, data
      ensures Valid() && ok == (old(offset) + 2 <= data.Length)
      ensures Written() == if ok then old(Written()) + U16(value) else old(Written())
    {
      ok := WriteBytes(U16(value));
    }

    method WriteU32(value: nat) returns (ok: bool)
      requires Valid() && value < 0x1_0000_0000
      modifies this, data
      ensures Valid() && ok == (old(offset) + 4 <= data.Length)
      ensures Written() == if ok then old(Written()) + U32(value) else old(Written())
    {
      ok := WriteBytes(U32(value));
    }
  }
}
