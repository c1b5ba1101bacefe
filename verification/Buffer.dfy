/** The byte buffer of a connection: bytes go in at the end and out at the front. */
module Buffer {

  function Zeros(n: nat): string { seq(n, i => '\0') }

  class Buffer {
    var data: string

    constructor ()
      ensures data == ""
    {
      data := "";
    }

    /** Room for `size` bytes at the end, zero until written; `at` is where it starts. */
    method GetWriter(size: nat) returns (at: nat)
      requires size > 0
      modifies this
      ensures at == |old(data)| && data == old(data) + Zeros(size)
    {
      at := |data|;
      data := data + Zeros(size);
    }

    /** What the kernel does with the room: `bytes` from `at` on, the rest untouched. */
    method Fill(at: nat, bytes: string)
      requires at + |bytes| <= |data|
      modifies this
      ensures data == old(data)[..at] + bytes + old(data)[at + |bytes|..]
    {
      data := data[..at] + bytes + data[at + |bytes|..];
    }

    method Shrink(size: nat)
      requires size <= |data|
      modifies this
      ensures data == old(data)[..|old(data)| - size]
    {
      data := data[..|data| - size];
    }

    method Put(bytes: string)
      modifies this
      ensures data == old(data) + bytes
    {
      data := data + bytes;
    }

    method GetFirst(size: nat) returns (bytes: string)
      requires size <= |data|
      modifies this
      ensures |bytes| == size && bytes + data == old(data)
    {
      bytes := data[..size];
      data := data[size..];
    }

    method MoveReadCursor(size: nat)
      requires size <= |data|
      modifies this
      ensures old(data) == old(data)[..size] + data
    {
      data := data[size..];
    }

    method Get() returns (bytes: string)
      modifies this
      ensures bytes == old(data) && data == ""
    {
      bytes := data;
      Clear();
    }

    method Clear()
      modifies this
      ensures data == ""
    {
      data := "";
    }
  }

  /** Growing by `room`, filling in `bytes` and giving back what is left adds just the bytes. */
  lemma GrowFillShrink(data: string, bytes: string, room: nat)
    requires |bytes| <= room
    ensures var grown := data + Zeros(room);
            var filled := grown[..|data|] + bytes + grown[|data| + |bytes|..];
            filled[..|filled| - (room - |bytes|)] == data + bytes
  {
    var grown := data + Zeros(room);
    assert grown[..|data|] == data;
  }
}
