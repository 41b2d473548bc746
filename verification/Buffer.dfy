/** The input buffer: a byte vector with a read cursor that is compacted lazily on append. */
module Buffers {
  import opened Common

  class Buffer {
    var bytes: Bytes
    var read: nat

    ghost predicate Valid()
      reads this
    {
      read <= |bytes|
    }

    /** The queue of unread bytes the buffer stands for. */
    ghost function Contents(): Bytes
      requires Valid()
      reads this
    {
      bytes[read..]
    }

    constructor ()
      ensures Valid() && Contents() == []
    {
      bytes, read := [], 0;
    }

    function Size(): (n: nat)
      requires Valid()
      reads this
      ensures n == |Contents()|
    {
      |bytes| - read
    }

    /** After an append the dead prefix is at most half of what is stored. */
    method Append(data: Bytes)
      requires Valid()
      modifies this
      ensures Valid() && Contents() == old(Contents()) + data
      ensures 2 * read <= |bytes|
    {
      if read != 0 && read >= |bytes| / 2 {
        bytes := bytes[read..];
        read := 0;
      }
      bytes := bytes + data;
    }

    method Consume(n: nat)
      requires Valid() && n <= |Contents()|
      modifies this
      ensures Valid() && Contents() == old(Contents())[n..]
      ensures Contents() == [] ==> bytes == []
    {
      read := read + n;
      if read == |bytes| {
        bytes := [];
        read := 0;
      }
    }

    method Copy(n: nat) returns (r: Bytes)
      requires Valid() && n <= |Contents()|
      ensures r == Contents()[..n]
    {
      r := bytes[read..read + n];
    }
  }
}
