/** Go's `bytes.Buffer`, as far as the code here uses it. */
module Buffers {
  import opened ByteStrings

  class Buffer {
    var data: Bytes    // written and not yet read

    constructor ()
      ensures data == []
    {
      data := [];
    }

    method Reset()
      modifies this
      ensures data == []
    {
      data := [];
    }

    method Write(s: Bytes)
      modifies this
      ensures data == old(data) + s
    {
      data := data + s;
    }

    /** `io.ReadFull`: `n` bytes, or what there is. */
    method Read(n: nat) returns (s: Bytes)
      modifies this
      ensures s + data == old(data)
      ensures |s| == if n <= |old(data)| then n else |old(data)|
    {
      var end := if n <= |data| then n else |data|;
      s := data[..end];
      data := data[end..];
    }
  }
}
