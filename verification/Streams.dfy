/** Byte streams that give their content in pieces of any size, or fail (crates/common/src/storage.rs). */
module Streams {
  import opened Common

  /** An `AsyncRead`. `rest` is what it still has to give. */
  class Reader {
    var rest: seq<byte>

    constructor (content: seq<byte>)
      ensures rest == content
    {
      rest := content;
    }

    /** Puts a next piece in `buffer[start..]`: nothing only at the end of the stream or of the buffer. */
    method Read(buffer: array<byte>, start: nat) returns (n: Option<nat>)
      requires start <= buffer.Length
      modifies this, buffer
      ensures n.Some? ==>
                && start + n.value <= buffer.Length && n.value <= |old(rest)|
                && rest == old(rest)[n.value..]
                && buffer[start..start + n.value] == old(rest)[..n.value]
                && buffer[..start] == old(buffer[..start])
                && (n.value == 0 <==> old(rest) == [] || start == buffer.Length)
    {
      var fails: bool := *;
      if fails {
        return None;
      }
      var most := Min(|rest|, buffer.Length - start);
      var size := most;
      if most > 0 {
        size :| 1 <= size <= most;
      }
      forall i | 0 <= i < size {
        buffer[start + i] := rest[i];
      }
      rest := rest[size..];
      return Some(size);
    }
  }

  /** Reads until `buffer` is full or the stream ends: the inner loop of both copies. */
  method Fill(reader: Reader, buffer: array<byte>) returns (filled: Option<nat>)
    modifies reader, buffer
    ensures filled.Some? ==>
              && filled.value == Min(buffer.Length, |old(reader.rest)|)
              && buffer[..filled.value] == old(reader.rest)[..filled.value]
              && reader.rest == old(reader.rest)[filled.value..]
  {
    var n := 0;
    ghost var stream := reader.rest;
    while n < buffer.Length
      invariant n <= buffer.Length && n <= |stream|
      invariant buffer[..n] == stream[..n] && reader.rest == stream[n..]
    {
      var read := reader.Read(buffer, n);
      if read.None? {
        return None;
      }
      if read.value == 0 {
        break;
      }
      assert buffer[..n + read.value] == buffer[..n] + buffer[n..n + read.value];
      assert stream[..n + read.value] == stream[..n] + stream[n..][..read.value];
      n := n + read.value;
    }
    return Some(n);
  }
}
