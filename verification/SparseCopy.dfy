/** `copy_sparse` (crates/common/src/storage.rs): zero blocks become holes, the content stays the same. */
module SparseCopy {
  import opened Common
  import opened Streams

  const BLOCK: nat := 1024 * 1024

  function At(written: map<nat, byte>, i: nat): byte {
    if i in written then written[i] else 0
  }

  function Overwrite(written: map<nat, byte>, start: nat, data: seq<byte>): map<nat, byte> {
    map i | i in written.Keys + Range(start, |data|) :: if start <= i < start + |data| then data[i - start] else written[i]
  }

  function Cut(written: map<nat, byte>, n: nat): map<nat, byte> {
    map i | i in written && i < n :: written[i]
  }

  function PutOf(written: map<nat, byte>, start: nat, data: seq<byte>): map<nat, byte> {
    if AllZero(data) then written else Overwrite(written, start, data)
  }

  function Range(start: nat, n: nat): (r: set<nat>)
    ensures forall i :: i in r <==> start <= i < start + n
  {
    if n == 0 then {} else Range(start, n - 1) + {start + n - 1}
  }

  /** A file with holes: a byte nobody wrote reads as zero. */
  class SparseFile {
    var written: map<nat, byte>
    var size: nat
    var cursor: nat

    /** A file just created. */
    constructor ()
      ensures written == map[] && size == 0 && cursor == 0
    {
      written, size, cursor := map[], 0, 0;
    }

    function Content(): (s: seq<byte>)
      reads this
      ensures |s| == size && forall i | 0 <= i < size :: s[i] == At(written, i)
    {
      var w := written;
      seq(size, i requires 0 <= i => At(w, i))
    }

    /** One block: a hole if it is zero. */
    method PutBlock(buffer: array<byte>, n: nat) returns (ok: bool)
      requires n <= buffer.Length
      modifies this
      ensures ok ==>
                && cursor == old(cursor) + n
                && (old(size) <= old(cursor) ==> size <= cursor)
                && written == PutOf(old(written), old(cursor), buffer[..n])
    {
      var zero := IsZero(buffer, n);
      if zero {
        ok := Seek(n);
      } else {
        ok := WriteAll(buffer[..n]);
      }
    }

    method Seek(n: nat) returns (ok: bool)
      modifies this`cursor
      ensures ok ==> cursor == old(cursor) + n
    {
      ok := *;
      if ok {
        cursor := cursor + n;
      }
    }

    method WriteAll(data: seq<byte>) returns (ok: bool)
      modifies this
      ensures ok ==>
                && cursor == old(cursor) + |data|
                && size == (if old(size) < cursor then cursor else old(size))
                && written == Overwrite(old(written), old(cursor), data)
    {
      ok := *;
      if ok {
        written := Overwrite(written, cursor, data);
        cursor := cursor + |data|;
        if size < cursor {
          size := cursor;
        }
      }
    }

    /** Cuts the file, or extends it with a hole. */
    method SetLen(n: nat) returns (ok: bool)
      modifies this
      ensures cursor == old(cursor)
      ensures ok ==> size == n && written == Cut(old(written), n)
    {
      ok := *;
      if ok {
        size := n;
        written := Cut(written, n);
      }
    }
  }

  predicate AllZero(s: seq<byte>) {
    forall i | 0 <= i < |s| :: s[i] == 0
  }

  /** The block of the stream that byte `i` is in. */
  function BlockAt(stream: seq<byte>, i: nat): seq<byte>
    requires i < |stream|
  {
    var start := i / BLOCK * BLOCK;
    stream[start..Min(start + BLOCK, |stream|)]
  }

  /** The first `position` bytes are in place, and no zero block among them takes room. */
  predicate CopiedTo(written: map<nat, byte>, stream: seq<byte>, position: nat) {
    && position <= |stream|
    && (forall i | 0 <= i < position :: At(written, i) == stream[i])
    && (forall i | i in written :: i < position && !AllZero(BlockAt(stream, i)))
  }

  /** A next block: a hole if it is zero, written out otherwise. */
  lemma NextBlock(written: map<nat, byte>, stream: seq<byte>, position: nat, filled: nat)
    requires CopiedTo(written, stream, position) && position % BLOCK == 0 && filled == Min(BLOCK, |stream| - position)
    ensures var data := stream[position..position + filled];
            CopiedTo(PutOf(written, position, data), stream, position + filled)
  {
    var data := stream[position..position + filled];
    var after := PutOf(written, position, data);
    forall i | i in after ensures i < position + filled && !AllZero(BlockAt(stream, i)) {
      if i >= position {
        SameBlock(stream, position, filled, i);
      }
    }
    forall i | 0 <= i < position + filled ensures At(after, i) == stream[i] {
      if i >= position {
        assert stream[i] == data[i - position];
      }
    }
  }

  lemma SameBlock(stream: seq<byte>, position: nat, filled: nat, i: nat)
    requires position % BLOCK == 0 && position <= |stream| && filled == Min(BLOCK, |stream| - position)
    requires position <= i < position + filled
    ensures BlockAt(stream, i) == stream[position..position + filled]
  {
    assert i / BLOCK * BLOCK == position;
  }

  method CopySparse(reader: Reader, file: SparseFile) returns (copied: Option<nat>)
    requires file.written == map[] && file.size == 0 && file.cursor == 0
    modifies reader, file
    ensures copied.Some? ==>
              && copied.value == |old(reader.rest)| && reader.rest == []
              && file.Content() == old(reader.rest) && file.cursor == copied.value
              && forall i | i in file.written :: i < copied.value && !AllZero(BlockAt(old(reader.rest), i))
  {
    var buffer := new byte[BLOCK];
    var position := 0;
    ghost var stream := reader.rest;
    while true
      invariant CopiedTo(file.written, stream, position) && position % BLOCK == 0
      invariant file.cursor == position && file.size <= position
      invariant reader.rest == stream[position..]
      decreases |reader.rest|
    {
      var read := Fill(reader, buffer);
      if read.None? {
        return None;
      }
      var filled := read.value;
      if filled == 0 {
        break;
      }
      assert buffer[..filled] == stream[position..position + filled];
      NextBlock(file.written, stream, position, filled);
      var ok := file.PutBlock(buffer, filled);
      if !ok {
        return None;
      }
      position := position + filled;
      if filled < buffer.Length {
        break;
      }
    }
    assert position == |stream|;
    WholeCopy(file.written, stream);
    var sized := file.SetLen(position);
    if !sized {
      return None;
    }
    assert file.Content() == stream;
    return Some(position);
  }

  lemma WholeCopy(written: map<nat, byte>, stream: seq<byte>)
    requires CopiedTo(written, stream, |stream|)
    ensures Cut(written, |stream|) == written
  {
  }

  method IsZero(buffer: array<byte>, n: nat) returns (zero: bool)
    requires n <= buffer.Length
    ensures zero <==> AllZero(buffer[..n])
  {
    var i := 0;
    while i < n
      invariant 0 <= i <= n && AllZero(buffer[..i])
    {
      if buffer[i] != 0 {
        return false;
      }
      i := i + 1;
    }
    return true;
  }
}
