/** An S3 bucket, and streaming a source of unknown length into it (crates/common/src/storage.rs). */
module ObjectStore {
  import opened Common
  import opened Ordering
  import opened Streams

  type Key = seq<byte>

  const MULTIPART_PART_SIZE: nat := 8 * 1024 * 1024

  // Limits of S3 itself.
  const MAX_PARTS: nat := 10000
  const MIN_PART_SIZE: nat := 5 * 1024 * 1024

  /** What S3 demands of the parts of an upload it is asked to complete. */
  predicate Completable(sent: map<int, seq<byte>>, numbers: seq<int>) {
    && numbers != []
    && (forall i | 0 <= i < |numbers| :: numbers[i] in sent)
    && (forall i | 0 <= i < |numbers| - 1 :: numbers[i] < numbers[i + 1] && |sent[numbers[i]]| >= MIN_PART_SIZE)
  }

  function Bodies(sent: map<int, seq<byte>>, numbers: seq<int>): (bodies: seq<seq<byte>>)
    requires forall i | 0 <= i < |numbers| :: numbers[i] in sent
    ensures |bodies| == |numbers| && forall i | 0 <= i < |bodies| :: bodies[i] == sent[numbers[i]]
  {
    seq(|numbers|, i requires 0 <= i < |numbers| => sent[numbers[i]])
  }

  /** A page of a listing; `next` is given when it is truncated. */
  datatype Page = Page(keys: seq<Key>, next: Option<Key>)

  /** The keys under `prefix` that a listing resumed at `token` still has to give. */
  function Under(objects: map<Key, seq<byte>>, prefix: Key, token: Option<Key>): set<Key> {
    set k | k in objects && prefix <= k && (token.Some? ==> Less(token.value, k))
  }

  predicate Distinct(keys: seq<Key>) {
    forall i, j | 0 <= i < j < |keys| :: keys[i] != keys[j]
  }

  ghost predicate IsPage(page: Page, all: set<Key>) {
    && Distinct(page.keys)
    && (page.next.Some? ==> page.next.value in page.keys)
    && forall k :: k in page.keys <==> k in all && (page.next.Some? ==> !Less(page.next.value, k))
  }

  method Enumerate(keys: set<Key>) returns (list: seq<Key>)
    ensures Distinct(list) && forall k :: k in list <==> k in keys
  {
    list := [];
    var left := keys;
    while left != {}
      invariant left <= keys && Distinct(list) && forall k :: k in list <==> k in keys && k !in left
      decreases left
    {
      var k :| k in left;
      list := list + [k];
      left := left - {k};
    }
  }

  /** Every request may fail; one that changes `objects` may also fail after it has taken effect. */
  class Bucket {
    var objects: map<Key, seq<byte>>
    var uploads: map<nat, map<int, seq<byte>>>
    var nextUpload: nat

    predicate Valid()
      reads this
    {
      forall id | id in uploads :: id < nextUpload
    }

    method CreateUpload() returns (id: Option<nat>)
      requires Valid()
      modifies this`uploads, this`nextUpload
      ensures Valid()
      ensures id.Some? ==> id.value !in old(uploads) && uploads == old(uploads)[id.value := map[]]
    {
      var ok: bool := *;
      if !ok {
        return None;
      }
      id := Some(nextUpload);
      uploads := uploads[nextUpload := map[]];
      nextUpload := nextUpload + 1;
    }

    method UploadPart(id: nat, number: int, data: seq<byte>) returns (ok: bool)
      requires Valid() && id in uploads
      modifies this`uploads
      ensures Valid() && id in uploads
      ensures ok ==> 1 <= number <= MAX_PARTS && uploads == old(uploads)[id := old(uploads)[id][number := data]]
    {
      ok := *;
      ok := ok && 1 <= number <= MAX_PARTS;
      if ok {
        uploads := uploads[id := uploads[id][number := data]];
      }
    }

    method AbortUpload(id: nat) returns (ok: bool)
      requires Valid()
      modifies this`uploads
      ensures Valid()
      ensures ok ==> uploads == old(uploads) - {id}
    {
      ok := *;
      if ok {
        uploads := uploads - {id};
      }
    }

    method CompleteUpload(key: Key, id: nat, numbers: seq<int>) returns (ok: bool)
      requires Valid() && id in uploads
      modifies this`objects, this`uploads
      ensures Valid()
      ensures !Completable(old(uploads)[id], numbers) ==> !ok && objects == old(objects)
      ensures Completable(old(uploads)[id], numbers) ==>
                var after := old(objects)[key := Concat(Bodies(old(uploads)[id], numbers))];
                if ok then objects == after else objects == old(objects) || objects == after
    {
      ok := false;
      if Completable(uploads[id], numbers) {
        var takesEffect: bool := *;
        if takesEffect {
          ok := *;
          objects := objects[key := Concat(Bodies(uploads[id], numbers))];
          uploads := uploads - {id};
        }
      }
    }

    method DeleteObject(key: Key) returns (ok: bool)
      requires Valid()
      modifies this`objects
      ensures Valid()
      ensures if ok then objects == old(objects) - {key}
              else objects == old(objects) || objects == old(objects) - {key}
    {
      ok := false;
      var takesEffect: bool := *;
      if takesEffect {
        ok := *;
        objects := objects - {key};
      }
    }

    /** A stream of the object; the request may fail, and the stream may still fail later, while it is read. */
    method GetObject(key: Key, fails: bool) returns (reader: Option<Reader>)
      ensures reader.Some? <==> key in objects && !fails
      ensures reader.Some? ==> fresh(reader.value) && reader.value.rest == objects[key]
    {
      if fails || key !in objects {
        return None;
      }
      var r := new Reader(objects[key]);
      return Some(r);
    }

    /** A page of the keys under `prefix` after `token`: all of them, or those up to one of them. */
    method ListObjects(prefix: Key, token: Option<Key>) returns (page: Option<Page>)
      ensures page.Some? ==> IsPage(page.value, Under(objects, prefix, token))
    {
      var ok: bool := *;
      if !ok {
        return None;
      }
      var all := Under(objects, prefix, token);
      var truncated: bool := *;
      if truncated && all != {} {
        var last :| last in all;
        var keys := Enumerate(set k | k in all && !Less(last, k));
        LessIsIrreflexive(last);
        return Some(Page(keys, Some(last)));
      }
      var keys := Enumerate(all);
      return Some(Page(keys, None));
    }

    method PutObject(key: Key, data: seq<byte>) returns (ok: bool)
      requires Valid()
      modifies this`objects
      ensures Valid()
      ensures if ok then objects == old(objects)[key := data]
              else objects == old(objects) || objects == old(objects)[key := data]
    {
      ok := false;
      var takesEffect: bool := *;
      if takesEffect {
        ok := *;
        objects := objects[key := data];
      }
    }
  }

  // ----- Splitting a stream in parts -----

  /** In order, nothing missing, none empty, all but the last full. */
  predicate SplitsInto(stream: seq<byte>, bodies: seq<seq<byte>>) {
    && Concat(bodies) == stream
    && (forall i | 0 <= i < |bodies| :: 0 < |bodies[i]| <= MULTIPART_PART_SIZE)
    && (forall i | 0 <= i < |bodies| - 1 :: |bodies[i]| == MULTIPART_PART_SIZE)
  }

  predicate AllFull(bodies: seq<seq<byte>>) {
    forall i | 0 <= i < |bodies| :: |bodies[i]| == MULTIPART_PART_SIZE
  }

  /** There is only one way to split a stream so: the parts do not depend on how it was read. */
  lemma {:induction false} SplitIsUnique(stream: seq<byte>, a: seq<seq<byte>>, b: seq<seq<byte>>)
    requires SplitsInto(stream, a) && SplitsInto(stream, b)
    ensures a == b
    decreases |a|
  {
    if a == [] || b == [] {
      assert a == [] <==> stream == [];
      assert b == [] <==> stream == [];
    } else {
      FirstPart(stream, a);
      FirstPart(stream, b);
      assert a[0] == stream[..|a[0]|] && b[0] == stream[..|b[0]|];
      assert Concat(a[1..]) == stream[|a[0]|..] && Concat(b[1..]) == stream[|b[0]|..];
      SplitIsUnique(stream[|a[0]|..], a[1..], b[1..]);
    }
  }

  lemma FirstPart(stream: seq<byte>, bodies: seq<seq<byte>>)
    requires SplitsInto(stream, bodies) && bodies != []
    ensures |bodies[0]| == Min(MULTIPART_PART_SIZE, |stream|)
  {
    if |bodies| == 1 {
      assert Concat(bodies[1..]) == [];
      assert stream == bodies[0];
    }
  }

  /** Part numbers count from 1. */
  predicate Consecutive(numbers: seq<int>) {
    forall i | 0 <= i < |numbers| :: numbers[i] == i + 1
  }

  predicate Holds(sent: map<int, seq<byte>>, numbers: seq<int>, bodies: seq<seq<byte>>) {
    |numbers| == |bodies| && forall i | 0 <= i < |bodies| :: numbers[i] in sent && sent[numbers[i]] == bodies[i]
  }

  lemma AppendPart(stream: seq<byte>, bodies: seq<seq<byte>>, n: nat)
    requires AllFull(bodies) && Concat(bodies) <= stream
    requires var rest := stream[|Concat(bodies)|..]; n == Min(MULTIPART_PART_SIZE, |rest|) > 0
    ensures var at := |Concat(bodies)|;
            var more := bodies + [stream[at..at + n]];
            && Concat(more) == stream[..at + n]
            && (n == MULTIPART_PART_SIZE ==> AllFull(more))
            && (n < MULTIPART_PART_SIZE ==> SplitsInto(stream, more))
  {
    var at := |Concat(bodies)|;
    ConcatAppend(bodies, stream[at..at + n]);
    assert stream[..at + n] == stream[..at] + stream[at..at + n];
    if n < MULTIPART_PART_SIZE {
      assert stream[..at + n] == stream;
    }
  }

  method UploadMultipartParts(bucket: Bucket, id: nat, reader: Reader)
    returns (numbers: Option<seq<int>>, ghost bodies: seq<seq<byte>>)
    requires bucket.Valid() && id in bucket.uploads
    modifies bucket`uploads, reader
    ensures bucket.Valid() && id in bucket.uploads
    ensures numbers.Some? ==>
              && Consecutive(numbers.value)
              && SplitsInto(old(reader.rest), bodies)
              && Holds(bucket.uploads[id], numbers.value, bodies)
  {
    var parts: seq<int> := [];
    var partNumber := 1;
    var buffer := new byte[MULTIPART_PART_SIZE];
    ghost var stream := reader.rest;
    bodies := [];
    while true
      invariant bucket.Valid() && id in bucket.uploads
      invariant Consecutive(parts) && |parts| == partNumber - 1 && partNumber <= MAX_PARTS + 1
      invariant AllFull(bodies) && Concat(bodies) <= stream && reader.rest == stream[|Concat(bodies)|..]
      invariant Holds(bucket.uploads[id], parts, bodies)
      decreases |reader.rest|
    {
      ghost var at := |Concat(bodies)|;
      var read := Fill(reader, buffer);
      if read.None? {
        return None, bodies;
      }
      var filled := read.value;
      if filled == 0 {
        assert Concat(bodies) == stream;
        break;
      }
      AppendPart(stream, bodies, filled);
      assert buffer[..filled] == stream[at..at + filled];
      var sent := bucket.UploadPart(id, partNumber, buffer[..filled]);
      if !sent {
        return None, bodies;
      }
      parts := parts + [partNumber];
      bodies := bodies + [stream[at..at + filled]];
      partNumber := partNumber + 1;
      if filled < buffer.Length {
        break;
      }
    }
    return Some(parts), bodies;
  }

  lemma SplitIsCompletable(stream: seq<byte>, bodies: seq<seq<byte>>, sent: map<int, seq<byte>>, numbers: seq<int>)
    requires SplitsInto(stream, bodies) && bodies != []
    requires Consecutive(numbers) && Holds(sent, numbers, bodies)
    ensures Completable(sent, numbers) && Bodies(sent, numbers) == bodies
  {
  }

  /** Where an upload failed. */
  datatype Failure = Opening | Sending | Cancelling | Finishing

  method UploadStream(bucket: Bucket, key: Key, reader: Reader) returns (failure: Option<Failure>)
    requires bucket.Valid()
    modifies bucket, reader
    ensures bucket.Valid()
    ensures failure.None? ==> bucket.objects == old(bucket.objects)[key := old(reader.rest)]
    ensures failure.Some? && failure.value != Finishing ==> bucket.objects == old(bucket.objects)
    ensures failure == Some(Finishing) ==>
              bucket.objects == old(bucket.objects) || bucket.objects == old(bucket.objects)[key := old(reader.rest)]
  {
    var upload := bucket.CreateUpload();
    if upload.None? {
      return Some(Opening);
    }
    var id := upload.value;
    var parts, bodies := UploadMultipartParts(bucket, id, reader);
    if parts.None? {
      var _ := bucket.AbortUpload(id);
      return Some(Sending);
    }
    if parts.value == [] {
      var cancelled := bucket.AbortUpload(id);
      if !cancelled {
        return Some(Cancelling);
      }
      var put := bucket.PutObject(key, []);
      return if put then None else Some(Finishing);
    }
    SplitIsCompletable(Concat(bodies), bodies, bucket.uploads[id], parts.value);
    var completed := bucket.CompleteUpload(key, id, parts.value);
    return if completed then None else Some(Finishing);
  }
}
