/**
  * The snapshots of a Workshop on S3: their keys, their cleanup, and their way back to a local file
  * (crates/common/src/storage.rs, crates/controller/src/storage.rs).
  */
module SnapshotStore {
  import opened Common
  import opened Ordering
  import opened Streams
  import opened SparseCopy
  import opened ObjectStore

  const SLASH: byte := '/' as int
  const UNDERSCORE: byte := '_' as int
  const HYPHEN: byte := '-' as int

  // ----- Keys -----

  /** "snapshots/" */
  const ROOT: Key := [115, 110, 97, 112, 115, 104, 111, 116, 115, 47]

  /** `snapshots/{ns}_{name}` */
  function SnapshotCacheSubdir(ns: seq<byte>, name: seq<byte>): Key {
    ROOT + (ns + [UNDERSCORE] + name)
  }

  function TrimSlashes(s: Key): Key {
    if s != [] && s[|s| - 1] == SLASH then TrimSlashes(s[..|s| - 1]) else s
  }

  function ListPrefix(prefix: Key): Key {
    TrimSlashes(prefix) + [SLASH]
  }

  function SnapshotKey(prefix: Key, filename: seq<byte>): Key {
    prefix + [SLASH] + filename
  }

  /** ".zst" */
  const COMPRESSED_SUFFIX: seq<byte> := [46, 122, 115, 116]

  /** A DNS label, as the API server accepts it. */
  predicate ValidName(name: seq<byte>) {
    && 0 < |name| <= 63
    && (forall c | c in name :: 'a' as int <= c <= 'z' as int || '0' as int <= c <= '9' as int || c == HYPHEN)
    && name[0] != HYPHEN && name[|name| - 1] != HYPHEN
  }

  lemma {:induction false} SplitAtFirst(a: seq<byte>, x: seq<byte>, b: seq<byte>, y: seq<byte>, c: byte)
    requires c !in a && c !in b && a + [c] + x <= b + [c] + y
    ensures a == b && x <= y
  {
    if a == [] || b == [] {
      assert (a + [c] + x)[0] == (b + [c] + y)[0];
      assert a == [] && b == [];
      assert x == ([] + [c] + x)[1..] && y == ([] + [c] + y)[1..];
    } else {
      assert (a + [c] + x)[0] == a[0] && (b + [c] + y)[0] == b[0];
      assert (a + [c] + x)[1..] == a[1..] + [c] + x && (b + [c] + y)[1..] == b[1..] + [c] + y;
      SplitAtFirst(a[1..], x, b[1..], y, c);
      assert a == [a[0]] + a[1..] && b == [b[0]] + b[1..];
    }
  }

  predicate Plain(ns: seq<byte>, name: seq<byte>) {
    UNDERSCORE !in ns && SLASH !in name
  }

  lemma PrefixOf(ns: seq<byte>, name: seq<byte>)
    requires Plain(ns, name)
    ensures ListPrefix(SnapshotCacheSubdir(ns, name)) == ROOT + (ns + [UNDERSCORE] + (name + [SLASH]))
  {
    var s := SnapshotCacheSubdir(ns, name);
    assert s[|s| - 1] == (if name == [] then UNDERSCORE else name[|name| - 1]);
    assert TrimSlashes(s) == s;
  }

  /** No object lies under the prefixes of two different Workshops: neither is nested in the other. */
  lemma PrefixesAreApart(ns1: seq<byte>, name1: seq<byte>, ns2: seq<byte>, name2: seq<byte>, key: Key)
    requires Plain(ns1, name1) && Plain(ns2, name2)
    requires ListPrefix(SnapshotCacheSubdir(ns1, name1)) <= key
    requires ListPrefix(SnapshotCacheSubdir(ns2, name2)) <= key
    ensures ns1 == ns2 && name1 == name2
  {
    PrefixOf(ns1, name1);
    PrefixOf(ns2, name2);
    var p1, p2 := ListPrefix(SnapshotCacheSubdir(ns1, name1)), ListPrefix(SnapshotCacheSubdir(ns2, name2));
    if |p1| <= |p2| {
      assert p1 == key[..|p1|] && p2 == key[..|p2|];
      assert p1 <= p2;
      NestedIsSame(ns1, name1, ns2, name2);
    } else {
      assert p1 == key[..|p1|] && p2 == key[..|p2|];
      assert p2 <= p1;
      NestedIsSame(ns2, name2, ns1, name1);
    }
  }

  lemma NestedIsSame(ns1: seq<byte>, name1: seq<byte>, ns2: seq<byte>, name2: seq<byte>)
    requires Plain(ns1, name1) && Plain(ns2, name2)
    requires ROOT + (ns1 + [UNDERSCORE] + (name1 + [SLASH])) <= ROOT + (ns2 + [UNDERSCORE] + (name2 + [SLASH]))
    ensures ns1 == ns2 && name1 == name2
  {
    var a, b := ns1 + [UNDERSCORE] + (name1 + [SLASH]), ns2 + [UNDERSCORE] + (name2 + [SLASH]);
    assert a == (ROOT + a)[|ROOT|..] && b == (ROOT + b)[|ROOT|..];
    SplitAtFirst(ns1, name1 + [SLASH], ns2, name2 + [SLASH], UNDERSCORE);
    assert name1 + [SLASH] + [] == name1 + [SLASH] && name2 + [SLASH] + [] == name2 + [SLASH];
    SplitAtFirst(name1, [], name2, [], SLASH);
  }

  /** Names the API server accepts, in namespaces Kubernetes accepts, are plain. */
  lemma ValidIsPlain(ns: seq<byte>, name: seq<byte>)
    requires ValidName(ns) && ValidName(name)
    ensures Plain(ns, name)
  {
  }

  /** Without that rule two Workshops could share one prefix. */
  lemma UnderscoresWouldCollide()
    ensures SnapshotCacheSubdir([1, UNDERSCORE, 2], [3]) == SnapshotCacheSubdir([1], [2, UNDERSCORE, 3])
  {
  }

  /** Trailing slashes of a prefix make no difference: what is listed is under the directory itself. */
  lemma {:induction false} SlashesDoNotMatter(prefix: Key)
    ensures ListPrefix(prefix + [SLASH]) == ListPrefix(prefix)
    ensures prefix == [] || prefix[|prefix| - 1] != SLASH ==> ListPrefix(prefix) == prefix + [SLASH]
  {
    assert (prefix + [SLASH])[..|prefix|] == prefix;
  }

  /** A cleanup covers every file of the Workshop's snapshots, in both forms. */
  lemma CleanupCoversItsFiles(ns: seq<byte>, name: seq<byte>, filename: seq<byte>)
    requires Plain(ns, name)
    ensures var dir := SnapshotCacheSubdir(ns, name);
            ListPrefix(dir) <= SnapshotKey(dir, filename) && ListPrefix(dir) <= CompressedKey(dir, filename)
  {
    PrefixOf(ns, name);
    var dir := SnapshotCacheSubdir(ns, name);
    assert dir + [SLASH] == ROOT + (ns + [UNDERSCORE] + (name + [SLASH]));
  }

  // ----- Cleanup -----

  function Without(objects: map<Key, seq<byte>>, prefix: Key): map<Key, seq<byte>> {
    map k | k in objects && !(prefix <= k) :: objects[k]
  }

  function ToSet(keys: seq<Key>): set<Key> {
    set k | k in keys
  }

  lemma OneMoreKey(keys: seq<Key>, i: nat)
    requires Distinct(keys) && i < |keys|
    ensures keys[i] !in ToSet(keys[..i]) && ToSet(keys[..i + 1]) == ToSet(keys[..i]) + {keys[i]}
    ensures ToSet(keys[..i + 1]) <= ToSet(keys)
  {
    assert keys[..i + 1] == keys[..i] + [keys[i]];
  }

  lemma RemoveOneMore(before: map<Key, seq<byte>>, removed: set<Key>, key: Key)
    ensures before - removed - {key} == before - (removed + {key})
  {
  }

  /** Deletes the keys of a page, one by one. */
  method DeleteKeys(bucket: Bucket, keys: seq<Key>) returns (ok: bool, ghost removed: set<Key>)
    requires bucket.Valid() && Distinct(keys)
    modifies bucket`objects
    ensures bucket.Valid() && bucket.objects == old(bucket.objects) - removed && removed <= ToSet(keys)
    ensures ok ==> removed == ToSet(keys) && |removed| == |keys|
  {
    removed := {};
    ghost var before := bucket.objects;
    for i := 0 to |keys|
      invariant bucket.Valid() && bucket.objects == before - removed
      invariant removed == ToSet(keys[..i]) && |removed| == i && removed <= ToSet(keys)
    {
      var deleted := bucket.DeleteObject(keys[i]);
      OneMoreKey(keys, i);
      RemoveOneMore(before, removed, keys[i]);
      if !deleted {
        if bucket.objects != before - removed {
          removed := removed + {keys[i]};
        }
        return false, removed;
      }
      removed := removed + {keys[i]};
    }
    assert keys[..|keys|] == keys;
    return true, removed;
  }

  /** What deleting a page of a listing leaves to list. */
  lemma PageIsGone(before: map<Key, seq<byte>>, prefix: Key, token: Option<Key>, page: Page)
    requires IsPage(page, Under(before, prefix, token))
    ensures ToSet(page.keys) <= Under(before, prefix, token)
    ensures page.next.None? ==> ToSet(page.keys) == Under(before, prefix, token)
    ensures page.next.Some? ==>
              && ToSet(page.keys) != {}
              && forall k | k in Under(before, prefix, token) - ToSet(page.keys) :: Less(page.next.value, k)
  {
    if page.next.Some? {
      assert page.next.value in ToSet(page.keys);
    }
  }

  /** Resuming at a key that all the rest comes after loses nothing. */
  lemma ListingResumes(objects: map<Key, seq<byte>>, prefix: Key, next: Key)
    requires forall k | k in Under(objects, prefix, None) :: Less(next, k)
    ensures Under(objects, prefix, Some(next)) == Under(objects, prefix, None)
  {
  }

  method DeleteSnapshotPrefix(bucket: Bucket, prefix: Key) returns (deleted: Option<nat>, ghost removed: set<Key>)
    requires bucket.Valid()
    modifies bucket`objects
    ensures bucket.Valid() && bucket.objects == old(bucket.objects) - removed
    ensures removed <= Under(old(bucket.objects), ListPrefix(prefix), None)
    ensures deleted.Some? ==>
              && bucket.objects == Without(old(bucket.objects), ListPrefix(prefix))
              && deleted.value == |Under(old(bucket.objects), ListPrefix(prefix), None)|
  {
    var listPrefix := ListPrefix(prefix);
    var count := 0;
    var token: Option<Key> := None;
    ghost var before := bucket.objects;
    ghost var all := Under(before, listPrefix, None);
    removed := {};
    while true
      invariant bucket.Valid() && bucket.objects == before - removed && removed <= all && count == |removed|
      invariant Under(bucket.objects, listPrefix, token) == Under(bucket.objects, listPrefix, None)
      decreases |Under(bucket.objects, listPrefix, None)|
    {
      ghost var left := Under(bucket.objects, listPrefix, None);
      var page := bucket.ListObjects(listPrefix, token);
      if page.None? {
        return None, removed;
      }
      PageIsGone(bucket.objects, listPrefix, token, page.value);
      var ok, gone := DeleteKeys(bucket, page.value.keys);
      StillUnder(before, listPrefix, removed, gone);
      removed := removed + gone;
      if !ok {
        return None, removed;
      }
      count := count + |page.value.keys|;
      if page.value.next.None? {
        return Some(count), removed;
      }
      token := page.value.next;
      ListingResumes(bucket.objects, listPrefix, token.value);
    }
  }

  lemma StillUnder(before: map<Key, seq<byte>>, prefix: Key, removed: set<Key>, gone: set<Key>)
    requires removed <= Under(before, prefix, None) && gone <= Under(before - removed, prefix, None)
    ensures removed + gone <= Under(before, prefix, None) && removed !! gone
    ensures |removed + gone| == |removed| + |gone|
    ensures before - removed - gone == before - (removed + gone)
    ensures Under(before - (removed + gone), prefix, None) == Under(before - removed, prefix, None) - gone
    ensures gone != {} ==> |Under(before - (removed + gone), prefix, None)| < |Under(before - removed, prefix, None)|
    ensures gone == Under(before - removed, prefix, None) ==>
              before - (removed + gone) == Without(before, prefix) && removed + gone == Under(before, prefix, None)
  {
    UnderLess(before, prefix, removed, gone);
    CardinalityOfRest(Under(before - removed, prefix, None), gone);
    if gone == Under(before - removed, prefix, None) {
      NothingUnder(before, prefix, removed, gone);
    }
  }

  lemma UnderLess(before: map<Key, seq<byte>>, prefix: Key, removed: set<Key>, gone: set<Key>)
    ensures before - removed - gone == before - (removed + gone)
    ensures Under(before - (removed + gone), prefix, None) == Under(before - removed, prefix, None) - gone
  {
  }

  lemma CardinalityOfRest(left: set<Key>, gone: set<Key>)
    requires gone <= left
    ensures |left - gone| == |left| - |gone|
  {
    assert left == (left - gone) + gone;
  }

  lemma NothingUnder(before: map<Key, seq<byte>>, prefix: Key, removed: set<Key>, gone: set<Key>)
    requires removed <= Under(before, prefix, None) && gone == Under(before - removed, prefix, None)
    ensures before - (removed + gone) == Without(before, prefix) && removed + gone == Under(before, prefix, None)
  {
    assert removed + gone == Under(before, prefix, None);
  }

  /** Cleaning up after one Workshop leaves every object of another. */
  lemma CleanupTouchesNoOther(objects: map<Key, seq<byte>>, removed: set<Key>,
                              ns: seq<byte>, name: seq<byte>, otherNs: seq<byte>, otherName: seq<byte>)
    requires Plain(ns, name) && Plain(otherNs, otherName) && (ns, name) != (otherNs, otherName)
    requires removed <= Under(objects, ListPrefix(SnapshotCacheSubdir(ns, name)), None)
    ensures var theirs := ListPrefix(SnapshotCacheSubdir(otherNs, otherName));
            Under(objects - removed, theirs, None) == Under(objects, theirs, None)
  {
    var theirs := ListPrefix(SnapshotCacheSubdir(otherNs, otherName));
    forall k | k in Under(objects, theirs, None) ensures k !in removed {
      if k in removed {
        PrefixesAreApart(ns, name, otherNs, otherName, k);
      }
    }
  }

  // ----- To S3 and back -----

  function CompressedKey(prefix: Key, filename: seq<byte>): Key {
    SnapshotKey(prefix, filename + COMPRESSED_SUFFIX)
  }

  method UploadSnapshotFile(bucket: Bucket, prefix: Key, filename: seq<byte>, content: seq<byte>,
                            encode: seq<byte> -> seq<byte>) returns (failure: Option<Failure>)
    requires bucket.Valid()
    modifies bucket
    ensures bucket.Valid()
    ensures failure.None? ==>
              bucket.objects == old(bucket.objects)[CompressedKey(prefix, filename) := encode(content)]
  {
    var encoder := new Reader(encode(content));
    failure := UploadStream(bucket, CompressedKey(prefix, filename), encoder);
  }

  /** Which of the two requests of a download fail. */
  datatype Failing = Failing(compressed: bool, older: bool)

  /** What a download reads: the compressed form, or the older one when that cannot be had, for whatever reason. */
  function Fetched(objects: map<Key, seq<byte>>, prefix: Key, filename: seq<byte>, decode: seq<byte> -> seq<byte>,
                   fails: Failing): Option<seq<byte>>
  {
    var compressed, older := CompressedKey(prefix, filename), SnapshotKey(prefix, filename);
    if compressed in objects && !fails.compressed then Some(decode(objects[compressed]))
    else if older in objects && !fails.older then Some(objects[older])
    else None
  }

  method DownloadSnapshotToFile(bucket: Bucket, prefix: Key, filename: seq<byte>, decode: seq<byte> -> seq<byte>, fails: Failing)
    returns (file: Option<SparseFile>)
    ensures file.Some? ==>
              && fresh(file.value)
              && Fetched(bucket.objects, prefix, filename, decode, fails) == Some(file.value.Content())
  {
    var stream: Reader;
    var compressed := bucket.GetObject(CompressedKey(prefix, filename), fails.compressed);
    if compressed.Some? {
      stream := new Reader(decode(compressed.value.rest));
    } else {
      var older := bucket.GetObject(SnapshotKey(prefix, filename), fails.older);
      if older.None? {
        return None;
      }
      stream := older.value;
    }
    var dest := new SparseFile();
    var copied := CopySparse(stream, dest);
    if copied.None? {
      return None;
    }
    return Some(dest);
  }

  lemma KeysDiffer(prefix: Key, filename: seq<byte>)
    ensures CompressedKey(prefix, filename) != SnapshotKey(prefix, filename)
  {
    assert |CompressedKey(prefix, filename)| == |SnapshotKey(prefix, filename)| + 4;
  }

  /** A suspension uploads, a resumption downloads: what comes back is what the requests let through. */
  method UploadThenDownload(bucket: Bucket, prefix: Key, filename: seq<byte>, content: seq<byte>,
                            encode: seq<byte> -> seq<byte>, decode: seq<byte> -> seq<byte>, fails: Failing)
    returns (back: Option<seq<byte>>)
    requires bucket.Valid()
    modifies bucket
    ensures !fails.compressed && back.Some? && decode(encode(content)) == content ==> back == Some(content)
    ensures back.Some? ==> back == Fetched(Uploaded(old(bucket.objects), prefix, filename, encode(content)), prefix, filename, decode, fails)
  {
    var failure := UploadSnapshotFile(bucket, prefix, filename, content, encode);
    if failure.Some? {
      return None;
    }
    var file := DownloadSnapshotToFile(bucket, prefix, filename, decode, fails);
    return if file.Some? then Some(file.value.Content()) else None;
  }

  function Uploaded(objects: map<Key, seq<byte>>, prefix: Key, filename: seq<byte>, encoded: seq<byte>): map<Key, seq<byte>> {
    objects[CompressedKey(prefix, filename) := encoded]
  }

  /** Whatever requests fail, a download that gives something gives `content`. */
  predicate AlwaysComesBack(objects: map<Key, seq<byte>>, prefix: Key, filename: seq<byte>, content: seq<byte>,
                            decode: seq<byte> -> seq<byte>)
  {
    forall compressed: bool, older: bool ::
      var got := Fetched(objects, prefix, filename, decode, Failing(compressed, older));
      got.Some? ==> got.value == content
  }

  /**
    * What was uploaded is what comes back, byte for byte and whatever requests fail, if and only if there
    * is no object of the older form, or it holds the same content.
    */
  lemma ComesBackExactlyWhen(objects: map<Key, seq<byte>>, prefix: Key, filename: seq<byte>, content: seq<byte>,
                             encode: seq<byte> -> seq<byte>, decode: seq<byte> -> seq<byte>)
    requires decode(encode(content)) == content
    ensures AlwaysComesBack(Uploaded(objects, prefix, filename, encode(content)), prefix, filename, content, decode) <==>
              SnapshotKey(prefix, filename) in objects ==> objects[SnapshotKey(prefix, filename)] == content
  {
    KeysDiffer(prefix, filename);
    var after := Uploaded(objects, prefix, filename, encode(content));
    if SnapshotKey(prefix, filename) in objects {
      OlderComesBack(objects, prefix, filename, encode(content), decode);
    }
    assert Fetched(after, prefix, filename, decode, Failing(false, false)) == Some(content);
  }

  /** When the request for the compressed form fails, the content of before the upload comes back. */
  lemma OlderComesBack(objects: map<Key, seq<byte>>, prefix: Key, filename: seq<byte>, encoded: seq<byte>,
                       decode: seq<byte> -> seq<byte>)
    requires SnapshotKey(prefix, filename) in objects
    ensures Fetched(Uploaded(objects, prefix, filename, encoded), prefix, filename, decode, Failing(true, false))
         == Some(objects[SnapshotKey(prefix, filename)])
  {
    KeysDiffer(prefix, filename);
  }

  /** As long as the request for the compressed form succeeds, what was uploaded comes back, whatever the older object is. */
  lemma UploadedComesBack(objects: map<Key, seq<byte>>, prefix: Key, filename: seq<byte>, content: seq<byte>,
                          encode: seq<byte> -> seq<byte>, decode: seq<byte> -> seq<byte>, olderFails: bool)
    requires decode(encode(content)) == content
    ensures Fetched(Uploaded(objects, prefix, filename, encode(content)), prefix, filename, decode, Failing(false, olderFails))
         == Some(content)
  {
  }
}
