/** JSON documents and JSON merge patches, section 2 of RFC 7386. */
module MergePatch {
  import opened Common

  /** Member names: the fields of a Workshop status, and free names inside `containerEnv` and `conditions`. */
  datatype Key =
    | PhaseKey | PodNameKey | ImageDigestKey | SnapshotDigestKey | UpgradeStateKey
    | GuestPortsKey | SessionKey | ConditionsKey
    | SshKey | TerminalKey | IdeKey
    | RemoteUserKey | WorkspaceFolderKey | ContainerEnvKey
    | Named(name: string)

  datatype Json = Null | Num(n: int) | Str(s: string) | Obj(fields: map<Key, Json>)

  function Merge(target: Json, patch: Json): Json
    decreases patch
  {
    if !patch.Obj? then patch
    else
      var before := if target.Obj? then target.fields else map[];
      Obj(map k | k in before.Keys + patch.fields.Keys && (k in patch.fields ==> !patch.fields[k].Null?) ::
            if k in patch.fields then Merge(if k in before then before[k] else Null, patch.fields[k]) else before[k])
  }

  // ----- Objects given member by member -----

  /** What a merge makes of one member: absent in the patch keeps it, null removes it. */
  function MergeMember(before: Option<Json>, patch: Option<Json>): Option<Json> {
    match patch
    case None => before
    case Some(v) =>
      if v.Null? then None else Some(Merge(if before.Some? then before.value else Null, v))
  }

  /** Merging a stored member, which is never null, with that of a patch. */
  predicate MemberMerges(before: Option<Json>, patch: Option<Json>, after: Option<Json>) {
    before != Some(Null) && after == MergeMember(before, patch)
  }

  /** The object whose members are those `member` gives among `keys`. */
  function Object(keys: set<Key>, member: Key -> Option<Json>): Json {
    Obj(map k | k in keys && member(k).Some? :: member(k).value)
  }

  /** Merging works member by member. */
  lemma MergeObjects(keys: set<Key>, before: Key -> Option<Json>, patch: Key -> Option<Json>, after: Key -> Option<Json>)
    requires forall k | k in keys :: MemberMerges(before(k), patch(k), after(k))
    ensures Merge(Object(keys, before), Object(keys, patch)) == Object(keys, after)
  {
    var merged := Merge(Object(keys, before), Object(keys, patch)).fields;
    var wanted := Object(keys, after).fields;
    forall k ensures (k in merged <==> k in wanted) && (k in merged ==> merged[k] == wanted[k]) {
      if k in keys {
        assert MemberMerges(before(k), patch(k), after(k));
      }
    }
    assert merged.Keys == wanted.Keys;
    assert merged == wanted;
  }

  /** An absent target is an empty object. */
  lemma MergeIntoNothing(patch: Json)
    requires patch.Obj?
    ensures Merge(Null, patch) == Merge(Obj(map[]), patch)
  {
  }

  /** A table of strings. */
  function Strings(m: map<string, string>): Json {
    Object(Names(m), k => Entry(m, k))
  }

  function Names(m: map<string, string>): set<Key> {
    set s | s in m :: Named(s)
  }

  function Entry(m: map<string, string>, k: Key): Option<Json> {
    if k.Named? && k.name in m then Some(Str(m[k.name])) else None
  }

  /** The object does not depend on names that have no entry. */
  lemma StringsOver(keys: set<Key>, m: map<string, string>)
    requires Names(m) <= keys
    ensures Object(keys, k => Entry(m, k)) == Strings(m)
  {
    var a, b := Object(keys, k => Entry(m, k)).fields, Strings(m).fields;
    forall k ensures (k in a <==> k in b) && (k in a ==> a[k] == b[k]) {
      if Entry(m, k).Some? {
        assert Named(k.name) in Names(m);
      }
    }
    assert a.Keys == b.Keys;
    assert a == b;
  }

  /** Merging tables of strings is a union in which the patch wins. */
  lemma MergeStrings(before: map<string, string>, patch: map<string, string>)
    ensures Merge(Strings(before), Strings(patch)) == Strings(before + patch)
  {
    var keys := Names(before) + Names(patch);
    StringsOver(keys, before);
    StringsOver(keys, patch);
    StringsOver(keys, before + patch);
    MergeObjects(keys, k => Entry(before, k), k => Entry(patch, k), k => Entry(before + patch, k));
  }
}
