/**
  * The status of a Workshop (crates/common/src/crd.rs) and the two writers that patch it: the
  * controller (crates/controller/src/reconcile.rs) and `image-builder`
  * (crates/common/src/status.rs). Which values survive a patch depends on how each field is
  * serialised, so the serialised documents are modelled and merged as RFC 7386 says, and the
  * typed effect of each patch is proved from that.
  */
module WorkshopStatus {
  import opened Common
  import opened MergePatch

  datatype Phase =
    | Pending | BuildingImage | Provisioning | Running | Suspending | Suspended | Resuming | Terminating | Failed
  {
    function Name(): string {
      match this
      case Pending => "Pending"
      case BuildingImage => "BuildingImage"
      case Provisioning => "Provisioning"
      case Running => "Running"
      case Suspending => "Suspending"
      case Suspended => "Suspended"
      case Resuming => "Resuming"
      case Terminating => "Terminating"
      case Failed => "Failed"
    }
  }

  datatype UpgradeState = NeedsRestartForUpgrade

  datatype Ports = Ports(ssh: int, terminal: Option<int>, ide: Option<int>)

  const LEGACY_PORTS := Ports(2222, Some(7681), Some(8080))

  datatype Session = Session(remoteUser: Option<string>, workspaceFolder: Option<string>,
                             containerEnv: map<string, string>)

  /** A computed status: what the controller serialises. */
  datatype Status = Status(phase: Phase, podName: Option<string>, imageDigest: Option<string>,
                           snapshotDigest: Option<string>, upgradeState: Option<UpgradeState>,
                           guestPorts: Option<Ports>, session: Option<Session>, conditions: map<string, string>)

  /** The stored document: a field nobody has written, or that was removed, is absent. */
  datatype Doc = Doc(phase: Option<Phase>, podName: Option<string>, imageDigest: Option<string>,
                     snapshotDigest: Option<string>, upgradeState: Option<UpgradeState>,
                     guestPorts: Option<Ports>, session: Option<Session>,
                     conditions: Option<map<string, string>>)

  const EMPTY := Doc(None, None, None, None, None, None, None, None)

  /** What one build publishes. */
  datatype Publication = Publication(digest: string, ports: Ports, session: Session)

  // ----- Serialisation -----

  const STATUS_KEYS: set<Key> := {PhaseKey, PodNameKey, ImageDigestKey, SnapshotDigestKey, UpgradeStateKey,
                                  GuestPortsKey, SessionKey, ConditionsKey}
  const PORT_KEYS: set<Key> := {SshKey, TerminalKey, IdeKey}
  const SESSION_KEYS: set<Key> := {RemoteUserKey, WorkspaceFolderKey, ContainerEnvKey}

  /** `skip_serializing_if = "Option::is_none"`: an absent value leaves no member. */
  function Skip(s: Option<string>): Option<Json> {
    if s.Some? then Some(Str(s.value)) else None
  }

  function SkipNum(n: Option<int>): Option<Json> {
    if n.Some? then Some(Num(n.value)) else None
  }

  /** No such attribute: an absent value is written as null. */
  function OrNull(s: Option<string>): Option<Json> {
    if s.Some? then Some(Str(s.value)) else Some(Null)
  }

  function OrNullNum(n: Option<int>): Option<Json> {
    if n.Some? then Some(Num(n.value)) else Some(Null)
  }

  function PortMember(p: Ports, k: Key): Option<Json> {
    match k
    case SshKey => Some(Num(p.ssh))
    case TerminalKey => SkipNum(p.terminal)
    case IdeKey => SkipNum(p.ide)
    case _ => None
  }

  function PortMembers(p: Ports): Key -> Option<Json> {
    k => PortMember(p, k)
  }

  function PortsJson(p: Ports): Json {
    Object(PORT_KEYS, PortMembers(p))
  }

  function SessionMember(s: Session, k: Key): Option<Json> {
    match k
    case RemoteUserKey => Skip(s.remoteUser)
    case WorkspaceFolderKey => Skip(s.workspaceFolder)
    case ContainerEnvKey => if s.containerEnv == map[] then None else Some(Strings(s.containerEnv))
    case _ => None
  }

  function SessionMembers(s: Session): Key -> Option<Json> {
    k => SessionMember(s, k)
  }

  function SessionJson(s: Session): Json {
    Object(SESSION_KEYS, SessionMembers(s))
  }

  function UpgradeJson(u: Option<UpgradeState>): Option<Json> {
    if u.Some? then Some(Str("NeedsRestartForUpgrade")) else None
  }

  /** The serialisation of a `WorkshopStatus`. Note `podName` and `conditions`: they are never skipped. */
  function StatusMember(s: Status, k: Key): Option<Json> {
    match k
    case PhaseKey => Some(Str(s.phase.Name()))
    case PodNameKey => OrNull(s.podName)
    case ImageDigestKey => Skip(s.imageDigest)
    case SnapshotDigestKey => Skip(s.snapshotDigest)
    case UpgradeStateKey => UpgradeJson(s.upgradeState)
    case GuestPortsKey => if s.guestPorts.Some? then Some(PortsJson(s.guestPorts.value)) else None
    case SessionKey => if s.session.Some? then Some(SessionJson(s.session.value)) else None
    case ConditionsKey => Some(Strings(s.conditions))
    case _ => None
  }

  function StatusMembers(s: Status): Key -> Option<Json> {
    k => StatusMember(s, k)
  }

  function StatusJson(s: Status): Json {
    Object(STATUS_KEYS, StatusMembers(s))
  }

  function DocMember(d: Doc, k: Key): Option<Json> {
    match k
    case PhaseKey => if d.phase.Some? then Some(Str(d.phase.value.Name())) else None
    case PodNameKey => Skip(d.podName)
    case ImageDigestKey => Skip(d.imageDigest)
    case SnapshotDigestKey => Skip(d.snapshotDigest)
    case UpgradeStateKey => UpgradeJson(d.upgradeState)
    case GuestPortsKey => if d.guestPorts.Some? then Some(PortsJson(d.guestPorts.value)) else None
    case SessionKey => if d.session.Some? then Some(SessionJson(d.session.value)) else None
    case ConditionsKey => if d.conditions.Some? then Some(Strings(d.conditions.value)) else None
    case _ => None
  }

  function DocMembers(d: Doc): Key -> Option<Json> {
    k => DocMember(d, k)
  }

  function DocJson(d: Doc): Json {
    Object(STATUS_KEYS, DocMembers(d))
  }

  /** What `image-builder` sends: every nested field is written, null included. */
  function PublishedPortMember(p: Ports, k: Key): Option<Json> {
    match k
    case SshKey => Some(Num(p.ssh))
    case TerminalKey => OrNullNum(p.terminal)
    case IdeKey => OrNullNum(p.ide)
    case _ => None
  }

  function PublishedPortMembers(p: Ports): Key -> Option<Json> {
    k => PublishedPortMember(p, k)
  }

  function PublishedSessionMember(s: Session, k: Key): Option<Json> {
    match k
    case RemoteUserKey => OrNull(s.remoteUser)
    case WorkspaceFolderKey => OrNull(s.workspaceFolder)
    case ContainerEnvKey => Some(if s.containerEnv == map[] then Null else Strings(s.containerEnv))
    case _ => None
  }

  function PublishedSessionMembers(s: Session): Key -> Option<Json> {
    k => PublishedSessionMember(s, k)
  }

  function PublicationMember(p: Publication, k: Key): Option<Json> {
    match k
    case ImageDigestKey => Some(Str(p.digest))
    case SessionKey => Some(Object(SESSION_KEYS, PublishedSessionMembers(p.session)))
    case GuestPortsKey => Some(Object(PORT_KEYS, PublishedPortMembers(p.ports)))
    case _ => None
  }

  function PublicationMembers(p: Publication): Key -> Option<Json> {
    k => PublicationMember(p, k)
  }

  function PublicationJson(p: Publication): Json {
    Object(STATUS_KEYS, PublicationMembers(p))
  }

  /** Member `k` of an object: `value` if there is one, no member otherwise. */
  predicate Has(o: Json, k: Key, value: Option<Json>) {
    o.Obj? && if value.Some? then k in o.fields && o.fields[k] == value.value else k !in o.fields
  }

  /** What the serialised status says of each field: an absent pod name is null, other absent fields are not there. */
  lemma StatusSays(s: Status)
    ensures var o := StatusJson(s);
            && Has(o, PhaseKey, Some(Str(s.phase.Name())))
            && Has(o, PodNameKey, Some(if s.podName.Some? then Str(s.podName.value) else Null))
            && Has(o, ImageDigestKey, if s.imageDigest.Some? then Some(Str(s.imageDigest.value)) else None)
            && Has(o, SnapshotDigestKey, if s.snapshotDigest.Some? then Some(Str(s.snapshotDigest.value)) else None)
            && Has(o, UpgradeStateKey, if s.upgradeState.Some? then Some(Str("NeedsRestartForUpgrade")) else None)
            && Has(o, ConditionsKey, Some(Strings(s.conditions)))
            && (s.guestPorts.None? ==> Has(o, GuestPortsKey, None)) && (s.session.None? ==> Has(o, SessionKey, None))
  {
  }

  /** And of ports and sessions: absent ports, accounts and folders are not there, nor is an empty table of variables. */
  lemma PortsSay(p: Ports)
    ensures var o := PortsJson(p);
            && Has(o, SshKey, Some(Num(p.ssh)))
            && Has(o, TerminalKey, if p.terminal.Some? then Some(Num(p.terminal.value)) else None)
            && Has(o, IdeKey, if p.ide.Some? then Some(Num(p.ide.value)) else None)
  {
  }

  lemma SessionSays(s: Session)
    ensures var o := SessionJson(s);
            && Has(o, RemoteUserKey, if s.remoteUser.Some? then Some(Str(s.remoteUser.value)) else None)
            && Has(o, WorkspaceFolderKey, if s.workspaceFolder.Some? then Some(Str(s.workspaceFolder.value)) else None)
            && Has(o, ContainerEnvKey, if s.containerEnv == map[] then None else Some(Strings(s.containerEnv)))
  {
  }

  // ----- The typed effect of each patch -----

  function MergePorts(before: Option<Ports>, p: Ports): Ports {
    if before.None? then p
    else Ports(p.ssh, p.terminal.Or(before.value.terminal), p.ide.Or(before.value.ide))
  }

  function MergeSession(before: Option<Session>, s: Session): Session {
    if before.None? then s
    else Session(s.remoteUser.Or(before.value.remoteUser), s.workspaceFolder.Or(before.value.workspaceFolder),
                 before.value.containerEnv + s.containerEnv)
  }

  function PublishSession(before: Option<Session>, s: Session): Session {
    if before.None? || s.containerEnv == map[] then s
    else s.(containerEnv := before.value.containerEnv + s.containerEnv)
  }

  function Entries(conditions: Option<map<string, string>>): map<string, string> {
    if conditions.Some? then conditions.value else map[]
  }

  /** The stored status after `update_status`. */
  function AfterUpdate(d: Doc, s: Status): Doc {
    Doc(Some(s.phase), s.podName, s.imageDigest.Or(d.imageDigest), s.snapshotDigest.Or(d.snapshotDigest),
        s.upgradeState.Or(d.upgradeState),
        if s.guestPorts.Some? then Some(MergePorts(d.guestPorts, s.guestPorts.value)) else d.guestPorts,
        if s.session.Some? then Some(MergeSession(d.session, s.session.value)) else d.session,
        Some(Entries(d.conditions) + s.conditions))
  }

  /** The stored status after a build has published its result. */
  function AfterPublish(d: Doc, p: Publication): Doc {
    d.(imageDigest := Some(p.digest), guestPorts := Some(p.ports), session := Some(PublishSession(d.session, p.session)))
  }

  // ----- They are what merging the documents gives -----

  lemma MergePortsJson(before: Ports, p: Ports)
    ensures Merge(PortsJson(before), PortsJson(p)) == PortsJson(MergePorts(Some(before), p))
    ensures Merge(PortsJson(before), Object(PORT_KEYS, PublishedPortMembers(p))) == PortsJson(p)
  {
    MergeObjects(PORT_KEYS, PortMembers(before), PortMembers(p), PortMembers(MergePorts(Some(before), p)));
    MergeObjects(PORT_KEYS, PortMembers(before), PublishedPortMembers(p), PortMembers(p));
  }

  function NoMembers(): Key -> Option<Json> {
    k => None
  }

  lemma NoMembersIsEmpty(keys: set<Key>)
    ensures Object(keys, NoMembers()) == Obj(map[])
  {
  }

  lemma MergeIntoNoPorts(p: Ports)
    ensures Merge(Null, PortsJson(p)) == PortsJson(p)
    ensures Merge(Null, Object(PORT_KEYS, PublishedPortMembers(p))) == PortsJson(p)
  {
    NoMembersIsEmpty(PORT_KEYS);
    MergeIntoNothing(PortsJson(p));
    MergeIntoNothing(Object(PORT_KEYS, PublishedPortMembers(p)));
    MergeObjects(PORT_KEYS, NoMembers(), PortMembers(p), PortMembers(p));
    MergeObjects(PORT_KEYS, NoMembers(), PublishedPortMembers(p), PortMembers(p));
  }

  lemma UnionIsEmpty(a: map<string, string>, b: map<string, string>)
    ensures a + b == map[] <==> a == map[] && b == map[]
  {
    if a + b == map[] {
      assert a.Keys <= (a + b).Keys && b.Keys <= (a + b).Keys;
    }
  }

  lemma MergeStringsIntoNothing(m: map<string, string>)
    ensures Merge(Null, Strings(m)) == Strings(m)
  {
    MergeIntoNothing(Strings(m));
    MergeStrings(map[], m);
    assert Strings(map[]) == Obj(map[]);
    assert map[] + m == m;
  }

  lemma MergeEnv(before: map<string, string>, env: map<string, string>)
    ensures Merge(Strings(before), Strings(env)) == Strings(before + env)
    ensures Merge(Null, Strings(env)) == Strings(env)
    ensures before == map[] ==> before + env == env
    ensures env == map[] ==> before + env == before
    ensures before + env == map[] <==> before == map[] && env == map[]
  {
    MergeStrings(before, env);
    MergeStringsIntoNothing(env);
    UnionIsEmpty(before, env);
  }

  lemma MergeSessionMember(before: Session, s: Session, k: Key)
    ensures MemberMerges(SessionMember(before, k), SessionMember(s, k), SessionMember(MergeSession(Some(before), s), k))
    ensures MemberMerges(SessionMember(before, k), PublishedSessionMember(s, k),
                         SessionMember(PublishSession(Some(before), s), k))
  {
    MergeEnv(before.containerEnv, s.containerEnv);
  }

  lemma MergeSessionObjects(keys: set<Key>, before: Session, s: Session)
    ensures Merge(Object(keys, SessionMembers(before)), Object(keys, SessionMembers(s)))
         == Object(keys, SessionMembers(MergeSession(Some(before), s)))
    ensures Merge(Object(keys, SessionMembers(before)), Object(keys, PublishedSessionMembers(s)))
         == Object(keys, SessionMembers(PublishSession(Some(before), s)))
  {
    var f, g, h := SessionMembers(before), SessionMembers(s), PublishedSessionMembers(s);
    var merged, published := SessionMembers(MergeSession(Some(before), s)), SessionMembers(PublishSession(Some(before), s));
    forall k | k in keys ensures MemberMerges(f(k), g(k), merged(k)) && MemberMerges(f(k), h(k), published(k)) {
      MergeSessionMember(before, s, k);
    }
    MergeObjects(keys, f, g, merged);
    MergeObjects(keys, f, h, published);
  }

  lemma NoSessionMember(s: Session, k: Key)
    ensures MemberMerges(None, SessionMember(s, k), SessionMember(s, k))
    ensures MemberMerges(None, PublishedSessionMember(s, k), SessionMember(s, k))
  {
    MergeStringsIntoNothing(s.containerEnv);
  }

  lemma MergeIntoNoSession(keys: set<Key>, s: Session)
    ensures Merge(Null, Object(keys, SessionMembers(s))) == Object(keys, SessionMembers(s))
    ensures Merge(Null, Object(keys, PublishedSessionMembers(s))) == Object(keys, SessionMembers(s))
  {
    NoMembersIsEmpty(keys);
    var f, g, h := NoMembers(), SessionMembers(s), PublishedSessionMembers(s);
    MergeIntoNothing(Object(keys, g));
    MergeIntoNothing(Object(keys, h));
    forall k | k in keys ensures MemberMerges(f(k), g(k), g(k)) && MemberMerges(f(k), h(k), g(k)) {
      NoSessionMember(s, k);
    }
    MergeObjects(keys, f, g, g);
    MergeObjects(keys, f, h, g);
  }

  lemma UpdateMember(d: Doc, s: Status, k: Key)
    ensures MemberMerges(DocMember(d, k), StatusMember(s, k), DocMember(AfterUpdate(d, s), k))
  {
    match k
    case GuestPortsKey =>
      if s.guestPorts.Some? {
        MergeIntoNoPorts(s.guestPorts.value);
        if d.guestPorts.Some? {
          MergePortsJson(d.guestPorts.value, s.guestPorts.value);
        }
      }
    case SessionKey =>
      if s.session.Some? {
        MergeIntoNoSession(SESSION_KEYS, s.session.value);
        if d.session.Some? {
          MergeSessionObjects(SESSION_KEYS, d.session.value, s.session.value);
        }
      }
    case ConditionsKey =>
      MergeEnv(Entries(d.conditions), s.conditions);
    case _ =>
  }

  lemma UpdateObjects(keys: set<Key>, d: Doc, s: Status)
    ensures Merge(Object(keys, DocMembers(d)), Object(keys, StatusMembers(s)))
         == Object(keys, DocMembers(AfterUpdate(d, s)))
  {
    var f, g, h := DocMembers(d), StatusMembers(s), DocMembers(AfterUpdate(d, s));
    forall k | k in keys ensures MemberMerges(f(k), g(k), h(k)) {
      UpdateMember(d, s, k);
    }
    MergeObjects(keys, f, g, h);
  }

  lemma PublishMember(d: Doc, p: Publication, k: Key)
    ensures MemberMerges(DocMember(d, k), PublicationMember(p, k), DocMember(AfterPublish(d, p), k))
  {
    MergeIntoNoPorts(p.ports);
    MergeIntoNoSession(SESSION_KEYS, p.session);
    if d.guestPorts.Some? {
      MergePortsJson(d.guestPorts.value, p.ports);
    }
    if d.session.Some? {
      MergeSessionObjects(SESSION_KEYS, d.session.value, p.session);
    }
  }

  lemma PublishObjects(keys: set<Key>, d: Doc, p: Publication)
    ensures Merge(Object(keys, DocMembers(d)), Object(keys, PublicationMembers(p)))
         == Object(keys, DocMembers(AfterPublish(d, p)))
  {
    var f, g, h := DocMembers(d), PublicationMembers(p), DocMembers(AfterPublish(d, p));
    forall k | k in keys ensures MemberMerges(f(k), g(k), h(k)) {
      PublishMember(d, p, k);
    }
    MergeObjects(keys, f, g, h);
  }

  /** Under RFC 7386, `update_status` stores exactly `AfterUpdate`. */
  lemma UpdateIsAMerge(d: Doc, s: Status)
    ensures Merge(DocJson(d), StatusJson(s)) == DocJson(AfterUpdate(d, s))
  {
    UpdateObjects(STATUS_KEYS, d, s);
  }

  /** Under RFC 7386, a build's patch stores exactly `AfterPublish`. */
  lemma PublishIsAMerge(d: Doc, p: Publication)
    ensures Merge(DocJson(d), PublicationJson(p)) == DocJson(AfterPublish(d, p))
  {
    PublishObjects(STATUS_KEYS, d, p);
  }

  // ----- The document determines the typed status -----

  lemma MembersAgree(keys: set<Key>, f: Key -> Option<Json>, g: Key -> Option<Json>, k: Key)
    requires Object(keys, f) == Object(keys, g) && k in keys
    ensures f(k) == g(k)
  {
    assert k in Object(keys, f).fields <==> f(k).Some?;
    assert k in Object(keys, g).fields <==> g(k).Some?;
    assert f(k).Some? ==> Object(keys, f).fields[k] == f(k).value;
    assert g(k).Some? ==> Object(keys, g).fields[k] == g(k).value;
  }

  lemma StringsDetermine(a: map<string, string>, b: map<string, string>)
    requires Strings(a) == Strings(b)
    ensures a == b
  {
    forall s ensures (s in a <==> s in b) && (s in a ==> a[s] == b[s]) {
      assert Named(s) in Strings(a).fields <==> s in a by {
        assert s in a ==> Named(s) in Names(a);
      }
      assert Named(s) in Strings(b).fields <==> s in b by {
        assert s in b ==> Named(s) in Names(b);
      }
    }
    assert a.Keys == b.Keys;
  }

  lemma PortsDetermine(a: Ports, b: Ports)
    requires PortsJson(a) == PortsJson(b)
    ensures a == b
  {
    forall k | k in PORT_KEYS ensures PortMember(a, k) == PortMember(b, k) {
      MembersAgree(PORT_KEYS, PortMembers(a), PortMembers(b), k);
    }
    assert PortMember(a, SshKey) == PortMember(b, SshKey);
    assert PortMember(a, TerminalKey) == PortMember(b, TerminalKey);
    assert PortMember(a, IdeKey) == PortMember(b, IdeKey);
  }

  lemma SessionsDetermine(a: Session, b: Session)
    requires SessionJson(a) == SessionJson(b)
    ensures a == b
  {
    MembersAgree(SESSION_KEYS, SessionMembers(a), SessionMembers(b), RemoteUserKey);
    MembersAgree(SESSION_KEYS, SessionMembers(a), SessionMembers(b), WorkspaceFolderKey);
    MembersAgree(SESSION_KEYS, SessionMembers(a), SessionMembers(b), ContainerEnvKey);
    assert SessionMember(a, ContainerEnvKey) == SessionMember(b, ContainerEnvKey);
    if a.containerEnv != map[] {
      StringsDetermine(a.containerEnv, b.containerEnv);
    }
  }

  /** Equal documents are the same typed status: nothing is hidden by the serialisation. */
  lemma DocumentsDetermine(a: Doc, b: Doc)
    requires DocJson(a) == DocJson(b)
    ensures a == b
  {
    var f, g := DocMembers(a), DocMembers(b);
    MembersAgree(STATUS_KEYS, f, g, PhaseKey);
    MembersAgree(STATUS_KEYS, f, g, PodNameKey);
    MembersAgree(STATUS_KEYS, f, g, ImageDigestKey);
    MembersAgree(STATUS_KEYS, f, g, SnapshotDigestKey);
    MembersAgree(STATUS_KEYS, f, g, UpgradeStateKey);
    MembersAgree(STATUS_KEYS, f, g, GuestPortsKey);
    MembersAgree(STATUS_KEYS, f, g, SessionKey);
    MembersAgree(STATUS_KEYS, f, g, ConditionsKey);
    if a.guestPorts.Some? {
      PortsDetermine(a.guestPorts.value, b.guestPorts.value);
    }
    if a.session.Some? {
      SessionsDetermine(a.session.value, b.session.value);
    }
    if a.conditions.Some? {
      StringsDetermine(a.conditions.value, b.conditions.value);
    }
    if a.phase.Some? {
      NamesDetermine(a.phase.value, b.phase.value);
    }
    if a.upgradeState.Some? {
      assert a.upgradeState.value == b.upgradeState.value == NeedsRestartForUpgrade;
    }
  }

  lemma NamesDetermine(p: Phase, q: Phase)
    requires p.Name() == q.Name()
    ensures p == q
  {
    PhaseFromName(p);
    PhaseFromName(q);
  }

  /** The initial and the length of a phase's name tell it apart. */
  function Initial(p: Phase): (nat, char) {
    match p
    case Pending => (7, 'P')
    case BuildingImage => (13, 'B')
    case Provisioning => (12, 'P')
    case Running => (7, 'R')
    case Suspending => (10, 'S')
    case Suspended => (9, 'S')
    case Resuming => (8, 'R')
    case Terminating => (11, 'T')
    case Failed => (6, 'F')
  }

  lemma PhaseFromName(p: Phase)
    ensures p.Name() != "" && Initial(p) == (|p.Name()|, p.Name()[0])
  {
  }
}
