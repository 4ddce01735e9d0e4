/**
  * Every interleaving of the two writers of a Workshop status: builds that publish, and controller
  * updates computed from arbitrarily old reads. What the stored document keeps, and where its
  * values come from.
  */
module StatusHistory {
  import opened Common
  import opened WorkshopStatus

  /** Every version the document has had, and every publication so far. */
  datatype World = World(history: seq<Doc>, published: seq<Publication>) {
    function Current(): Doc
      requires history != []
    {
      history[|history| - 1]
    }
  }

  datatype Write =
    | Publish(publication: Publication)
    | Update(read: nat, status: Status)     // computed from version `read`

  const START := World([EMPTY], [])

  /** What `carry_forward_status` copies from the version it read, on every path of the controller. */
  predicate Carries(read: Doc, s: Status) {
    s.imageDigest == read.imageDigest && s.guestPorts == read.guestPorts && s.session == read.session
  }

  /** `phase` is required by the schema, so a build cannot publish before the controller has written a status. */
  function Step(w: World, a: Write): World
    requires w.history != []
  {
    match a
    case Publish(p) =>
      if w.Current().phase.None? then w
      else World(w.history + [AfterPublish(w.Current(), p)], w.published + [p])
    case Update(read, s) =>
      if read < |w.history| && Carries(w.history[read], s)
      then w.(history := w.history + [AfterUpdate(w.Current(), s)]) else w
  }

  function Run(writes: seq<Write>): (w: World)
    ensures w.history != []
  {
    if writes == [] then START else Step(Run(writes[..|writes| - 1]), writes[|writes| - 1])
  }

  lemma RunSnoc(writes: seq<Write>, a: Write)
    ensures Run(writes + [a]) == Step(Run(writes), a)
  {
    assert (writes + [a])[..|writes|] == writes;
  }

  // ----- Nothing disappears -----

  /** What a later version keeps of an earlier one. `podName` is the exception, on purpose. */
  predicate Keeps(a: Doc, b: Doc) {
    && (a.phase.Some? ==> b.phase.Some?)
    && (a.imageDigest.Some? ==> b.imageDigest.Some?)
    && (a.snapshotDigest.Some? ==> b.snapshotDigest.Some?)
    && (a.upgradeState.Some? ==> b.upgradeState.Some?)
    && (a.guestPorts.Some? ==> b.guestPorts.Some?)
    && (a.session.Some? ==> b.session.Some?)
    && (a.conditions.Some? ==> b.conditions.Some?)
    && Entries(a.conditions).Keys <= Entries(b.conditions).Keys
  }

  lemma UpdateKeeps(d: Doc, s: Status)
    ensures Keeps(d, AfterUpdate(d, s))
  {
  }

  lemma PublishKeeps(d: Doc, p: Publication)
    ensures Keeps(d, AfterPublish(d, p))
  {
  }

  /** A write adds at most one version, and it keeps what the one before had. */
  lemma StepKeeps(w: World, a: Write)
    requires w.history != []
    ensures w.history <= Step(w, a).history && |Step(w, a).history| <= |w.history| + 1
    ensures Keeps(w.Current(), Step(w, a).Current())
  {
    match a
    case Publish(p) => PublishKeeps(w.Current(), p);
    case Update(_, s) => UpdateKeeps(w.Current(), s);
  }

  lemma KeepsIsTransitive(a: Doc, b: Doc, c: Doc)
    requires Keeps(a, b) && Keeps(b, c)
    ensures Keeps(a, c)
  {
  }

  lemma {:induction false} HistoryKeeps(writes: seq<Write>, i: nat, j: nat)
    requires i <= j < |Run(writes).history|
    ensures Keeps(Run(writes).history[i], Run(writes).history[j])
  {
    if writes != [] {
      var before, w := Run(writes[..|writes| - 1]), Run(writes);
      StepKeeps(before, writes[|writes| - 1]);
      if j < |before.history| {
        HistoryKeeps(writes[..|writes| - 1], i, j);
      } else if i < j {
        HistoryKeeps(writes[..|writes| - 1], i, |before.history| - 1);
        KeepsIsTransitive(w.history[i], before.Current(), w.history[j]);
      }
    }
  }

  function AnyStatus(): Status {
    Status(Pending, None, None, None, None, None, None, map[])
  }

  /**
    * What a build leaves stored, after any run: its digest, its ports, its account and its folder exactly, absent ones
    * included; no variables if it has none, and else its own over those stored before. Nothing else changes.
    */
  lemma PublicationIsStored(writes: seq<Write>, p: Publication)
    requires Run(writes).Current().phase.Some?
    ensures var before, after := Run(writes).Current(), Run(writes + [Publish(p)]).Current();
            && after.imageDigest == Some(p.digest) && after.guestPorts == Some(p.ports) && after.session.Some?
            && after.session.value.remoteUser == p.session.remoteUser
            && after.session.value.workspaceFolder == p.session.workspaceFolder
            && after.session.value.containerEnv
               == (if p.session.containerEnv == map[] || before.session.None? then p.session.containerEnv
                   else before.session.value.containerEnv + p.session.containerEnv)
            && after.phase == before.phase && after.podName == before.podName && after.conditions == before.conditions
            && after.snapshotDigest == before.snapshotDigest && after.upgradeState == before.upgradeState
  {
    RunSnoc(writes, Publish(p));
  }

  /**
    * What an update leaves stored, after any run: its phase, its pod name even when absent, and its conditions over
    * those stored before; of the rest, what it has and else what was stored.
    */
  lemma UpdateIsStored(writes: seq<Write>, read: nat, s: Status)
    requires read < |Run(writes).history| && Carries(Run(writes).history[read], s)
    ensures var before, after := Run(writes).Current(), Run(writes + [Update(read, s)]).Current();
            && after.phase == Some(s.phase) && after.podName == s.podName
            && after.conditions.Some? && after.conditions.value == Entries(before.conditions) + s.conditions
            && after.imageDigest == (if s.imageDigest.Some? then s.imageDigest else before.imageDigest)
            && after.snapshotDigest == (if s.snapshotDigest.Some? then s.snapshotDigest else before.snapshotDigest)
            && after.upgradeState == (if s.upgradeState.Some? then s.upgradeState else before.upgradeState)
  {
    RunSnoc(writes, Update(read, s));
  }

  // ----- Where stored values come from -----

  predicate Digests(ps: seq<Publication>, v: string) {
    exists p | p in ps :: p.digest == v
  }

  predicate SshPorts(ps: seq<Publication>, v: int) {
    exists p | p in ps :: p.ports.ssh == v
  }

  predicate TerminalPorts(ps: seq<Publication>, v: int) {
    exists p | p in ps :: p.ports.terminal == Some(v)
  }

  predicate IdePorts(ps: seq<Publication>, v: int) {
    exists p | p in ps :: p.ports.ide == Some(v)
  }

  predicate Users(ps: seq<Publication>, v: string) {
    exists p | p in ps :: p.session.remoteUser == Some(v)
  }

  predicate Folders(ps: seq<Publication>, v: string) {
    exists p | p in ps :: p.session.workspaceFolder == Some(v)
  }

  predicate Variables(ps: seq<Publication>, name: string, v: string) {
    exists p | p in ps :: name in p.session.containerEnv && p.session.containerEnv[name] == v
  }

  predicate PortsPublished(ports: Ports, ps: seq<Publication>) {
    && SshPorts(ps, ports.ssh)
    && (ports.terminal.Some? ==> TerminalPorts(ps, ports.terminal.value))
    && (ports.ide.Some? ==> IdePorts(ps, ports.ide.value))
  }

  predicate SessionPublished(s: Session, ps: seq<Publication>) {
    && (s.remoteUser.Some? ==> Users(ps, s.remoteUser.value))
    && (s.workspaceFolder.Some? ==> Folders(ps, s.workspaceFolder.value))
    && (forall name | name in s.containerEnv :: Variables(ps, name, s.containerEnv[name]))
  }

  /** Each single value in the document was published by some build. */
  predicate Published(d: Doc, ps: seq<Publication>) {
    && (d.imageDigest.Some? ==> Digests(ps, d.imageDigest.value))
    && (d.guestPorts.Some? ==> PortsPublished(d.guestPorts.value, ps))
    && (d.session.Some? ==> SessionPublished(d.session.value, ps))
  }

  lemma MorePublications(d: Doc, ps: seq<Publication>, p: Publication)
    requires Published(d, ps)
    ensures Published(d, ps + [p])
  {
    var qs := ps + [p];
    assert forall q :: q in ps ==> q in qs;
    if d.session.Some? {
      forall name | name in d.session.value.containerEnv
        ensures Variables(qs, name, d.session.value.containerEnv[name])
      {
        assert Variables(ps, name, d.session.value.containerEnv[name]);
      }
    }
  }

  lemma PublishIsPublished(d: Doc, ps: seq<Publication>, p: Publication)
    requires Published(d, ps) && p in ps
    ensures Published(AfterPublish(d, p), ps)
  {
    assert Digests(ps, p.digest) && SshPorts(ps, p.ports.ssh);
    var s := PublishSession(d.session, p.session);
    forall name | name in s.containerEnv ensures Variables(ps, name, s.containerEnv[name]) {
      if name !in p.session.containerEnv {
        assert Variables(ps, name, d.session.value.containerEnv[name]);
      }
    }
  }

  lemma UpdateIsPublished(d: Doc, read: Doc, ps: seq<Publication>, s: Status)
    requires Published(d, ps) && Published(read, ps) && Carries(read, s)
    ensures Published(AfterUpdate(d, s), ps)
  {
    if s.session.Some? {
      var merged := MergeSession(d.session, s.session.value);
      forall name | name in merged.containerEnv ensures Variables(ps, name, merged.containerEnv[name]) {
        if name in s.session.value.containerEnv {
          assert Variables(ps, name, s.session.value.containerEnv[name]);
        } else {
          assert Variables(ps, name, d.session.value.containerEnv[name]);
        }
      }
    }
  }

  /**
    * In every interleaving and however old the controller's reads are, the digest, each port, the
    * account, the folder and each variable stored were published by some build.
    */
  lemma {:induction false} StoredValuesWerePublished(writes: seq<Write>, i: nat)
    requires i < |Run(writes).history|
    ensures Published(Run(writes).history[i], Run(writes).published)
  {
    if writes != [] {
      var before := Run(writes[..|writes| - 1]);
      var a := writes[|writes| - 1];
      var w := Run(writes);
      var last := |before.history| - 1;
      StoredValuesWerePublished(writes[..|writes| - 1], if i <= last then i else last);
      if w == before {
        return;
      }
      if a.Publish? {
        MorePublications(before.history[if i <= last then i else last], before.published, a.publication);
        if i > last {
          PublishIsPublished(before.Current(), w.published, a.publication);
        }
      } else if i > last {
        StoredValuesWerePublished(writes[..|writes| - 1], a.read);
        UpdateIsPublished(before.Current(), before.history[a.read], before.published, a.status);
      }
    }
  }

  // ----- Whole values may be mixed: exactly when -----

  /** All the port sets that builds of a run publish. */
  function PublishedPorts(ps: seq<Publication>): set<Ports> {
    set p | p in ps :: p.ports
  }

  /** Overlaying one of these sets on another gives one of these sets again. */
  predicate PortsClosed(ports: set<Ports>) {
    forall p, q | p in ports && q in ports :: MergePorts(Some(q), p) in ports
  }

  lemma {:induction false} ClosedPortsStayWhole(writes: seq<Write>, ports: set<Ports>, i: nat)
    requires PublishedPorts(Run(writes).published) <= ports && PortsClosed(ports)
    requires i < |Run(writes).history|
    ensures Run(writes).history[i].guestPorts.Some? ==> Run(writes).history[i].guestPorts.value in ports
  {
    if writes != [] {
      var before, w := Run(writes[..|writes| - 1]), Run(writes);
      var a := writes[|writes| - 1];
      var last := |before.history| - 1;
      assert PublishedPorts(before.published) <= PublishedPorts(w.published);
      ClosedPortsStayWhole(writes[..|writes| - 1], ports, if i <= last then i else last);
      if i > last && a.Publish? {
        assert a.publication in w.published;
      } else if i > last {
        ClosedPortsStayWhole(writes[..|writes| - 1], ports, a.read);
      }
    }
  }

  /** The first status of a Workshop, while its image is being built. */
  function Building(): Write {
    Update(0, AnyStatus())
  }

  function Builds(first: Publication, second: Publication): seq<Write> {
    [Building()] + [Publish(first)] + [Publish(second)]
  }

  function CarriedBack(p: Publication): Status {
    Status(Running, None, Some(p.digest), None, None, Some(p.ports), Some(p.session), map[])
  }

  /** Two builds, and a controller that wrote back what it had read between them. */
  function StaleRun(first: Publication, second: Publication): seq<Write> {
    Builds(first, second) + [Update(2, CarriedBack(first))]
  }

  lemma BuildingIsStored()
    ensures Run([Building()]) == World([EMPTY, AfterUpdate(EMPTY, AnyStatus())], [])
  {
    RunSnoc([], Building());
    assert [] + [Building()] == [Building()];
  }

  lemma PublishOnce(first: Publication)
    ensures var w := Run([Building()] + [Publish(first)]);
            && w.published == [first] && |w.history| == 3 && w.Current().phase.Some?
            && Carries(w.Current(), CarriedBack(first)) && w.Current().session == Some(first.session)
  {
    BuildingIsStored();
    RunSnoc([Building()], Publish(first));
  }

  lemma PublishTwice(first: Publication, second: Publication)
    ensures var w := Run(Builds(first, second));
            && w.published == [first, second] && |w.history| == 4
            && Carries(w.history[2], CarriedBack(first))
            && w.Current().guestPorts == Some(second.ports)
            && w.Current().session == Some(PublishSession(Some(first.session), second.session))
  {
    PublishOnce(first);
    RunSnoc([Building()] + [Publish(first)], Publish(second));
  }

  lemma StaleRunOutcome(first: Publication, second: Publication)
    ensures var w := Run(StaleRun(first, second));
            && w.published == [first, second]
            && w.Current().guestPorts == Some(MergePorts(Some(second.ports), first.ports))
            && w.Current().session
               == Some(MergeSession(Some(PublishSession(Some(first.session), second.session)), first.session))
  {
    PublishTwice(first, second);
    RunSnoc(Builds(first, second), Update(2, CarriedBack(first)));
  }

  predicate PortsIn(d: Doc, ports: set<Ports>) {
    d.guestPorts.Some? ==> d.guestPorts.value in ports
  }

  /** Every version of this run has ports that one of its builds published. */
  predicate PortsArePublished(writes: seq<Write>) {
    var w := Run(writes);
    forall i | 0 <= i < |w.history| :: PortsIn(w.history[i], PublishedPorts(w.published))
  }

  /** Overlaying two of them gives one of the two. */
  predicate PortsNeverMix(ports: set<Ports>) {
    forall p, q | p in ports && q in ports :: MergePorts(Some(q), p) == p || MergePorts(Some(q), p) == q
  }

  /**
    * The ports stored are always ones that some build of the run published, in every run whose builds
    * publish ports among `ports`, if and only if overlaying two of `ports` always gives one of the two.
    */
  lemma PortsArePublishedExactlyWhen(ports: set<Ports>)
    ensures PortsNeverMix(ports) <==>
              forall writes | PublishedPorts(Run(writes).published) <= ports :: PortsArePublished(writes)
  {
    if PortsNeverMix(ports) {
      forall writes | PublishedPorts(Run(writes).published) <= ports ensures PortsArePublished(writes) {
        var w := Run(writes);
        forall i | 0 <= i < |w.history| ensures PortsIn(w.history[i], PublishedPorts(w.published)) {
          ClosedPortsStayWhole(writes, PublishedPorts(w.published), i);
        }
      }
    } else {
      var p, q :| p in ports && q in ports && MergePorts(Some(q), p) != p && MergePorts(Some(q), p) != q;
      var writes := MixingRun(p, q);
    }
  }

  lemma MixingRun(p: Ports, q: Ports) returns (writes: seq<Write>)
    requires MergePorts(Some(q), p) != p && MergePorts(Some(q), p) != q
    ensures PublishedPorts(Run(writes).published) == {p, q} && !PortsArePublished(writes)
  {
    var none := Session(None, None, map[]);
    var first, second := Publication("a", p, none), Publication("b", q, none);
    writes := StaleRun(first, second);
    StaleRunOutcome(first, second);
    var w := Run(writes);
    assert w.published == [first, second];
    assert first in w.published && second in w.published;
    assert !PortsIn(w.history[|w.history| - 1], PublishedPorts(w.published));
  }

  /** A controller that lags behind a rebuild without a terminal brings the terminal port back: nobody published that. */
  lemma PortsCanBeMixed()
    ensures var first := Publication("a", Ports(1, Some(2), None), Session(None, None, map[]));
            var second := Publication("b", Ports(3, None, Some(4)), Session(None, None, map[]));
            var w := Run(StaleRun(first, second));
            && w.Current().guestPorts == Some(Ports(1, Some(2), Some(4)))
            && Ports(1, Some(2), Some(4)) !in PublishedPorts(w.published)
  {
    StaleRunOutcome(Publication("a", Ports(1, Some(2), None), Session(None, None, map[])),
                    Publication("b", Ports(3, None, Some(4)), Session(None, None, map[])));
  }

  function PublishedSessions(ps: seq<Publication>): set<Session> {
    set p | p in ps :: p.session
  }

  /** The same for sessions: a build itself only adds variables, so its own overlay counts too. */
  predicate SessionsClosed(sessions: set<Session>) {
    forall s, t | s in sessions && t in sessions ::
      MergeSession(Some(t), s) in sessions && PublishSession(Some(t), s) in sessions
  }

  predicate SessionIn(d: Doc, sessions: set<Session>) {
    d.session.Some? ==> d.session.value in sessions
  }

  lemma PublishStaysWhole(d: Doc, p: Publication, sessions: set<Session>)
    requires SessionsClosed(sessions) && SessionIn(d, sessions) && p.session in sessions
    ensures SessionIn(AfterPublish(d, p), sessions)
  {
  }

  lemma UpdateStaysWhole(d: Doc, read: Doc, s: Status, sessions: set<Session>)
    requires SessionsClosed(sessions) && SessionIn(d, sessions) && SessionIn(read, sessions) && Carries(read, s)
    ensures SessionIn(AfterUpdate(d, s), sessions)
  {
  }

  lemma {:induction false} ClosedSessionsStayWhole(writes: seq<Write>, sessions: set<Session>, i: nat)
    requires PublishedSessions(Run(writes).published) <= sessions && SessionsClosed(sessions)
    requires i < |Run(writes).history|
    ensures SessionIn(Run(writes).history[i], sessions)
  {
    if writes != [] {
      var before, w := Run(writes[..|writes| - 1]), Run(writes);
      var a := writes[|writes| - 1];
      var last := |before.history| - 1;
      assert PublishedSessions(before.published) <= PublishedSessions(w.published);
      ClosedSessionsStayWhole(writes[..|writes| - 1], sessions, if i <= last then i else last);
      if i > last && a.Publish? {
        assert a.publication in w.published;
        PublishStaysWhole(before.Current(), a.publication, sessions);
      } else if i > last {
        ClosedSessionsStayWhole(writes[..|writes| - 1], sessions, a.read);
        UpdateStaysWhole(before.Current(), before.history[a.read], a.status, sessions);
      }
    }
  }

  /** Every version of this run has a session that one of its builds published. */
  predicate SessionsArePublished(writes: seq<Write>) {
    var w := Run(writes);
    forall i | 0 <= i < |w.history| :: SessionIn(w.history[i], PublishedSessions(w.published))
  }

  predicate OneOf(u: Session, s: Session, t: Session) {
    u == s || u == t
  }

  /** Overlaying one on the other, the way of a controller or that of a build, gives one of the two. */
  predicate NeverMix(s: Session, t: Session) {
    OneOf(MergeSession(Some(t), s), s, t) && OneOf(PublishSession(Some(t), s), s, t)
  }

  predicate SessionsNeverMix(sessions: set<Session>) {
    forall s, t | s in sessions && t in sessions :: NeverMix(s, t)
  }

  /** Two builds in a row. */
  lemma RebuildRun(s: Session, t: Session) returns (writes: seq<Write>)
    requires !OneOf(PublishSession(Some(t), s), s, t)
    ensures PublishedSessions(Run(writes).published) == {s, t} && !SessionsArePublished(writes)
  {
    var first, second := Publication("a", LEGACY_PORTS, t), Publication("b", LEGACY_PORTS, s);
    writes := Builds(first, second);
    PublishTwice(first, second);
    var w := Run(writes);
    assert first in w.published && second in w.published;
    assert w.history[|w.history| - 1].session == Some(PublishSession(Some(t), s));
    assert !SessionIn(w.history[|w.history| - 1], PublishedSessions(w.published));
  }

  lemma OverlayTwice(s: Session, t: Session)
    ensures MergeSession(Some(PublishSession(Some(s), t)), s) == MergeSession(Some(t), s)
  {
    assert (s.containerEnv + t.containerEnv) + s.containerEnv == t.containerEnv + s.containerEnv;
  }

  /** Two builds, and a controller that lags behind. */
  lemma OverlayRun(s: Session, t: Session) returns (writes: seq<Write>)
    requires !OneOf(MergeSession(Some(t), s), s, t)
    ensures PublishedSessions(Run(writes).published) == {s, t} && !SessionsArePublished(writes)
  {
    var first, second := Publication("a", LEGACY_PORTS, s), Publication("b", LEGACY_PORTS, t);
    writes := StaleRun(first, second);
    StaleRunOutcome(first, second);
    OverlayTwice(s, t);
    var w := Run(writes);
    assert first in w.published && second in w.published;
    assert w.history[|w.history| - 1].session == Some(MergeSession(Some(t), s));
    assert !SessionIn(w.history[|w.history| - 1], PublishedSessions(w.published));
  }

  lemma UnmixedRun(writes: seq<Write>, sessions: set<Session>)
    requires SessionsNeverMix(sessions) && PublishedSessions(Run(writes).published) <= sessions
    ensures SessionsArePublished(writes)
  {
    var w := Run(writes);
    var published := PublishedSessions(w.published);
    assert SessionsClosed(published) by {
      forall s, t | s in published && t in published
        ensures MergeSession(Some(t), s) in published && PublishSession(Some(t), s) in published
      {
        assert NeverMix(s, t);
      }
    }
    forall i | 0 <= i < |w.history| ensures SessionIn(w.history[i], published) {
      ClosedSessionsStayWhole(writes, published, i);
    }
  }

  lemma MixedRun(sessions: set<Session>) returns (writes: seq<Write>)
    requires !SessionsNeverMix(sessions)
    ensures PublishedSessions(Run(writes).published) <= sessions && !SessionsArePublished(writes)
  {
    var s, t :| s in sessions && t in sessions && !NeverMix(s, t);
    writes := MixedPair(s, t);
  }

  lemma MixedPair(s: Session, t: Session) returns (writes: seq<Write>)
    requires !NeverMix(s, t)
    ensures PublishedSessions(Run(writes).published) == {s, t} && !SessionsArePublished(writes)
  {
    if !OneOf(MergeSession(Some(t), s), s, t) {
      writes := OverlayRun(s, t);
    } else {
      writes := RebuildRun(s, t);
    }
  }

  /**
    * The session stored is always one that some build of the run published, in every run whose builds
    * publish sessions among `sessions`, if and only if overlaying two of `sessions` either way always
    * gives one of the two.
    */
  lemma SessionsArePublishedExactlyWhen(sessions: set<Session>)
    ensures SessionsNeverMix(sessions) <==>
              forall writes | PublishedSessions(Run(writes).published) <= sessions :: SessionsArePublished(writes)
  {
    if SessionsNeverMix(sessions) {
      forall writes | PublishedSessions(Run(writes).published) <= sessions ensures SessionsArePublished(writes) {
        UnmixedRun(writes, sessions);
      }
    } else {
      var writes := MixedRun(sessions);
    }
  }

  /** A variable that a rebuild dropped stays stored, and no build ever published the two together. */
  lemma DroppedVariablesStay()
    ensures var first := Publication("a", LEGACY_PORTS, Session(Some("dev"), None, map["A" := "1"]));
            var second := Publication("b", LEGACY_PORTS, Session(None, None, map["B" := "2"]));
            var stored := Run(Builds(first, second)).Current().session;
            stored == Some(Session(None, None, map["A" := "1", "B" := "2"]))
  {
    var a, b := map["A" := "1"], map["B" := "2"];
    assert "B" in b && a + b == map["A" := "1", "B" := "2"];
    PublishTwice(Publication("a", LEGACY_PORTS, Session(Some("dev"), None, map["A" := "1"])),
                 Publication("b", LEGACY_PORTS, Session(None, None, map["B" := "2"])));
  }
}
