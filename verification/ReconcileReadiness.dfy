/**
  * What a stored phase `Running` promises. The controller skips its probe when the version it read
  * already says `Running`, so the promise rests on that version being about the same pod.
  */
module ReconcileReadiness {
  import opened Common
  import opened WorkshopStatus
  import opened Reconcile
  import opened ReconcileSafety
  import Probe = GuestProbe

  /** This incarnation was heard to answer on every door it has. */
  predicate HasAnswered(s: State, id: nat) {
    exists e | e in s.log :: e.Answered? && e.id == id
  }

  /** Between the creation of a pod and the write of that reconciliation. */
  predicate InCreation(pc: Pc) {
    pc.ReadingBack? || (pc.Deciding? && pc.created) || (pc.Writing? && pc.created)
  }

  /** What a run must respect for `Running` to be worth something. */
  datatype Rule =
    | WritesWhatItCreates     // the reconciliation that creates a pod goes on to write its status
    | CreatesNotRunning       // it reads the new pod back before that pod runs
    | ReadsFresh              // no later reconciliation reads a version older than that write
    | ReadsOwnWrites          // no reconciliation reads a version older than the last write of the controller

  const ALL: set<Rule> := {WritesWhatItCreates, CreatesNotRunning, ReadsFresh}

  const EVERY: set<Rule> := ALL + {ReadsOwnWrites}

  /** The first two, and one of the two about reads: the second is the stronger one. */
  predicate Enough(rules: set<Rule>) {
    WritesWhatItCreates in rules && CreatesNotRunning in rules && (ReadsFresh in rules || ReadsOwnWrites in rules)
  }

  predicate Obeys(s: State, a: Action, rules: set<Rule>) {
    && (WritesWhatItCreates in rules && a.Abort? ==> !InCreation(s.pc))
    && (CreatesNotRunning in rules && a.ReadBack? ==> s.pod.None? || !s.pod.value.running)
    && (a.StartReconcile? ==> MayRead(s, a.version, rules))
  }

  predicate MayRead(s: State, v: nat, rules: set<Rule>) {
    (ReadsFresh in rules ==> s.since <= v) && (ReadsOwnWrites in rules ==> s.written <= v)
  }

  predicate RunObeys(s: State, actions: seq<Action>, rules: set<Rule>)
    requires s.Shaped()
  {
    actions == [] ||
    (RunObeys(s, actions[..|actions| - 1], rules) && Obeys(Run(s, actions[..|actions| - 1]), actions[|actions| - 1], rules))
  }

  // ----- The invariant -----

  /** A version that says `Running` says it of a pod that answered. */
  predicate Truthful(s: State, v: nat)
    requires s.Shaped() && v < |s.versions|
  {
    s.Read(v).phase == Some(Running) && s.pod.Some? ==> HasAnswered(s, s.pod.value.id)
  }

  predicate Promises(s: State)
    requires s.Shaped()
  {
    && s.since <= s.written < |s.versions|
    && (!InCreation(s.pc) ==> forall v | s.since <= v < |s.versions| :: Truthful(s, v))
    && match s.pc
       case Idle => true
       case Deciding(v, current, created) =>
         s.since <= v && (created && current.Some? ==> !current.value.running)
       case Writing(v, status, created, _) =>
         && s.since <= v
         && (created ==> status.phase != Running)
         && (status.phase == Running && s.pod.Some? ==> HasAnswered(s, s.pod.value.id))
       case _ => s.since <= s.pc.v
  }

  /** What is still told of the same pod stays true. */
  lemma StaysTruthful(s: State, t: State, v: nat)
    requires Extends(s, t) && v < |s.versions| && Truthful(s, v)
    requires t.pod.Some? ==> s.pod.Some? && s.pod.value.id == t.pod.value.id
    requires s.log <= t.log
    ensures Truthful(t, v)
  {
    if HasAnswered(s, if s.pod.Some? then s.pod.value.id else 0) {
      var e :| e in s.log && e.Answered? && e.id == if s.pod.Some? then s.pod.value.id else 0;
      assert e in t.log;
    }
  }

  /** Steps that create no pod and add no `Running` keep every promise made so far. */
  lemma OldVersionsStayTruthful(s: State, a: Action)
    requires Inv(s) && Promises(s) && !InCreation(s.pc) && Obeys(s, a, ALL) && !a.CreatePod?
    ensures forall v | s.since <= v < |s.versions| :: Truthful(Step(s, a), v)
  {
    var t := Step(s, a);
    StepExtends(s, a);
    forall v | s.since <= v < |s.versions| ensures Truthful(t, v) {
      assert Truthful(s, v);
      StaysTruthful(s, t, v);
    }
  }

  lemma DecidePromises(s: State, a: Action)
    requires Inv(s) && Promises(s) && Obeys(s, a, ALL) && a.Decide? && s.pc.Deciding?
    ensures Promises(Step(s, a))
  {
    var t := Step(s, a);
    var read := s.Read(s.pc.v);
    if !s.pc.created {
      OldVersionsStayTruthful(s, a);
      assert Truthful(s, s.pc.v);
      assert Truthful(t, s.pc.v);
      if Probes(read, s.pc.current) && BothDoorsAnswer(GuestPorts(read), a.heard) {
        assert t.log[|s.log|].Answered? && t.log[|s.log|].id == s.pc.current.value.id;
        assert t.log[|s.log|] in t.log;
      }
    }
  }

  lemma WritePromises(s: State)
    requires Inv(s) && Promises(s) && s.pc.Writing?
    ensures Promises(Step(s, WriteStatus))
  {
    var t := Step(s, WriteStatus);
    if !s.pc.created {
      OldVersionsStayTruthful(s, WriteStatus);
    }
    assert Truthful(t, |s.versions|);
  }

  lemma EnvironmentPromises(s: State, a: Action)
    requires Inv(s) && Promises(s) && (a.SetDesired? || a.Publish? || a.Kubelet? || a.DeleteElsewhere? || a.Vanish?)
    ensures Promises(Step(s, a))
  {
    var t := Step(s, a);
    if !InCreation(s.pc) {
      OldVersionsStayTruthful(s, a);
      if |t.versions| > |s.versions| {
        assert Truthful(t, |s.versions| - 1);
        assert Truthful(t, |s.versions|);
      }
    }
  }

  /** Calls that write no status and hear nothing. */
  lemma QuietPromises(s: State, a: Action)
    requires Inv(s) && Promises(s) && Obeys(s, a, ALL)
    requires a.StartReconcile? || a.GetPod? || a.RequestSnapshot? || a.DeletePod? || a.BuildImage? || a.Abort?
    ensures Promises(Step(s, a))
  {
    if !InCreation(s.pc) {
      OldVersionsStayTruthful(s, a);
    }
  }

  lemma CreatePromises(s: State, a: Action)
    requires Inv(s) && Promises(s) && Obeys(s, a, ALL) && (a.CreatePod? || a.ReadBack?)
    ensures Promises(Step(s, a))
  {
  }

  lemma StepPromises(s: State, a: Action)
    requires Inv(s) && Promises(s) && Obeys(s, a, ALL)
    ensures Promises(Step(s, a))
  {
    match a
    case Decide(_) =>
      if s.pc.Deciding? {
        DecidePromises(s, a);
      }
    case WriteStatus =>
      if s.pc.Writing? {
        WritePromises(s);
      }
    case CreatePod => CreatePromises(s, a);
    case ReadBack => CreatePromises(s, a);
    case SetDesired(_) => EnvironmentPromises(s, a);
    case Publish(_) => EnvironmentPromises(s, a);
    case Kubelet(_, _) => EnvironmentPromises(s, a);
    case DeleteElsewhere => EnvironmentPromises(s, a);
    case Vanish => EnvironmentPromises(s, a);
    case _ => QuietPromises(s, a);
  }

  lemma EnoughIsAll(s: State, a: Action, rules: set<Rule>)
    requires Enough(rules) && Obeys(s, a, rules) && s.since <= s.written
    ensures Obeys(s, a, ALL)
  {
  }

  lemma {:induction false} RunPromises(s: State, actions: seq<Action>, rules: set<Rule>)
    requires Inv(s) && Promises(s) && Enough(rules) && RunObeys(s, actions, rules)
    ensures Promises(Run(s, actions))
  {
    if actions != [] {
      RunPromises(s, actions[..|actions| - 1], rules);
      RunKeepsInv(s, actions[..|actions| - 1]);
      EnoughIsAll(Run(s, actions[..|actions| - 1]), actions[|actions| - 1], rules);
      StepPromises(Run(s, actions[..|actions| - 1]), actions[|actions| - 1]);
    }
  }

  /** An answer of this pod is on record: on the ports stored, an SSH banner, and an HTTP response when the guest has a terminal. */
  predicate OnRecord(s: State, e: Event, id: nat)
    requires s.Shaped()
  {
    e.Answered? && e.id == id && e.v < |s.versions| && AnswerIsRight(s.Read(e.v), e.ports, e.terminal, e.ssh)
  }

  /** Outside the creation of a pod, a stored `Running` means that the pod in place answered. */
  predicate RunningIsTrue(s: State)
    requires s.Shaped()
  {
    !InCreation(s.pc) && s.Current().phase == Some(Running) && s.pod.Some? ==>
      exists e | e in s.log :: OnRecord(s, e, s.pod.value.id)
  }

  lemma PromisesAreTrue(s: State)
    requires Inv(s) && Promises(s)
    ensures RunningIsTrue(s)
  {
    if !InCreation(s.pc) && s.Current().phase == Some(Running) && s.pod.Some? {
      assert Truthful(s, |s.versions| - 1);
      var e :| e in s.log && e.Answered? && e.id == s.pod.value.id;
      var i :| 0 <= i < |s.log| && s.log[i] == e;
      assert EntryIsRight(s, i);
    }
  }

  /** In every run that respects the rules, `Running` is true. */
  lemma RunningMeansAnswered(name: string, desired: Desired, actions: seq<Action>, rules: set<Rule>)
    requires Enough(rules) && RunObeys(Start(name, desired), actions, rules)
    ensures RunningIsTrue(Run(Start(name, desired), actions))
  {
    RunPromises(Start(name, desired), actions, rules);
    RunIsSafe(name, desired, actions);
    PromisesAreTrue(Run(Start(name, desired), actions));
  }

  // ----- What a reconciliation says of the pod it sees -----

  /** The guest was heard on each of its doors. */
  predicate HeardOnAllDoors(read: Doc, h: Heard) {
    && [83, 83, 72, 45] <= Probe.Payload(h.ssh)
    && (HasTerminal(read) ==> [72, 84, 84, 80, 47] <= Probe.Payload(h.terminal))
  }

  /**
    * `Running` is said of a pod that runs, and either was already said, or is heard on the doors that the
    * version read has stored; otherwise `Resuming` after a suspension, and `Provisioning` in all other cases.
    */
  lemma PhaseIsTold(read: Doc, podName: string, current: Option<Pod>, h: Heard)
    ensures var phase := ParentPodStatus(read, podName, current, h).phase;
            && (phase == Running <==>
                  && current.Some? && current.value.running
                  && (read.phase == Some(Running) || (current.value.ip && HeardOnAllDoors(read, h))))
            && (phase == Resuming <==> phase != Running && (read.phase == Some(Suspended) || read.phase == Some(Suspending)))
            && (phase == Provisioning <==> phase != Running && phase != Resuming)
  {
  }

  // ----- None of the rules can be dropped -----

  /** The pod went away while a version that nobody has superseded says `Running`. */
  predicate Orphaned(s: State, v: nat)
    requires s.Shaped()
  {
    s.pc.Idle? && s.pod.None? && WantsRunning(s, v) && s.since <= s.written <= v && s.Read(v).phase == Some(Running)
  }

  /** A set of states that a run respecting `rules` does not leave. */
  ghost predicate Closed(reached: State -> bool, rules: set<Rule>) {
    forall s: State, a: Action | s.Shaped() && reached(s) && Obeys(s, a, rules) :: reached(Step(s, a))
  }

  lemma Follow(reached: State -> bool, s: State, a: Action, rules: set<Rule>)
    requires Closed(reached, rules) && s.Shaped() && reached(s) && Obeys(s, a, rules)
    ensures reached(Step(s, a))
  {
  }

  // The pieces of a run: creating, reading back, failing, looking, telling.

  function Created(s: State, v: nat): State {
    s.(pc := ReadingBack(v), pod := Some(Pod(s.incarnations, false, false, false)),
       incarnations := s.incarnations + 1, log := s.log + [Patched(s.incarnations, true, v)])
  }

  /** The kubelet reports the pod, if any, running. */
  function Busy(s: State): State {
    if s.pod.Some? then s.(pod := Some(s.pod.value.(running := true, ip := true))) else s
  }

  function Looking(s: State, v: nat, created: bool): State {
    s.(pc := Deciding(v, s.pod, created))
  }

  lemma CreateSteps(s: State, v: nat)
    requires s.Shaped() && s.pc.Idle? && s.pod.None? && WantsRunning(s, v)
    ensures Step(s, StartReconcile(v)) == s.(pc := Started(v))
    ensures Step(s.(pc := Started(v)), GetPod) == s.(pc := Creating(v))
    ensures Step(s.(pc := Creating(v)), CreatePod) == Created(s, v)
  {
  }

  lemma CreateRun(reached: State -> bool, s: State, v: nat, rules: set<Rule>)
    requires s.Shaped() && Closed(reached, rules) && reached(s)
    requires s.pc.Idle? && s.pod.None? && WantsRunning(s, v) && MayRead(s, v, rules)
    ensures reached(Created(s, v))
  {
    var s1 := s.(pc := Started(v));
    var s2 := s.(pc := Creating(v));
    CreateSteps(s, v);
    Follow(reached, s, StartReconcile(v), rules);
    Follow(reached, s1, GetPod, rules);
    Follow(reached, s2, CreatePod, rules);
  }

  lemma ReadBackRun(reached: State -> bool, s: State, rules: set<Rule>)
    requires s.Shaped() && Closed(reached, rules) && reached(s) && s.pc.ReadingBack?
    requires CreatesNotRunning in rules ==> s.pod.None? || !s.pod.value.running
    ensures reached(Looking(s, s.pc.v, true))
  {
    Follow(reached, s, ReadBack, rules);
  }

  lemma AbortRun(reached: State -> bool, s: State, rules: set<Rule>)
    requires s.Shaped() && Closed(reached, rules) && reached(s) && WritesWhatItCreates !in rules
    ensures reached(s.(pc := Idle))
  {
    Follow(reached, s, Abort, rules);
  }

  lemma BusyRun(reached: State -> bool, s: State, rules: set<Rule>)
    requires s.Shaped() && Closed(reached, rules) && reached(s)
    ensures reached(Busy(s))
  {
    Follow(reached, s, Kubelet(true, true), rules);
  }

  lemma LookRun(reached: State -> bool, s: State, v: nat, rules: set<Rule>)
    requires s.Shaped() && Closed(reached, rules) && reached(s)
    requires s.pc.Idle? && s.pod.Some? && WantsRunning(s, v) && MayRead(s, v, rules)
    ensures reached(Looking(s, v, false))
  {
    var s1 := s.(pc := Started(v));
    assert s1 == Step(s, StartReconcile(v)) && Looking(s, v, false) == Step(s1, GetPod);
    Follow(reached, s, StartReconcile(v), rules);
    Follow(reached, s1, GetPod, rules);
  }

  const SILENCE := Heard([], [], false, false)

  /** What deciding and writing leaves. */
  predicate Told(s: State, t: State, h: Heard)
    requires s.Shaped() && s.pc.Deciding? && s.pc.v < |s.versions|
  {
    && Extends(s, t) && t.pc.Idle? && t.pod == s.pod && t.incarnations == s.incarnations
    && |t.versions| == |s.versions| + 1
    && t.since == (if s.pc.created then |s.versions| else s.since) && t.written == |s.versions|
    && t.versions[|s.versions|].desired == s.versions[|s.versions| - 1].desired
    && t.Current().phase == Some(PodPhase(s.Read(s.pc.v), GuestReady(s.Read(s.pc.v), s.pc.current, h)))
    && t.Current().podName == Some(s.PodName())
    && t.Current().snapshotDigest == s.Read(s.pc.v).snapshotDigest.Or(s.Current().snapshotDigest)
    && (s.Read(s.pc.v).imageDigest.Some? ==> t.Current().imageDigest.Some?)
    && (h == SILENCE ==> t.log == s.log)
    && t.Current() == AfterUpdate(s.Current(), ParentPodStatus(s.Read(s.pc.v), s.PodName(), s.pc.current, h))
  }

  lemma SilenceIsNoAnswer(ports: Ports)
    ensures !BothDoorsAnswer(ports, SILENCE)
  {
    assert Probe.Payload([]) == [];
  }

  lemma DecideAndWrite(s: State, h: Heard)
    requires s.Shaped() && s.pc.Deciding? && s.pc.v < |s.versions|
    ensures Told(s, Step(Step(s, Decide(h)), WriteStatus), h)
  {
    SilenceIsNoAnswer(GuestPorts(s.Read(s.pc.v)));
    var s1 := Step(s, Decide(h));
    assert h == SILENCE ==> s1.log == s.log;
    assert s1.pc.status.phase == PodPhase(s.Read(s.pc.v), GuestReady(s.Read(s.pc.v), s.pc.current, h));
  }

  lemma TellRun(reached: State -> bool, s: State, h: Heard, rules: set<Rule>) returns (t: State)
    requires s.Shaped() && Closed(reached, rules) && reached(s)
    requires s.pc.Deciding? && s.pc.v < |s.versions|
    ensures Told(s, t, h) && reached(t)
  {
    DecideAndWrite(s, h);
    t := Step(Step(s, Decide(h)), WriteStatus);
    Follow(reached, s, Decide(h), rules);
    Follow(reached, Step(s, Decide(h)), WriteStatus, rules);
  }

  /** Resuming: a new pod is created, once, and told as `Resuming` whatever is heard, since it does not run yet. */
  lemma ResumeCreatesAPod(s: State, v: nat, h: Heard)
    requires s.Shaped() && s.pc.Idle? && s.pod.None? && WantsRunning(s, v)
    requires s.Read(v).phase == Some(Suspended) || s.Read(v).phase == Some(Suspending)
    ensures var created := Step(Step(Step(s, StartReconcile(v)), GetPod), CreatePod);
            var t := Step(Step(Step(created, ReadBack), Decide(h)), WriteStatus);
            && t.pod == Some(Pod(s.incarnations, false, false, false)) && t.incarnations == s.incarnations + 1
            && t.Current().phase == Some(Resuming) && t.Current().podName == Some(s.PodName())
  {
    CreateSteps(s, v);
    ReadBackStep(Created(s, v));
    DecideAndWrite(Looking(Created(s, v), v, true), h);
  }

  lemma ReadBackStep(s: State)
    requires s.Shaped() && s.pc.ReadingBack?
    ensures Step(s, ReadBack) == Looking(s, s.pc.v, true)
  {
  }

  // Three ways for a pod that never answered to be told `Running`.

  /** The log only speaks of pods created so far. */
  predicate IdsAreOld(s: State) {
    forall e | e in s.log :: e.id < s.incarnations
  }

  /** A `Running` about the pod that `s` created, of which the log only knows the creation. */
  lemma NewPodIsUnheard(s: State, v: nat, t: State)
    requires IdsAreOld(s) && t.Shaped() && t.log == Created(s, v).log
    requires t.pod.Some? && t.pod.value.id == s.incarnations
    requires t.pc.Idle? && t.Current().phase == Some(Running)
    ensures !RunningIsTrue(t)
  {
    forall e | e in t.log ensures !OnRecord(t, e, s.incarnations) {
      assert e in s.log || e == Patched(s.incarnations, true, v);
    }
  }

  lemma WithoutTheWrite(reached: State -> bool, s: State, v: nat, rules: set<Rule>) returns (t: State)
    requires WritesWhatItCreates !in rules && s.Shaped() && Orphaned(s, v) && IdsAreOld(s) && Closed(reached, rules) && reached(s)
    ensures t.Shaped() && reached(t) && !RunningIsTrue(t)
  {
    CreateRun(reached, s, v, rules);
    AbortRun(reached, Created(s, v), rules);
    var t1 := Created(s, v).(pc := Idle);
    BusyRun(reached, t1, rules);
    LookRun(reached, Busy(t1), v, rules);
    t := TellRun(reached, Looking(Busy(t1), v, false), SILENCE, rules);
    NewPodIsUnheard(s, v, t);
  }

  lemma WithoutAnIdlePod(reached: State -> bool, s: State, v: nat, rules: set<Rule>) returns (t: State)
    requires CreatesNotRunning !in rules && s.Shaped() && Orphaned(s, v) && IdsAreOld(s) && Closed(reached, rules) && reached(s)
    ensures t.Shaped() && reached(t) && !RunningIsTrue(t)
  {
    CreateRun(reached, s, v, rules);
    BusyRun(reached, Created(s, v), rules);
    ReadBackRun(reached, Busy(Created(s, v)), rules);
    t := TellRun(reached, Looking(Busy(Created(s, v)), v, true), SILENCE, rules);
    NewPodIsUnheard(s, v, t);
  }

  lemma WithoutFreshReads(reached: State -> bool, s: State, v: nat, rules: set<Rule>) returns (t: State)
    requires ReadsFresh !in rules && ReadsOwnWrites !in rules && s.Shaped() && Orphaned(s, v) && IdsAreOld(s) && Closed(reached, rules) && reached(s)
    ensures t.Shaped() && reached(t) && !RunningIsTrue(t)
  {
    CreateRun(reached, s, v, rules);
    ReadBackRun(reached, Created(s, v), rules);
    var t1 := TellRun(reached, Looking(Created(s, v), v, true), SILENCE, rules);
    BusyRun(reached, t1, rules);
    LookRun(reached, Busy(t1), v, rules);
    t := TellRun(reached, Looking(Busy(t1), v, false), SILENCE, rules);
    NewPodIsUnheard(s, v, t);
  }

  const FIRST_BUILD := Publication("sha256:0", LEGACY_PORTS, Session(None, None, map[]))

  const BOTH_ANSWER := Heard([Probe.Binary([Probe.DATA_CHANNEL] + Probe.Service.HttpResponse.Prefix())],
                             [Probe.Binary([Probe.DATA_CHANNEL] + Probe.Service.SshBanner.Prefix())], false, false)

  lemma TheyAnswer(ports: Ports)
    ensures BothDoorsAnswer(ports, BOTH_ANSWER)
  {
    Probe.Head(BOTH_ANSWER.terminal[0], []);
    Probe.Head(BOTH_ANSWER.ssh[0], []);
  }

  lemma BuildingRun(reached: State -> bool, s0: State, rules: set<Rule>) returns (s: State)
    requires Closed(reached, rules) && s0 == Start(s0.name, WantRunning) && reached(s0)
    ensures s.Shaped() && reached(s)
    ensures s.versions == [Version(WantRunning, 0), Version(WantRunning, 1)]
    ensures s.pc.Idle? && s.pod.None? && s.since == 0 && s.written == 1 && s.incarnations == 0
    ensures s.Current().phase == Some(BuildingImage)
  {
    BuildSteps(s0);
    Follow(reached, s0, StartReconcile(0), rules);
    Follow(reached, s0.(pc := Started(0)), BuildImage(None), rules);
    var s2 := s0.(pc := Writing(0, BuildStatus(EMPTY, None), false, None));
    Follow(reached, s2, WriteStatus, rules);
    s := Step(s2, WriteStatus);
  }

  lemma BuildSteps(s0: State)
    requires s0 == Start(s0.name, WantRunning)
    ensures Step(s0, StartReconcile(0)) == s0.(pc := Started(0))
    ensures Step(s0.(pc := Started(0)), BuildImage(None))
         == s0.(pc := Writing(0, BuildStatus(EMPTY, None), false, None))
  {
  }

  lemma BuiltRun(reached: State -> bool, s0: State, rules: set<Rule>) returns (s: State)
    requires Closed(reached, rules) && s0 == Start(s0.name, WantRunning) && reached(s0)
    ensures s.Shaped() && reached(s)
    ensures s.pc.Idle? && s.pod.None? && |s.versions| == 3 && WantsRunning(s, 2) && s.since == 0 && s.written == 1 && s.incarnations == 0
    ensures s.Read(2).phase == Some(BuildingImage)
  {
    var building := BuildingRun(reached, s0, rules);
    Follow(reached, building, Publish(FIRST_BUILD), rules);
    s := Step(building, Publish(FIRST_BUILD));
  }

  lemma StartedRun(reached: State -> bool, s0: State, rules: set<Rule>) returns (s: State)
    requires Closed(reached, rules) && s0 == Start(s0.name, WantRunning) && reached(s0)
    ensures s.Shaped() && reached(s)
    ensures s.pc.Idle? && s.pod == Some(Pod(0, false, false, false)) && s.incarnations == 1
    ensures |s.versions| == 4 && WantsRunning(s, 3) && s.since == 3 && s.written == 3
    ensures s.Read(3).phase != Some(Running)
  {
    var built := BuiltRun(reached, s0, rules);
    CreateRun(reached, built, 2, rules);
    ReadBackRun(reached, Created(built, 2), rules);
    s := TellRun(reached, Looking(Created(built, 2), 2, true), SILENCE, rules);
  }

  /** A Workshop built, started, used, whose pod then goes away: every rule respected. */
  lemma OrphansHappen(reached: State -> bool, s0: State, rules: set<Rule>) returns (s: State)
    requires Closed(reached, rules) && s0 == Start(s0.name, WantRunning) && reached(s0)
    ensures s.Shaped() && reached(s) && Orphaned(s, 4) && s.Current().phase == Some(Running)
  {
    var started := StartedRun(reached, s0, rules);
    BusyRun(reached, started, rules);
    LookRun(reached, Busy(started), 3, rules);
    TheyAnswer(GuestPorts(started.Read(3)));
    var told := TellRun(reached, Looking(Busy(started), 3, false), BOTH_ANSWER, rules);
    VanishRun(reached, told, rules);
    s := told.(pod := None);
  }

  lemma VanishRun(reached: State -> bool, s: State, rules: set<Rule>)
    requires s.Shaped() && Closed(reached, rules) && reached(s)
    ensures reached(s.(pod := None))
  {
    Follow(reached, s, Vanish, rules);
  }

  lemma DroppedRuleLies(reached: State -> bool, s: State, rules: set<Rule>) returns (t: State)
    requires Closed(reached, rules) && !Enough(rules)
    requires s.Shaped() && reached(s) && Orphaned(s, 4) && IdsAreOld(s)
    ensures t.Shaped() && reached(t) && !RunningIsTrue(t)
  {
    if WritesWhatItCreates !in rules {
      t := WithoutTheWrite(reached, s, 4, rules);
    } else if CreatesNotRunning !in rules {
      t := WithoutAnIdlePod(reached, s, 4, rules);
    } else {
      t := WithoutFreshReads(reached, s, 4, rules);
    }
  }

  /** Some run of a new Workshop that respects `rules` gets to `t`. */
  ghost predicate Reaches(name: string, rules: set<Rule>, t: State) {
    exists actions :: RunObeys(Start(name, WantRunning), actions, rules) && Run(Start(name, WantRunning), actions) == t
  }

  lemma ObeysSnoc(s: State, actions: seq<Action>, a: Action, rules: set<Rule>)
    requires s.Shaped() && RunObeys(s, actions, rules) && Obeys(Run(s, actions), a, rules)
    ensures RunObeys(s, actions + [a], rules) && Run(s, actions + [a]) == Step(Run(s, actions), a)
  {
    assert (actions + [a])[..|actions|] == actions;
  }

  lemma ReachesStep(name: string, rules: set<Rule>, actions: seq<Action>, a: Action)
    requires RunObeys(Start(name, WantRunning), actions, rules) && Obeys(Run(Start(name, WantRunning), actions), a, rules)
    ensures Reaches(name, rules, Step(Run(Start(name, WantRunning), actions), a))
  {
    ObeysSnoc(Start(name, WantRunning), actions, a, rules);
  }

  ghost function Reached(name: string, rules: set<Rule>): State -> bool {
    t => Reaches(name, rules, t)
  }

  lemma ReachedIdsAreOld(name: string, rules: set<Rule>, s: State)
    requires Reaches(name, rules, s)
    ensures IdsAreOld(s)
  {
    var actions := RunTo(name, rules, s);
    RunIsSafe(name, WantRunning, actions);
  }

  lemma ReachedIsClosed(name: string, rules: set<Rule>)
    ensures Closed(Reached(name, rules), rules) && Reached(name, rules)(Start(name, WantRunning))
    ensures forall s | Reached(name, rules)(s) :: IdsAreOld(s)
  {
    forall s | Reaches(name, rules, s) ensures IdsAreOld(s) {
      ReachedIdsAreOld(name, rules, s);
    }
    forall s: State, a: Action | s.Shaped() && Reaches(name, rules, s) && Obeys(s, a, rules) ensures Reaches(name, rules, Step(s, a)) {
      var actions := RunTo(name, rules, s);
      ReachesStep(name, rules, actions, a);
    }
    assert RunObeys(Start(name, WantRunning), [], rules);
  }

  lemma SomeRunLies(name: string, rules: set<Rule>) returns (actions: seq<Action>)
    requires !Enough(rules)
    ensures RunObeys(Start(name, WantRunning), actions, rules)
    ensures !RunningIsTrue(Run(Start(name, WantRunning), actions))
  {
    ReachedIsClosed(name, rules);
    var orphan := OrphansHappen(Reached(name, rules), Start(name, WantRunning), rules);
    var t := DroppedRuleLies(Reached(name, rules), orphan, rules);
    actions := RunTo(name, rules, t);
  }

  /** `Running` is stored, and the pod in place never answered. */
  predicate Unbacked(s: State)
    requires s.Shaped()
  {
    s.Current().phase == Some(Running) && s.pod.Some? && !HasAnswered(s, s.pod.value.id)
  }

  /** The exception is real: while a pod is being created, what is stored may still be about the one before. */
  lemma CreationIsAnException(name: string) returns (actions: seq<Action>)
    ensures RunObeys(Start(name, WantRunning), actions, EVERY)
    ensures var s := Run(Start(name, WantRunning), actions); InCreation(s.pc) && Unbacked(s)
  {
    ReachedIsClosed(name, EVERY);
    var t := CreatingRun(Reached(name, EVERY), Start(name, WantRunning), EVERY);
    actions := RunTo(name, EVERY, t);
  }

  lemma RunTo(name: string, rules: set<Rule>, t: State) returns (actions: seq<Action>)
    requires Reaches(name, rules, t)
    ensures RunObeys(Start(name, WantRunning), actions, rules) && Run(Start(name, WantRunning), actions) == t
  {
    actions :| RunObeys(Start(name, WantRunning), actions, rules) && Run(Start(name, WantRunning), actions) == t;
  }

  lemma CreatingRun(reached: State -> bool, s0: State, rules: set<Rule>) returns (t: State)
    requires Closed(reached, rules) && s0 == Start(s0.name, WantRunning) && reached(s0)
    requires forall s | reached(s) :: IdsAreOld(s)
    ensures t.Shaped() && reached(t) && InCreation(t.pc) && Unbacked(t)
  {
    var orphan := OrphansHappen(reached, s0, rules);
    CreateRun(reached, orphan, 4, rules);
    CreatedIsUnheard(orphan, 4);
    t := Created(orphan, 4);
  }

  lemma CreatedIsUnheard(s: State, v: nat)
    requires IdsAreOld(s)
    ensures !HasAnswered(Created(s, v), s.incarnations)
  {
    forall e | e in Created(s, v).log ensures !(e.Answered? && e.id == s.incarnations) {
      assert e in s.log || e == Patched(s.incarnations, true, v);
    }
  }

  /**
    * `Running` is true in all the runs that respect `rules` if and only if these have the two about
    * creation and one of the two about reads.
    */
  lemma RunningIsTrueExactlyUnderTheRules(name: string, rules: set<Rule>)
    ensures Enough(rules) <==>
              forall actions | RunObeys(Start(name, WantRunning), actions, rules) ::
                RunningIsTrue(Run(Start(name, WantRunning), actions))
  {
    if Enough(rules) {
      forall actions | RunObeys(Start(name, WantRunning), actions, rules)
        ensures RunningIsTrue(Run(Start(name, WantRunning), actions))
      {
        RunningMeansAnswered(name, WantRunning, actions, rules);
      }
    } else {
      var actions := SomeRunLies(name, rules);
    }
  }
}
