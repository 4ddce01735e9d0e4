/**
  * What the controller announces of a pod besides its phase: that an upgrade is due, and conditions. Neither is
  * ever taken back, contrary to what crates/controller/src/reconcile.rs says of a new pod.
  */
module ReconcileAnnouncements {
  import opened Common
  import opened WorkshopStatus
  import opened Reconcile
  import opened ReconcileSafety
  import opened ReconcileReadiness

  // ----- Exactly when something is announced -----

  datatype Announcement = UpgradeDue | ConditionSet(key: string)

  predicate Says(s: Status, what: Announcement) {
    match what
    case UpgradeDue => s.upgradeState.Some?
    case ConditionSet(key) => key in s.conditions
  }

  predicate Announced(d: Doc, what: Announcement) {
    match what
    case UpgradeDue => d.upgradeState.Some?
    case ConditionSet(key) => key in Entries(d.conditions)
  }

  /** This step writes a status that says so. */
  predicate Announces(s: State, a: Action, what: Announcement) {
    Writes(s, a) && Says(s.pc.status, what)
  }

  /** Some write of the run said so. */
  predicate EverAnnounced(s: State, actions: seq<Action>, what: Announcement)
    requires s.Shaped()
  {
    actions != [] &&
    (EverAnnounced(s, actions[..|actions| - 1], what) ||
     Announces(Run(s, actions[..|actions| - 1]), actions[|actions| - 1], what))
  }

  lemma StepAnnounces(s: State, a: Action, what: Announcement)
    requires s.Shaped()
    ensures Announced(Step(s, a).Current(), what) <==> Announced(s.Current(), what) || Announces(s, a, what)
  {
  }

  /** In every run, something is announced if and only if some write said so: nothing said later takes it back. */
  lemma {:induction false} AnnouncedExactlyWhenEverWritten(name: string, desired: Desired, actions: seq<Action>, what: Announcement)
    ensures Announced(Run(Start(name, desired), actions).Current(), what) <==>
              EverAnnounced(Start(name, desired), actions, what)
  {
    if actions != [] {
      AnnouncedExactlyWhenEverWritten(name, desired, actions[..|actions| - 1], what);
      StepAnnounces(Run(Start(name, desired), actions[..|actions| - 1]), actions[|actions| - 1], what);
    }
  }

  /** Each is said for its own cause: an outdated template, a lockdown of a pod with an address. */
  lemma SaysExactlyWhen(s: State, h: Heard, key: string)
    requires s.Shaped() && s.pc.Deciding? && s.pc.v < |s.versions|
    ensures var t := Step(s, Decide(h));
            var current := s.pc.current;
            && t.pc.Writing?
            && (Says(t.pc.status, UpgradeDue) <==> current.Some? && h.outdated)
            && (Says(t.pc.status, ConditionSet(key)) <==>
                  key == "SecurityLockdown" && current.Some? && current.value.ip && h.locked)
  {
  }

  /** While no image is known: a failed build is told with its message, and the pod's name is carried. */
  lemma BuildIsTold(s: State, v: nat, failure: Option<string>)
    requires s.Shaped() && s.pc == Started(v) && v < |s.versions|
    requires s.versions[v].desired == WantRunning && s.Read(v).imageDigest.None?
    ensures var stored := Step(Step(s, BuildImage(failure)), WriteStatus).Current();
            && stored.podName == s.Read(v).podName
            && stored.phase == Some(if failure.Some? then Failed else BuildingImage)
            && Entries(stored.conditions)
               == Entries(s.Current().conditions) + (if failure.Some? then map["ImageBuildFailed" := failure.value] else map[])
  {
  }

  // ----- A new pod is announced with what was said of the one before -----

  /** The reconciliation that creates a pod, and finds nothing to announce of it, leaves all that was announced. */
  lemma CreatingTakesNothingBack(s: State, v: nat, h: Heard, what: Announcement)
    requires s.Shaped() && s.pc.Idle? && s.pod.None? && WantsRunning(s, v) && Announced(s.Current(), what)
    requires !h.outdated && !h.locked
    ensures var created := Step(Step(Step(s, StartReconcile(v)), GetPod), CreatePod);
            var writing := Step(Step(created, ReadBack), Decide(h));
            && writing.pc.Writing? && !Says(writing.pc.status, what)
            && Announced(Step(writing, WriteStatus).Current(), what)
  {
    CreateSteps(s, v);
    ReadBackStep(Created(s, v));
    var looking := Looking(Created(s, v), v, true);
    assert Step(looking, Decide(h)).pc.status == ParentPodStatus(s.Read(v), s.PodName(), looking.pc.current, h);
    StepAnnounces(Step(looking, Decide(h)), WriteStatus, what);
  }

  const ALARM := Heard([], [], true, true)
  const LOCKDOWN := ConditionSet("SecurityLockdown")

  /** A pod of which both are announced. */
  lemma AlarmRun(reached: State -> bool, s0: State, rules: set<Rule>) returns (t: State)
    requires Closed(reached, rules) && s0 == Start(s0.name, WantRunning) && reached(s0)
    ensures t.Shaped() && reached(t) && t.pc.Idle? && t.incarnations == 1 && WantsRunning(t, 4) && MayRead(t, 4, rules)
    ensures Announced(t.Current(), UpgradeDue) && Announced(t.Current(), LOCKDOWN)
  {
    var started := StartedRun(reached, s0, rules);
    BusyRun(reached, started, rules);
    LookRun(reached, Busy(started), 3, rules);
    t := TellRun(reached, Looking(Busy(started), 3, false), ALARM, rules);
  }

  /** The controller is about to write what it found of the pod it has just created: nothing to announce. */
  predicate FoundNothing(s: State) {
    && s.pc.Writing? && s.pc.created && s.pod == Some(Pod(1, false, false, false))
    && !Says(s.pc.status, UpgradeDue) && !Says(s.pc.status, LOCKDOWN)
  }

  /** Then a new one of which neither is true. */
  lemma CalmRun(reached: State -> bool, s0: State, rules: set<Rule>) returns (t: State)
    requires Closed(reached, rules) && s0 == Start(s0.name, WantRunning) && reached(s0)
    ensures t.Shaped() && reached(t) && FoundNothing(t)
    ensures Announced(t.Current(), UpgradeDue) && Announced(t.Current(), LOCKDOWN)
  {
    var alarmed := AlarmRun(reached, s0, rules);
    VanishRun(reached, alarmed, rules);
    var gone := alarmed.(pod := None);
    CreateRun(reached, gone, 4, rules);
    ReadBackRun(reached, Created(gone, 4), rules);
    var looking := Looking(Created(gone, 4), 4, true);
    Follow(reached, looking, Decide(SILENCE), rules);
    t := Step(looking, Decide(SILENCE));
    DecideFinds(looking);
  }

  lemma DecideFinds(s: State)
    requires s.Shaped() && s.pc.Deciding? && s.pc.v < |s.versions|
    ensures var t := Step(s, Decide(SILENCE));
            && t.pc.Writing? && t.pc.created == s.pc.created && t.pod == s.pod && t.Current() == s.Current()
            && !Says(t.pc.status, UpgradeDue) && !Says(t.pc.status, LOCKDOWN)
  {
  }

  /**
    * A run of a new Workshop, every rule respected: an upgrade was due and a lockdown in force for its first
    * pod, neither is found of its second, just created, and once that is written both are still announced.
    */
  lemma AnnouncementsOutliveTheirPod(name: string) returns (actions: seq<Action>)
    ensures RunObeys(Start(name, WantRunning), actions, EVERY)
    ensures var s := Run(Start(name, WantRunning), actions);
            var written := Step(s, WriteStatus).Current();
            FoundNothing(s) && Announced(written, UpgradeDue) && Announced(written, LOCKDOWN)
  {
    ReachedIsClosed(name, EVERY);
    var t := CalmRun(Reached(name, EVERY), Start(name, WantRunning), EVERY);
    actions := RunTo(name, EVERY, t);
    StepAnnounces(t, WriteStatus, UpgradeDue);
    StepAnnounces(t, WriteStatus, LOCKDOWN);
  }
}
