/** What every run of the reconciler keeps, whatever fails and however old its reads are. */
module ReconcileSafety {
  import opened Common
  import opened WorkshopStatus
  import opened Reconcile
  import History = StatusHistory
  import Probe = GuestProbe

  // ----- The log of pod operations -----

  /** Each entry against what came before it. */
  predicate EntryIsRight(s: State, i: nat)
    requires s.Shaped() && i < |s.log|
  {
    match s.log[i]
    case Patched(id, creates, v) =>
      && creates
      && v < |s.versions| && s.versions[v].desired == WantRunning && s.Read(v).imageDigest.Some?
    case Asked(id, _) => Deleted(id) !in s.log[..i]
    case Deleted(id) => i > 0 && s.log[i - 1].Asked? && s.log[i - 1].id == id
    case Saved(id, snapshot) => i > 1 && s.log[i - 1] == Deleted(id) && s.log[i - 2] == Asked(id, snapshot)
    case Answered(id, v, ports, terminal, ssh) => v < |s.versions| && AnswerIsRight(s.Read(v), ports, terminal, ssh)
  }

  /**
    * The ports asked are those stored, or those of before ports were stored. The answers start with
    * `SSH-`, and with `HTTP/` where these ports have a terminal.
    */
  predicate AnswerIsRight(read: Doc, ports: Ports, terminal: seq<byte>, ssh: seq<byte>) {
    && (read.guestPorts.Some? ==> ports == read.guestPorts.value)
    && (read.guestPorts.None? ==> ports == Ports(2222, Some(7681), Some(8080)))
    && [83, 83, 72, 45] <= ssh
    && (HasTerminal(read) ==> [72, 84, 84, 80, 47] <= terminal)
  }

  predicate HasTerminal(read: Doc) {
    read.guestPorts.None? || read.guestPorts.value.terminal.Some?
  }

  predicate LogIsRight(s: State)
    requires s.Shaped()
  {
    forall i | 0 <= i < |s.log| :: EntryIsRight(s, i)
  }

  predicate EndsWith(log: seq<Event>, last: seq<Event>) {
    |last| <= |log| && log[|log| - |last|..] == last
  }

  // ----- The invariant -----

  predicate WantsRunning(s: State, v: nat)
    requires s.Shaped()
  {
    v < |s.versions| && s.versions[v].desired == WantRunning && s.Read(v).imageDigest.Some?
  }

  predicate WantsSuspended(s: State, v: nat) {
    v < |s.versions| && s.versions[v].desired == WantSuspended
  }

  /** No other incarnation than `id` can be there. */
  predicate OnlyPod(s: State, id: nat) {
    id < s.incarnations && (s.pod.Some? ==> s.pod.value.id == id)
  }

  predicate PcInv(s: State)
    requires s.Shaped()
  {
    match s.pc
    case Idle => true
    case Started(v) => v < |s.versions|
    case Asking(v, seen) => WantsSuspended(s, v) && OnlyPod(s, seen.id) && Deleted(seen.id) !in s.log
    case Deleting(v, id, snapshot) => WantsSuspended(s, v) && OnlyPod(s, id) && EndsWith(s.log, [Asked(id, snapshot)])
    case Creating(v) => WantsRunning(s, v) && s.pod.None?
    case ReadingBack(v) => WantsRunning(s, v)
    case Deciding(v, current, _) =>
      WantsRunning(s, v) && (if current.Some? then OnlyPod(s, current.value.id) else s.pod.None?)
    case Writing(v, status, _, deleted) =>
      && (deleted.Some? ==> EndsWith(s.log, [Asked(deleted.value, status.snapshotDigest), Deleted(deleted.value)]))
      && v < |s.versions| && History.Carries(s.Read(v), status)
      && (status.phase == Suspended ==> s.pod.None?)
      && (status.phase == Running ==> WantsRunning(s, v))
  }

  predicate PodInv(s: State) {
    && (s.pod.Some? ==> s.pod.value.id + 1 == s.incarnations)
    && (forall e | e in s.log :: e.id < s.incarnations)
    && (forall e | e in s.log && e.Deleted? :: s.pod.Some? && s.pod.value.id == e.id ==> s.pod.value.deleting)
  }

  predicate Inv(s: State) {
    s.Shaped() && PcInv(s) && PodInv(s) && LogIsRight(s)
  }

  // ----- Every step keeps it -----

  /** Versions and documents only grow, so what was read stays what it was. */
  predicate Extends(s: State, t: State) {
    && s.Shaped() && t.Shaped() && s.versions <= t.versions && s.world.history <= t.world.history
    && t.name == s.name
  }

  lemma ReadIsStable(s: State, t: State, v: nat)
    requires Extends(s, t) && v < |s.versions|
    ensures t.Read(v) == s.Read(v) && t.versions[v] == s.versions[v]
  {
  }

  lemma StepExtends(s: State, a: Action)
    requires s.Shaped()
    ensures Extends(s, Step(s, a))
  {
  }

  /** Old entries stay right as the object gets new versions and the log new entries. */
  lemma LogStaysRight(s: State, t: State, added: seq<Event>)
    requires Extends(s, t) && LogIsRight(s) && t.log == s.log + added && |added| <= 1
    requires added != [] ==> EntryIsRight(t, |s.log|)
    ensures LogIsRight(t)
  {
    forall i | 0 <= i < |t.log| ensures EntryIsRight(t, i) {
      if i < |s.log| {
        assert EntryIsRight(s, i);
        assert t.log[..i] == s.log[..i];
        if s.log[i].Patched? || s.log[i].Answered? {
          ReadIsStable(s, t, s.log[i].v);
        }
      }
    }
  }

  lemma EnvironmentKeeps(s: State, a: Action)
    requires Inv(s) && (a.SetDesired? || a.Publish? || a.Kubelet? || a.DeleteElsewhere? || a.Vanish?)
    ensures Inv(Step(s, a))
  {
    var t := Step(s, a);
    StepExtends(s, a);
    assert t.log == s.log + [];
    LogStaysRight(s, t, []);
    if !s.pc.Idle? {
      ReadIsStable(s, t, s.pc.v);
    }
  }

  lemma QuietKeeps(s: State, a: Action)
    requires Inv(s) && (a.StartReconcile? || a.GetPod? || a.BuildImage? || a.ReadBack? || a.Abort?)
    ensures Inv(Step(s, a))
  {
    var t := Step(s, a);
    StepExtends(s, a);
    assert t.log == s.log + [];
    LogStaysRight(s, t, []);
  }

  lemma AskKeeps(s: State, a: Action)
    requires Inv(s) && a.RequestSnapshot?
    ensures Inv(Step(s, a))
  {
    var t := Step(s, a);
    StepExtends(s, a);
    if s.pc.Asking? {
      assert t.log[..|s.log|] == s.log;
      LogStaysRight(s, t, [t.log[|s.log|]]);
      assert t.log[|s.log|].Asked? && t.log[|s.log|].id == s.pc.seen.id;
    }
  }

  lemma DeleteKeeps(s: State)
    requires Inv(s)
    ensures Inv(Step(s, DeletePod))
  {
    var t := Step(s, DeletePod);
    StepExtends(s, DeletePod);
    if s.pc.Deleting? && s.pod.Some? {
      assert t.log[..|s.log|] == s.log;
      LogStaysRight(s, t, [Deleted(s.pod.value.id)]);
    } else {
      assert t.log == s.log + [];
      LogStaysRight(s, t, []);
    }
  }

  lemma CreateKeeps(s: State)
    requires Inv(s)
    ensures Inv(Step(s, CreatePod))
  {
    var t := Step(s, CreatePod);
    StepExtends(s, CreatePod);
    if s.pc.Creating? {
      assert t.log[..|s.log|] == s.log;
      LogStaysRight(s, t, [Patched(s.incarnations, true, s.pc.v)]);
    }
  }

  lemma DecideKeeps(s: State, a: Action)
    requires Inv(s) && a.Decide?
    ensures Inv(Step(s, a))
  {
    var t := Step(s, a);
    StepExtends(s, a);
    if s.pc.Deciding? {
      assert t.log[..|s.log|] == s.log;
      assert t.log == s.log + t.log[|s.log|..];
      LogStaysRight(s, t, t.log[|s.log|..]);
    }
  }

  lemma WriteKeeps(s: State)
    requires Inv(s)
    ensures Inv(Step(s, WriteStatus))
  {
    var t := Step(s, WriteStatus);
    StepExtends(s, WriteStatus);
    assert t.log == s.log + t.log[|s.log|..] && t.log[..|s.log|] == s.log;
    LogStaysRight(s, t, t.log[|s.log|..]);
  }

  lemma StepKeepsInv(s: State, a: Action)
    requires Inv(s)
    ensures Inv(Step(s, a))
  {
    match a
    case RequestSnapshot(_) => AskKeeps(s, a);
    case DeletePod => DeleteKeeps(s);
    case CreatePod => CreateKeeps(s);
    case Decide(_) => DecideKeeps(s, a);
    case WriteStatus => WriteKeeps(s);
    case SetDesired(_) => EnvironmentKeeps(s, a);
    case Publish(_) => EnvironmentKeeps(s, a);
    case Kubelet(_, _) => EnvironmentKeeps(s, a);
    case DeleteElsewhere => EnvironmentKeeps(s, a);
    case Vanish => EnvironmentKeeps(s, a);
    case _ => QuietKeeps(s, a);
  }

  lemma {:induction false} RunKeepsInv(s: State, actions: seq<Action>)
    requires Inv(s)
    ensures Inv(Run(s, actions))
  {
    if actions != [] {
      RunKeepsInv(s, actions[..|actions| - 1]);
      StepKeepsInv(Run(s, actions[..|actions| - 1]), actions[|actions| - 1]);
    }
  }

  lemma RunIsSafe(name: string, desired: Desired, actions: seq<Action>)
    ensures Inv(Run(Start(name, desired), actions))
  {
    RunKeepsInv(Start(name, desired), actions);
  }

  // ----- Suspend and resume safety, over all runs -----

  /** The pod is only ever patched to create it, when the version read wants it and an image is known. */
  lemma CreatedOnlyWhenWanted(name: string, desired: Desired, actions: seq<Action>, i: nat)
    requires var s := Run(Start(name, desired), actions); i < |s.log| && s.log[i].Patched?
    ensures var s := Run(Start(name, desired), actions);
            s.log[i].creates && WantsRunning(s, s.log[i].v)
  {
    RunIsSafe(name, desired, actions);
    var s := Run(Start(name, desired), actions);
    assert EntryIsRight(s, i);
  }

  /** A pod the controller deletes was asked for a snapshot before, and is not asked again after. */
  lemma SnapshotBeforeDeletion(name: string, desired: Desired, actions: seq<Action>, i: nat)
    requires var s := Run(Start(name, desired), actions); i < |s.log| && s.log[i].Deleted?
    ensures var log := Run(Start(name, desired), actions).log;
            && (exists j | 0 <= j < i :: log[j].Asked? && log[j].id == log[i].id)
            && (forall j | i < j < |log| :: log[j].Asked? ==> log[j].id != log[i].id)
  {
    RunIsSafe(name, desired, actions);
    var s := Run(Start(name, desired), actions);
    assert EntryIsRight(s, i);
    forall j | i < j < |s.log| ensures s.log[j].Asked? ==> s.log[j].id != s.log[i].id {
      assert EntryIsRight(s, j);
      assert s.log[..j][i] == s.log[i];
    }
  }

  /** `Suspended` is computed, and written, only while there is no pod. */
  lemma SuspendedMeansNoPod(name: string, desired: Desired, actions: seq<Action>)
    ensures var s := Run(Start(name, desired), actions);
            s.pc.Writing? && s.pc.status.phase == Suspended ==> s.pod.None?
  {
    RunIsSafe(name, desired, actions);
  }

  /**
    * The statuses written in a run are a history of `StatusHistory`: all that is proved there
    * about stored values holds of the reconciler.
    */
  lemma {:induction false} WritesAreAStatusHistory(name: string, desired: Desired, actions: seq<Action>)
    returns (writes: seq<History.Write>)
    ensures Run(Start(name, desired), actions).world == History.Run(writes)
  {
    if actions == [] {
      return [];
    }
    writes := WritesAreAStatusHistory(name, desired, actions[..|actions| - 1]);
    RunIsSafe(name, desired, actions[..|actions| - 1]);
    writes := StepIsAStatusWrite(Run(Start(name, desired), actions[..|actions| - 1]), actions[|actions| - 1], writes);
  }

  lemma StepIsAStatusWrite(s: State, a: Action, writes: seq<History.Write>) returns (more: seq<History.Write>)
    requires Inv(s) && s.world == History.Run(writes)
    ensures Step(s, a).world == History.Run(more)
  {
    more := writes;
    if a.Publish? {
      History.RunSnoc(writes, History.Publish(a.publication));
      more := writes + [History.Publish(a.publication)];
    } else if a.WriteStatus? && s.pc.Writing? {
      more := writes + [History.Update(s.versions[s.pc.v].doc, s.pc.status)];
      UpdateIsAStatusWrite(s, writes);
    }
  }

  lemma UpdateIsAStatusWrite(s: State, writes: seq<History.Write>)
    requires Inv(s) && s.world == History.Run(writes) && s.pc.Writing?
    ensures Step(s, WriteStatus).world == History.Run(writes + [History.Update(s.versions[s.pc.v].doc, s.pc.status)])
  {
    History.RunSnoc(writes, History.Update(s.versions[s.pc.v].doc, s.pc.status));
  }

  // ----- Suspending converges -----

  function Rank(pod: Option<Pod>): nat {
    if pod.None? then 0 else if pod.value.deleting then 1 else 2
  }

  /** A reconciliation that starts reads a version that wants `Suspended`. */
  predicate ReadsSuspended(s: State, a: Action) {
    a.StartReconcile? ==> WantsSuspended(s, a.version)
  }

  predicate HeldSuspended(s: State, actions: seq<Action>)
    requires s.Shaped()
  {
    actions == [] ||
    (HeldSuspended(s, actions[..|actions| - 1]) &&
     ReadsSuspended(Run(s, actions[..|actions| - 1]), actions[|actions| - 1]))
  }

  predicate Writes(s: State, a: Action) {
    a.WriteStatus? && s.pc.Writing?
  }

  /** Some reconciliation of the segment went through. */
  predicate SomeWrite(s: State, actions: seq<Action>)
    requires s.Shaped()
  {
    actions != [] &&
    (SomeWrite(s, actions[..|actions| - 1]) || Writes(Run(s, actions[..|actions| - 1]), actions[|actions| - 1]))
  }

  /** The controller is somewhere in `ensure_suspended`; past the deletion no pod is live. */
  predicate Suspends(s: State) {
    match s.pc
    case Idle => true
    case Started(v) => WantsSuspended(s, v)
    case Asking(_, _) => true
    case Deleting(_, _, _) => true
    case Writing(_, _, _, _) => Rank(s.pod) <= 1
    case _ => false
  }

  lemma SuspendStep(s: State, a: Action)
    requires Inv(s) && Suspends(s) && ReadsSuspended(s, a)
    ensures Suspends(Step(s, a)) && Rank(Step(s, a).pod) <= Rank(s.pod)
    ensures Writes(s, a) ==> Rank(s.pod) <= 1
  {
  }

  /** While `Suspended` is wanted the pod never comes back, and one reconciliation that goes through ends it. */
  lemma {:induction false} RankNeverRises(s: State, actions: seq<Action>)
    requires Inv(s) && Suspends(s) && HeldSuspended(s, actions)
    ensures var t := Run(s, actions);
            Suspends(t) && Rank(t.pod) <= Rank(s.pod) && (SomeWrite(s, actions) ==> Rank(t.pod) <= 1)
  {
    if actions != [] {
      RankNeverRises(s, actions[..|actions| - 1]);
      RunKeepsInv(s, actions[..|actions| - 1]);
      SuspendStep(Run(s, actions[..|actions| - 1]), actions[|actions| - 1]);
    }
  }

  /** No pod, and the controller can only find that out. */
  predicate Absent(s: State) {
    s.pod.None? &&
    match s.pc
    case Idle => true
    case Started(v) => WantsSuspended(s, v)
    case Writing(_, status, _, _) => status.phase == Suspended && status.podName == None
    case _ => false
  }

  predicate StoredSuspended(s: State)
    requires s.Shaped()
  {
    s.Current().phase == Some(Suspended) && s.Current().podName == None
  }

  lemma AbsentStep(s: State, a: Action)
    requires Inv(s) && Absent(s) && ReadsSuspended(s, a)
    ensures Absent(Step(s, a))
    ensures Writes(s, a) || StoredSuspended(s) ==> StoredSuspended(Step(s, a))
  {
  }

  /** `Suspended` is stable, and one reconciliation that goes through reaches it. */
  lemma {:induction false} AbsentBecomesSuspended(s: State, actions: seq<Action>)
    requires Inv(s) && Absent(s) && HeldSuspended(s, actions)
    ensures var t := Run(s, actions);
            Absent(t) && (SomeWrite(s, actions) || StoredSuspended(s) ==> StoredSuspended(t))
  {
    if actions != [] {
      AbsentBecomesSuspended(s, actions[..|actions| - 1]);
      RunKeepsInv(s, actions[..|actions| - 1]);
      AbsentStep(Run(s, actions[..|actions| - 1]), actions[|actions| - 1]);
    }
  }

  /**
    * From an idle controller with `Suspended` wanted throughout, whatever else happens or fails: once one
    * reconciliation has gone through no pod is live; once that pod is gone and one more has gone
    * through, `Suspended` is stored, and stays stored.
    */
  lemma SuspendConverges(s: State, first: seq<Action>, t: State, second: seq<Action>, u: State, third: seq<Action>)
    requires Inv(s) && s.pc.Idle?
    requires HeldSuspended(s, first) && SomeWrite(s, first) && t == Run(s, first) && t.pc.Idle?
    requires var gone := t.(pod := None);
             HeldSuspended(gone, second) && SomeWrite(gone, second) && u == Run(gone, second)
    requires HeldSuspended(u, third)
    ensures Rank(t.pod) <= 1
    ensures u.pod.None? && StoredSuspended(u)
    ensures Run(u, third).pod.None? && StoredSuspended(Run(u, third))
  {
    RankNeverRises(s, first);
    RunKeepsInv(s, first);
    StepKeepsInv(t, Vanish);
    assert Step(t, Vanish) == t.(pod := None);
    AbsentBecomesSuspended(t.(pod := None), second);
    RunKeepsInv(t.(pod := None), second);
    AbsentBecomesSuspended(u, third);
  }

  /** The snapshot a suspension has to offer: that of a live pod it could ask, else the one it read of. */
  function Offered(s: State, v: nat, answer: Option<string>): Option<string>
    requires s.Shaped() && v < |s.versions|
  {
    if Rank(s.pod) < 2 then s.Read(v).snapshotDigest else if s.pod.value.ip then answer else None
  }

  /** What it does to a live pod, in this order. */
  function Suspension(s: State, v: nat, answer: Option<string>): seq<Event>
    requires s.Shaped() && v < |s.versions|
  {
    if Rank(s.pod) < 2 then []
    else
      var id, offered := s.pod.value.id, Offered(s, v, answer);
      [Asked(id, offered), Deleted(id), Saved(id, offered)]
  }

  /** What a reconciliation of a Workshop to suspend does to its pod, and stores, when no call fails. */
  predicate Lowered(s: State, v: nat, answer: Option<string>, t: State)
    requires s.Shaped() && v < |s.versions| && t.Shaped()
  {
    && t.pc.Idle? && Rank(t.pod) == Min(Rank(s.pod), 1)
    && t.Current().phase == Some(if s.pod.None? then Suspended else Suspending)
    && t.Current().podName == None
    && t.Current().snapshotDigest == Offered(s, v, answer).Or(s.Current().snapshotDigest)
    && t.log == s.log + Suspension(s, v, answer) && t.written == |s.versions| == |t.versions| - 1
    && t.versions[|s.versions|].desired == s.versions[|s.versions| - 1].desired && t.since == s.since
    && t.incarnations == s.incarnations && Extends(s, t)
    && (s.Current().imageDigest.Some? ==> t.Current().imageDigest.Some?)
  }

  lemma LiveIsLowered(s: State, v: nat, answer: Option<string>)
    requires s.Shaped() && WantsSuspended(s, v) && Rank(s.pod) == 2
    ensures var asking := AfterGet(s.(pc := Started(v)), v);
            Lowered(s, v, answer, Step(Step(Step(asking, RequestSnapshot(answer)), DeletePod), WriteStatus))
  {
  }

  lemma RestIsLowered(s: State, v: nat, answer: Option<string>)
    requires s.Shaped() && WantsSuspended(s, v) && Rank(s.pod) < 2
    ensures Lowered(s, v, answer, Step(AfterGet(s.(pc := Started(v)), v), WriteStatus))
  {
  }

  lemma GetComesFirst(s: State, v: nat)
    requires s.Shaped() && s.pc.Idle? && v < |s.versions|
    ensures Step(Step(s, StartReconcile(v)), GetPod) == AfterGet(s.(pc := Started(v)), v)
  {
  }

  /** Nothing blocks it: each such reconciliation lowers a live pod, and stores what it saw. */
  lemma SuspendProgresses(s: State, v: nat, answer: Option<string>)
    requires s.Shaped() && s.pc.Idle? && WantsSuspended(s, v)
    ensures var got := Step(Step(s, StartReconcile(v)), GetPod);
            Lowered(s, v, answer,
                    if Rank(s.pod) == 2 then Step(Step(Step(got, RequestSnapshot(answer)), DeletePod), WriteStatus)
                    else Step(got, WriteStatus))
  {
    GetComesFirst(s, v);
    if Rank(s.pod) == 2 {
      LiveIsLowered(s, v, answer);
    } else {
      RestIsLowered(s, v, answer);
    }
  }
}
