/** Which pod a stored `snapshotDigest` is about. */
module ReconcileSnapshot {
  import opened Common
  import opened WorkshopStatus
  import opened Reconcile
  import opened ReconcileSafety
  import opened ReconcileReadiness

  // ----- Over all runs: some pod gave it -----

  /** A pod that was asked answered with this digest. */
  predicate Given(log: seq<Event>, digest: string) {
    exists e | e in log :: e.Asked? && e.answer == Some(digest)
  }

  predicate DigestGiven(log: seq<Event>, d: Option<string>) {
    d.Some? ==> Given(log, d.value)
  }

  predicate DigestsGiven(s: State) {
    && (forall i | 0 <= i < |s.world.history| :: DigestGiven(s.log, s.world.history[i].snapshotDigest))
    && (s.pc.Writing? ==> DigestGiven(s.log, s.pc.status.snapshotDigest))
  }

  lemma GivenStays(log: seq<Event>, more: seq<Event>, d: Option<string>)
    requires log <= more && DigestGiven(log, d)
    ensures DigestGiven(more, d)
  {
    if d.Some? {
      var e :| e in log && e.Asked? && e.answer == d;
      assert e in more;
    }
  }

  lemma StepExtendsLog(s: State, a: Action)
    requires s.Shaped()
    ensures s.log <= Step(s, a).log
  {
  }

  /** Where a status about to be written has its digest from. */
  lemma WritingDigest(s: State, a: Action)
    requires Inv(s) && DigestsGiven(s) && Step(s, a).pc.Writing?
    ensures DigestGiven(Step(s, a).log, Step(s, a).pc.status.snapshotDigest)
  {
    var t := Step(s, a);
    StepExtendsLog(s, a);
    if s.pc.Writing? {
      GivenStays(s.log, t.log, s.pc.status.snapshotDigest);
    } else if s.pc.Deleting? {
      assert s.log[|s.log| - 1] == Asked(s.pc.id, s.pc.snapshot);
      GivenStays(s.log, t.log, s.pc.snapshot);
    } else {
      GivenStays(s.log, t.log, s.Read(s.pc.v).snapshotDigest);
    }
  }

  /** A new version has the digest of the one before, or that of the status written. */
  lemma NewDigest(s: State, a: Action)
    requires s.Shaped()
    ensures var t := Step(s, a);
            || t.world.history == s.world.history
            || (&& |t.world.history| == |s.world.history| + 1 && s.world.history <= t.world.history
                && (|| t.Current().snapshotDigest == s.Current().snapshotDigest
                    || (s.pc.Writing? && t.Current().snapshotDigest == s.pc.status.snapshotDigest)))
  {
  }

  lemma StepKeepsGiven(s: State, a: Action)
    requires Inv(s) && DigestsGiven(s)
    ensures DigestsGiven(Step(s, a))
  {
    var t := Step(s, a);
    StepExtendsLog(s, a);
    NewDigest(s, a);
    forall i | 0 <= i < |t.world.history| ensures DigestGiven(t.log, t.world.history[i].snapshotDigest) {
      if i < |s.world.history| {
        GivenStays(s.log, t.log, s.world.history[i].snapshotDigest);
      } else {
        GivenStays(s.log, t.log, s.Current().snapshotDigest);
        if s.pc.Writing? {
          GivenStays(s.log, t.log, s.pc.status.snapshotDigest);
        }
      }
    }
    if t.pc.Writing? {
      WritingDigest(s, a);
    }
  }

  lemma {:induction false} RunKeepsGiven(s: State, actions: seq<Action>)
    requires Inv(s) && DigestsGiven(s)
    ensures DigestsGiven(Run(s, actions))
  {
    if actions != [] {
      RunKeepsGiven(s, actions[..|actions| - 1]);
      RunKeepsInv(s, actions[..|actions| - 1]);
      StepKeepsGiven(Run(s, actions[..|actions| - 1]), actions[|actions| - 1]);
    }
  }

  /** In every run, whatever is stale or fails, a stored digest is the answer of a pod that was asked. */
  lemma StoredDigestWasGiven(name: string, desired: Desired, actions: seq<Action>, i: nat)
    requires var s := Run(Start(name, desired), actions);
             i < |s.world.history| && s.world.history[i].snapshotDigest.Some?
    ensures var s := Run(Start(name, desired), actions);
            exists j | 0 <= j < |s.log| :: s.log[j].Asked? && s.log[j].answer == s.world.history[i].snapshotDigest
  {
    RunKeepsGiven(Start(name, desired), actions);
    var s := Run(Start(name, desired), actions);
    assert DigestGiven(s.log, s.world.history[i].snapshotDigest);
    var e :| e in s.log && e.Asked? && e.answer == s.world.history[i].snapshotDigest;
    var j :| 0 <= j < |s.log| && s.log[j] == e;
  }

  // ----- With fresh reads: exactly which -----

  /** The last snapshot that a suspension saved. */
  function LastSaved(log: seq<Event>): Option<string> {
    if log == [] then None
    else
      var e := log[|log| - 1];
      if e.Saved? && e.snapshot.Some? then e.snapshot else LastSaved(log[..|log| - 1])
  }

  lemma LastSavedSnoc(log: seq<Event>, e: Event)
    ensures LastSaved(log + [e]) == if e.Saved? && e.snapshot.Some? then e.snapshot else LastSaved(log)
  {
    assert (log + [e])[..|log|] == log;
  }

  predicate UpToDate(s: State, v: nat)
    requires s.Shaped() && v < |s.versions|
  {
    s.Read(v).snapshotDigest == LastSaved(s.log)
  }

  predicate Follows(s: State)
    requires s.Shaped()
  {
    && s.written < |s.versions|
    && (forall v | s.written <= v < |s.versions| :: UpToDate(s, v))
    && (!s.pc.Idle? ==> s.written <= s.pc.v)
    && (s.pc.Writing? && s.pc.deleted.None? ==> s.pc.status.snapshotDigest == LastSaved(s.log))
  }

  /** Only a write says that something was saved. */
  lemma OtherLogs(s: State, a: Action)
    requires s.Shaped() && !(a.WriteStatus? && s.pc.Writing?)
    ensures var t := Step(s, a);
            t.log == s.log || (|t.log| == |s.log| + 1 && s.log <= t.log && !t.log[|s.log|].Saved?)
  {
  }

  lemma OtherVersions(s: State, a: Action)
    requires s.Shaped() && !(a.WriteStatus? && s.pc.Writing?)
    ensures Step(s, a).written == s.written && |Step(s, a).versions| <= |s.versions| + 1
    ensures Step(s, a).Current().snapshotDigest == s.Current().snapshotDigest
  {
  }

  /** Steps other than a write leave what was saved alone. */
  lemma OtherSteps(s: State, a: Action)
    requires s.Shaped() && !(a.WriteStatus? && s.pc.Writing?)
    ensures LastSaved(Step(s, a).log) == LastSaved(s.log)
    ensures Step(s, a).written == s.written && |Step(s, a).versions| <= |s.versions| + 1
    ensures Step(s, a).Current().snapshotDigest == s.Current().snapshotDigest
  {
    OtherLogs(s, a);
    OtherVersions(s, a);
    var log := Step(s, a).log;
    if log != s.log {
      assert log == s.log + [log[|s.log|]];
      LastSavedSnoc(s.log, log[|s.log|]);
    }
  }

  lemma OtherKeepsVersions(s: State, a: Action, v: nat)
    requires Inv(s) && Follows(s) && !(a.WriteStatus? && s.pc.Writing?)
    requires s.written <= v < |Step(s, a).versions|
    ensures UpToDate(Step(s, a), v)
  {
    var t := Step(s, a);
    OtherSteps(s, a);
    StepExtends(s, a);
    assert UpToDate(s, |s.versions| - 1);
    if v < |s.versions| {
      assert UpToDate(s, v);
      ReadIsStable(s, t, v);
    } else {
      assert t.Read(v) == t.Current();
    }
  }

  /** A reconciliation keeps to the version it read. */
  lemma KeepsItsVersion(s: State, a: Action)
    requires s.Shaped() && Obeys(s, a, {ReadsOwnWrites}) && !(a.WriteStatus? && s.pc.Writing?)
    requires !s.pc.Idle? ==> s.written <= s.pc.v
    ensures !Step(s, a).pc.Idle? ==> s.written <= Step(s, a).pc.v
  {
  }

  /** The status that a reconciliation without a deletion is about to write has the digest it read. */
  lemma WritesWhatItRead(s: State, a: Action)
    requires s.Shaped() && !(a.WriteStatus? && s.pc.Writing?) && !s.pc.Writing?
    ensures var t := Step(s, a);
            t.pc.Writing? && t.pc.deleted.None? ==>
              !s.pc.Idle? && s.pc.v < |s.versions| && t.pc.status.snapshotDigest == s.Read(s.pc.v).snapshotDigest
  {
  }

  lemma StaysWriting(s: State, a: Action)
    requires s.Shaped() && s.pc.Writing? && !a.WriteStatus?
    ensures Step(s, a).pc == s.pc || Step(s, a).pc.Idle?
  {
  }

  lemma OtherKeepsStatus(s: State, a: Action)
    requires Inv(s) && Follows(s) && Obeys(s, a, {ReadsOwnWrites}) && !(a.WriteStatus? && s.pc.Writing?)
    ensures var t := Step(s, a);
            && (!t.pc.Idle? ==> s.written <= t.pc.v)
            && (t.pc.Writing? && t.pc.deleted.None? ==> t.pc.status.snapshotDigest == LastSaved(s.log))
  {
    KeepsItsVersion(s, a);
    if s.pc.Writing? {
      StaysWriting(s, a);
    } else {
      WritesWhatItRead(s, a);
      if !s.pc.Idle? && s.pc.v < |s.versions| {
        assert UpToDate(s, s.pc.v);
      }
    }
  }

  lemma OtherKeepsFollows(s: State, a: Action)
    requires Inv(s) && Follows(s) && Obeys(s, a, {ReadsOwnWrites}) && !(a.WriteStatus? && s.pc.Writing?)
    ensures Follows(Step(s, a))
  {
    OtherSteps(s, a);
    OtherKeepsStatus(s, a);
    StepExtends(s, a);
    forall v | s.written <= v < |Step(s, a).versions| ensures UpToDate(Step(s, a), v) {
      OtherKeepsVersions(s, a, v);
    }
  }

  lemma WriteEffect(s: State)
    requires s.Shaped() && s.pc.Writing?
    ensures var t := Step(s, WriteStatus);
            && t.pc.Idle? && t.written == |s.versions| && |t.versions| == |s.versions| + 1
            && t.Current().snapshotDigest == s.pc.status.snapshotDigest.Or(s.Current().snapshotDigest)
            && t.log == s.log + if s.pc.deleted.Some? then [Saved(s.pc.deleted.value, s.pc.status.snapshotDigest)] else []
  {
  }

  lemma FollowsIsCurrent(s: State)
    requires s.Shaped() && Follows(s)
    ensures s.Current().snapshotDigest == LastSaved(s.log)
  {
    assert UpToDate(s, |s.versions| - 1);
  }

  lemma WriteKeepsFollows(s: State)
    requires Inv(s) && Follows(s) && s.pc.Writing?
    ensures Follows(Step(s, WriteStatus))
  {
    var t := Step(s, WriteStatus);
    WriteEffect(s);
    FollowsIsCurrent(s);
    if s.pc.deleted.Some? {
      LastSavedSnoc(s.log, Saved(s.pc.deleted.value, s.pc.status.snapshotDigest));
    } else {
      assert t.log == s.log;
    }
    assert t.Read(|s.versions|) == t.Current();
  }

  lemma {:induction false} RunFollows(s: State, actions: seq<Action>, rules: set<Rule>)
    requires Inv(s) && Follows(s) && ReadsOwnWrites in rules && RunObeys(s, actions, rules)
    ensures Follows(Run(s, actions))
  {
    if actions != [] {
      var before, a := Run(s, actions[..|actions| - 1]), actions[|actions| - 1];
      RunFollows(s, actions[..|actions| - 1], rules);
      RunKeepsInv(s, actions[..|actions| - 1]);
      if a.WriteStatus? && before.pc.Writing? {
        WriteKeepsFollows(before);
      } else {
        OtherKeepsFollows(before, a);
      }
    }
  }

  /** In every run with fresh reads, what is stored is the last snapshot that a suspension saved, if any. */
  lemma StoredDigestIsTheLastSaved(name: string, desired: Desired, actions: seq<Action>, rules: set<Rule>)
    requires ReadsOwnWrites in rules && RunObeys(Start(name, desired), actions, rules)
    ensures var s := Run(Start(name, desired), actions); s.Current().snapshotDigest == LastSaved(s.log)
  {
    StartFollows(name, desired);
    RunFollows(Start(name, desired), actions, rules);
    FollowsIsCurrent(Run(Start(name, desired), actions));
  }

  lemma StartFollows(name: string, desired: Desired)
    ensures Inv(Start(name, desired)) && Follows(Start(name, desired))
  {
  }

  // ----- The last suspension -----

  /** The last pod that the controller deleted is that of entry `k`. */
  predicate IsLastDeletion(log: seq<Event>, k: nat) {
    k < |log| && log[k].Deleted? && forall j | k < j < |log| :: !log[j].Deleted?
  }

  /** What that pod had answered, just before. */
  function Answer(log: seq<Event>, k: nat): Option<string> {
    if 0 < k < |log| && log[k - 1].Asked? then log[k - 1].answer else None
  }

  /** The status of that suspension was written too. */
  predicate WentThrough(log: seq<Event>, k: nat) {
    k + 1 < |log| && log[k + 1].Saved?
  }

  lemma {:induction false} NothingSavedSince(log: seq<Event>, k: nat)
    requires k <= |log| && forall j | k <= j < |log| :: !log[j].Saved?
    ensures LastSaved(log) == LastSaved(log[..k])
  {
    if k == |log| {
      assert log[..k] == log;
    } else {
      var before := log[..|log| - 1];
      NothingSavedSince(before, k);
      LastSavedSnoc(before, log[|log| - 1]);
      assert log == before + [log[|log| - 1]] && before[..k] == log[..k];
    }
  }

  lemma LastSavedFrom(s: State, k: nat)
    requires Inv(s) && IsLastDeletion(s.log, k)
    ensures LastSaved(s.log) ==
            if WentThrough(s.log, k) then Answer(s.log, k).Or(LastSaved(s.log[..k])) else LastSaved(s.log[..k])
  {
    var log := s.log;
    assert EntryIsRight(s, k);
    forall j | k + 1 < j < |log| ensures !log[j].Saved? {
      assert EntryIsRight(s, j);
    }
    if WentThrough(log, k) {
      assert EntryIsRight(s, k + 1);
      NothingSavedSince(log, k + 2);
      LastSavedSnoc(log[..k + 1], log[k + 1]);
      assert log[..k + 2] == log[..k + 1] + [log[k + 1]];
    } else {
      NothingSavedSince(log, k + 1);
    }
    LastSavedSnoc(log[..k], log[k]);
    assert log[..k + 1] == log[..k] + [log[k]];
  }

  /**
    * After the last deletion of a pod, in every run with fresh reads: what that pod answered is stored if
    * its suspension went through to the write of its status and it did answer, and what was stored
    * before otherwise. So the digest stored is that of the last pod suspended if and only if its answer
    * was written, or is what was stored before.
    */
  lemma DescribesTheLastSuspensionExactlyWhen(name: string, desired: Desired, actions: seq<Action>, rules: set<Rule>, k: nat)
    requires ReadsOwnWrites in rules && RunObeys(Start(name, desired), actions, rules)
    requires IsLastDeletion(Run(Start(name, desired), actions).log, k)
    ensures var s := Run(Start(name, desired), actions);
            var answer, before := Answer(s.log, k), LastSaved(s.log[..k]);
            && 0 < k && s.log[k - 1] == Asked(s.log[k].id, answer)
            && s.Current().snapshotDigest == (if WentThrough(s.log, k) then answer.Or(before) else before)
            && (s.Current().snapshotDigest == answer <==> (WentThrough(s.log, k) && answer.Some?) || answer == before)
  {
    StoredDigestIsTheLastSaved(name, desired, actions, rules);
    RunIsSafe(name, desired, actions);
    var s := Run(Start(name, desired), actions);
    LastSavedFrom(s, k);
    assert EntryIsRight(s, k);
  }

  /** The same of one reconciliation: what is stored is what it had to offer, exactly when it had something or nothing was stored. */
  lemma OfferedIsStoredExactlyWhen(s: State, v: nat, answer: Option<string>)
    requires s.Shaped() && s.pc.Idle? && WantsSuspended(s, v) && Rank(s.pod) == 2
    ensures var got := Step(Step(s, StartReconcile(v)), GetPod);
            var t := Step(Step(Step(got, RequestSnapshot(answer)), DeletePod), WriteStatus);
            t.Current().snapshotDigest == Offered(s, v, answer) <==>
              Offered(s, v, answer).Some? || s.Current().snapshotDigest.None?
  {
    SuspendProgresses(s, v, answer);
  }

  // ----- A run where the comment fails -----

  lemma SetDesiredRun(reached: State -> bool, s: State, desired: Desired, rules: set<Rule>) returns (t: State)
    requires Closed(reached, rules) && s.Shaped() && reached(s)
    ensures t == s.(versions := s.versions + [Version(desired, |s.world.history| - 1)]) && t.Shaped() && reached(t)
  {
    Follow(reached, s, SetDesired(desired), rules);
    t := Step(s, SetDesired(desired));
  }

  lemma SuspendRun(reached: State -> bool, s: State, v: nat, answer: Option<string>, rules: set<Rule>) returns (t: State)
    requires Closed(reached, rules) && s.Shaped() && reached(s)
    requires s.pc.Idle? && WantsSuspended(s, v) && MayRead(s, v, rules)
    ensures t.Shaped() && reached(t) && Lowered(s, v, answer, t)
  {
    SuspendProgresses(s, v, answer);
    Follow(reached, s, StartReconcile(v), rules);
    Follow(reached, Step(s, StartReconcile(v)), GetPod, rules);
    var got := Step(Step(s, StartReconcile(v)), GetPod);
    GetComesFirst(s, v);
    if Rank(s.pod) == 2 {
      Follow(reached, got, RequestSnapshot(answer), rules);
      Follow(reached, Step(got, RequestSnapshot(answer)), DeletePod, rules);
      t := Step(Step(Step(got, RequestSnapshot(answer)), DeletePod), WriteStatus);
      Follow(reached, Step(Step(got, RequestSnapshot(answer)), DeletePod), WriteStatus, rules);
    } else {
      t := Step(got, WriteStatus);
      Follow(reached, got, WriteStatus, rules);
    }
  }

  /** A Workshop whose pod number `id` is live, at an address the controller knows. */
  predicate UpAndRunning(s: State, v: nat, id: nat) {
    && s.Shaped() && s.pc.Idle? && s.pod == Some(Pod(id, false, true, true)) && s.incarnations == id + 1
    && s.since <= s.written <= v && v == |s.versions| - 1 && s.Current().imageDigest.Some?
  }

  lemma FirstPodRun(reached: State -> bool, s0: State, rules: set<Rule>) returns (s: State)
    requires Closed(reached, rules) && s0 == Start(s0.name, WantRunning) && reached(s0)
    ensures reached(s) && UpAndRunning(s, 3, 0)
  {
    var started := StartedRun(reached, s0, rules);
    BusyRun(reached, started, rules);
    s := Busy(started);
    assert s.Read(3) == s.Current();
  }

  /** It is suspended, and what it answered is stored. */
  lemma SuspendAndGo(reached: State -> bool, s: State, v: nat, id: nat, answer: Option<string>, rules: set<Rule>)
    returns (t: State)
    requires Closed(reached, rules) && reached(s) && UpAndRunning(s, v, id)
    ensures t.Shaped() && reached(t) && t.pc.Idle? && t.pod.None? && t.incarnations == id + 1
    ensures |t.versions| == v + 3 && t.versions[v + 2].desired == WantSuspended && t.since <= t.written <= v + 2
    ensures t.Current().snapshotDigest == answer.Or(s.Current().snapshotDigest) && t.Current().imageDigest.Some?
    ensures t.Current().phase == Some(Suspending)
    ensures t.log == s.log + [Asked(id, answer), Deleted(id), Saved(id, answer)]
    ensures Extends(s, t)
  {
    var wanted := SetDesiredRun(reached, s, WantSuspended, rules);
    var lowered := SuspendRun(reached, wanted, v + 1, answer, rules);
    VanishRun(reached, lowered, rules);
    t := lowered.(pod := None);
  }

  /** It is resumed on a new pod. */
  lemma ResumeRun(reached: State -> bool, s: State, v: nat, rules: set<Rule>) returns (t: State)
    requires Closed(reached, rules) && s.Shaped() && reached(s)
    requires s.pc.Idle? && s.pod.None? && v == |s.versions| - 1 && s.since <= s.written <= v && s.Current().imageDigest.Some?
    ensures reached(t) && UpAndRunning(t, v + 2, s.incarnations)
    ensures t.Current().snapshotDigest == s.Current().snapshotDigest && Extends(s, t)
  {
    var wanted := SetDesiredRun(reached, s, WantRunning, rules);
    CreateRun(reached, wanted, v + 1, rules);
    ReadBackRun(reached, Created(wanted, v + 1), rules);
    var told := TellRun(reached, Looking(Created(wanted, v + 1), v + 1, true), SILENCE, rules);
    BusyRun(reached, told, rules);
    t := Busy(told);
  }

  /** Suspended with a snapshot, resumed, suspended again. */
  lemma TwoSuspensions(reached: State -> bool, s0: State, digest: string, answer: Option<string>, rules: set<Rule>)
    returns (t: State)
    requires Closed(reached, rules) && s0 == Start(s0.name, WantRunning) && reached(s0)
    ensures t.Shaped() && reached(t) && t.pc.Idle? && t.pod.None?
    ensures t.Current().snapshotDigest == answer.Or(Some(digest))
    ensures |t.log| > 0 && t.log[|t.log| - 1] == Saved(1, answer)
    ensures |t.versions| == 10 && t.versions[5].desired == WantSuspended && t.Read(5).snapshotDigest == Some(digest)
  {
    var first := FirstPodRun(reached, s0, rules);
    var gone := SuspendAndGo(reached, first, 3, 0, Some(digest), rules);
    var second := ResumeRun(reached, gone, 5, rules);
    t := SuspendAndGo(reached, second, 7, 1, answer, rules);
    ReadIsStable(gone, second, 5);
    ReadIsStable(second, t, 5);
    assert gone.Read(5) == gone.Current();
  }

  /** The last thing a run did to a pod was to save its suspension with this snapshot, or without one. */
  predicate EndsSuspended(s: State, id: nat, snapshot: Option<string>) {
    s.log != [] && s.log[|s.log| - 1] == Saved(id, snapshot)
  }

  /**
    * A run of a new Workshop, every rule respected: its first pod was suspended with a snapshot, its
    * second without, and the digest of the first is still stored.
    */
  lemma DigestOutlivesItsPod(name: string, digest: string) returns (actions: seq<Action>)
    ensures RunObeys(Start(name, WantRunning), actions, EVERY)
    ensures var s := Run(Start(name, WantRunning), actions);
            EndsSuspended(s, 1, None) && s.Current().snapshotDigest == Some(digest)
  {
    ReachedIsClosed(name, EVERY);
    var t := TwoSuspensions(Reached(name, EVERY), Start(name, WantRunning), digest, None, EVERY);
    actions := RunTo(name, EVERY, t);
  }

  /** A suspension that fails after the pod is deleted and before its status is written. */
  lemma LoseTheWrite(reached: State -> bool, s: State, v: nat, id: nat, answer: Option<string>, rules: set<Rule>)
    returns (t: State)
    requires Closed(reached, rules) && reached(s) && UpAndRunning(s, v, id)
    ensures reached(t)
    ensures t == s.(versions := s.versions + [Version(WantSuspended, |s.world.history| - 1)], pod := None,
                    log := s.log + [Asked(id, answer)] + [Deleted(id)])
  {
    var wanted := SetDesiredRun(reached, s, WantSuspended, rules);
    var lost := DeleteAndFail(reached, wanted, v + 1, id, answer, rules);
    VanishRun(reached, lost, rules);
    t := lost.(pod := None);
  }

  lemma DeleteAndFail(reached: State -> bool, s: State, v: nat, id: nat, answer: Option<string>, rules: set<Rule>)
    returns (t: State)
    requires Closed(reached, rules) && reached(s) && s.Shaped() && s.pc.Idle? && WantsSuspended(s, v)
    requires s.pod == Some(Pod(id, false, true, true)) && MayRead(s, v, rules)
    ensures reached(t)
    ensures t == s.(pod := Some(Pod(id, true, true, true)), log := s.log + [Asked(id, answer)] + [Deleted(id)])
  {
    AskStep(s, v, id, answer);
    Follow(reached, s, StartReconcile(v), rules);
    Follow(reached, s.(pc := Started(v)), GetPod, rules);
    Follow(reached, s.(pc := Asking(v, s.pod.value)), RequestSnapshot(answer), rules);
    var asked := s.(pc := Deleting(v, id, answer), log := s.log + [Asked(id, answer)]);
    FailStep(asked, v, id, answer);
    Follow(reached, asked, DeletePod, rules);
    t := Step(Step(asked, DeletePod), Abort);
    Follow(reached, Step(asked, DeletePod), Abort, rules);
  }

  lemma AskStep(s: State, v: nat, id: nat, answer: Option<string>)
    requires s.Shaped() && s.pc.Idle? && WantsSuspended(s, v) && s.pod == Some(Pod(id, false, true, true))
    ensures Step(s, StartReconcile(v)) == s.(pc := Started(v))
    ensures Step(s.(pc := Started(v)), GetPod) == s.(pc := Asking(v, s.pod.value))
    ensures Step(s.(pc := Asking(v, s.pod.value)), RequestSnapshot(answer))
         == s.(pc := Deleting(v, id, answer), log := s.log + [Asked(id, answer)])
  {
  }

  lemma FailStep(s: State, v: nat, id: nat, snapshot: Option<string>)
    requires s.Shaped() && s.pc == Deleting(v, id, snapshot) && v < |s.versions| && s.pod == Some(Pod(id, false, true, true))
    ensures !InCreation(Step(s, DeletePod).pc)
    ensures Step(Step(s, DeletePod), Abort)
         == s.(pc := Idle, pod := Some(Pod(id, true, true, true)), log := s.log + [Deleted(id)])
  {
  }

  lemma LostSuspension(reached: State -> bool, s0: State, older: string, newer: string, rules: set<Rule>) returns (t: State)
    requires Closed(reached, rules) && s0 == Start(s0.name, WantRunning) && reached(s0)
    ensures t.Shaped() && reached(t) && t.pod.None?
    ensures EndsWith(t.log, [Asked(1, Some(newer)), Deleted(1)])
    ensures t.Current().phase == Some(Suspended) && t.Current().snapshotDigest == Some(older)
  {
    var first := FirstPodRun(reached, s0, rules);
    var gone := SuspendAndGo(reached, first, 3, 0, Some(older), rules);
    var second := ResumeRun(reached, gone, 5, rules);
    var lost := LoseTheWrite(reached, second, 7, 1, Some(newer), rules);
    t := SuspendRun(reached, lost, 8, None, rules);
    assert t.log == lost.log;
  }

  /**
    * The write of a suspension can be lost: the last pod gave a snapshot, every rule was respected, and the
    * Workshop ends suspended with the digest of the pod before.
    */
  lemma SnapshotIsLostWithItsWrite(name: string, older: string, newer: string) returns (actions: seq<Action>)
    ensures RunObeys(Start(name, WantRunning), actions, EVERY)
    ensures var s := Run(Start(name, WantRunning), actions);
            && EndsWith(s.log, [Asked(1, Some(newer)), Deleted(1)])
            && s.Current().phase == Some(Suspended) && s.Current().snapshotDigest == Some(older)
  {
    ReachedIsClosed(name, EVERY);
    var t := LostSuspension(Reached(name, EVERY), Start(name, WantRunning), older, newer, EVERY);
    actions := RunTo(name, EVERY, t);
  }

  lemma StaleSuspension(reached: State -> bool, s0: State, older: string, newer: string, rules: set<Rule>) returns (t: State)
    requires Closed(reached, rules) && s0 == Start(s0.name, WantRunning) && reached(s0)
    requires ReadsFresh !in rules && ReadsOwnWrites !in rules
    ensures t.Shaped() && reached(t) && EndsSuspended(t, 1, Some(newer)) && t.Current().snapshotDigest == Some(older)
  {
    var s := TwoSuspensions(reached, s0, older, Some(newer), rules);
    t := SuspendRun(reached, s, 5, None, rules);
    assert t.log == s.log + [] == s.log;
  }

  /** Without fresh reads an older digest can come back over a newer one. */
  lemma StaleReadBringsADigestBack(name: string, older: string, newer: string) returns (actions: seq<Action>)
    ensures var s := Run(Start(name, WantRunning), actions);
            EndsSuspended(s, 1, Some(newer)) && s.Current().snapshotDigest == Some(older)
  {
    var rules := {WritesWhatItCreates, CreatesNotRunning};
    ReachedIsClosed(name, rules);
    var t := StaleSuspension(Reached(name, rules), Start(name, WantRunning), older, newer, rules);
    actions := RunTo(name, rules, t);
  }
}
