/**
  * Suspend, resume and readiness of one Workshop (crates/controller/src/reconcile.rs) as a state
  * machine. The controller takes one API call at a time; between any two of them the desired state
  * may flip, builds may publish, the parent pod may change, be deleted or vanish, and what the
  * controller reads of the Workshop may be any earlier version. Any call may fail.
  */
module Reconcile {
  import opened Common
  import opened WorkshopStatus
  import History = StatusHistory
  import Probe = GuestProbe

  datatype Desired = WantRunning | WantSuspended

  /** One version of the Workshop object: its spec, and which version of the status it carries. */
  datatype Version = Version(desired: Desired, doc: nat)

  /** One incarnation of the parent pod. */
  datatype Pod = Pod(id: nat, deleting: bool, running: bool, ip: bool)

  /** Where the controller is in one reconciliation; `v` is the version it read. */
  datatype Pc =
    | Idle
    | Started(v: nat)
    | Asking(v: nat, seen: Pod)
    | Deleting(v: nat, id: nat, snapshot: Option<string>)
    | Creating(v: nat)
    | ReadingBack(v: nat)
    | Deciding(v: nat, current: Option<Pod>, created: bool)
    | Writing(v: nat, status: Status, created: bool, deleted: Option<nat>)   // which pod this call created or deleted

  /** What the controller did to pods, and what it heard from guests. */
  datatype Event =
    | Patched(id: nat, creates: bool, v: nat)
    | Asked(id: nat, answer: Option<string>)           // for a snapshot, and what it answered
    | Saved(id: nat, snapshot: Option<string>)         // the write that ends the suspension of this pod
    | Deleted(id: nat)
    | Answered(id: nat, v: nat, ports: Ports, terminal: seq<byte>, ssh: seq<byte>)   // on the ports of this version

  datatype State = State(name: string, versions: seq<Version>, world: History.World, pod: Option<Pod>,
                         incarnations: nat, pc: Pc, log: seq<Event>,
                         since: nat,    // version written by the last reconciliation that created a pod
                         written: nat)  // version written by the last reconciliation
  {
    predicate Shaped() {
      && versions != [] && world.history != []
      && versions[|versions| - 1].doc == |world.history| - 1
      && forall i | 0 <= i < |versions| :: versions[i].doc < |world.history|
    }

    function Read(v: nat): Doc
      requires Shaped() && v < |versions|
    {
      world.history[versions[v].doc]
    }

    function Current(): Doc
      requires Shaped()
    {
      world.history[|world.history| - 1]
    }

    function PodName(): string {
      name + "-parent"
    }
  }

  function Start(name: string, desired: Desired): State {
    State(name, [Version(desired, 0)], History.START, None, 0, Idle, [], 0, 0)
  }

  // ----- Decisions of the controller -----

  function CarryForward(read: Doc, phase: Phase, digest: Option<string>): Status {
    Status(phase, read.podName, digest.Or(read.imageDigest), read.snapshotDigest, read.upgradeState,
           read.guestPorts, read.session, map[])
  }

  function SuspendedStatus(read: Doc, phase: Phase, snapshot: Option<string>): Status {
    CarryForward(read, phase, read.imageDigest).(snapshotDigest := snapshot, podName := None)
  }

  const BUILD_CONDITION := "ImageBuildFailed"

  /** While no digest is known; `failure` is the message of a build Job that failed. */
  function BuildStatus(read: Doc, failure: Option<string>): Status {
    CarryForward(read, if failure.Some? then Failed else BuildingImage, None)
    .(conditions := if failure.Some? then map[BUILD_CONDITION := failure.value] else map[])
  }

  function GuestPorts(read: Doc): Ports {
    if read.guestPorts.Some? then read.guestPorts.value else LEGACY_PORTS
  }

  /** What the controller hears once a pod exists: both probes, and its own other two checks. */
  datatype Heard = Heard(terminal: seq<Probe.Message>, ssh: seq<Probe.Message>, outdated: bool, locked: bool)

  predicate BothDoorsAnswer(ports: Ports, h: Heard) {
    && (ports.terminal.Some? ==> Probe.Answers(h.terminal, Probe.HttpResponse))
    && Probe.Answers(h.ssh, Probe.SshBanner)
  }

  predicate Probes(read: Doc, current: Option<Pod>) {
    current.Some? && current.value.running && read.phase != Some(Running) && current.value.ip
  }

  predicate GuestReady(read: Doc, current: Option<Pod>, h: Heard) {
    current.Some? && current.value.running &&
    (read.phase == Some(Running) || (current.value.ip && BothDoorsAnswer(GuestPorts(read), h)))
  }

  function PodPhase(read: Doc, ready: bool): Phase {
    if ready then Running
    else if read.phase == Some(Suspended) || read.phase == Some(Suspending) then Resuming
    else Provisioning
  }

  function ParentPodStatus(read: Doc, podName: string, current: Option<Pod>, h: Heard): Status {
    CarryForward(read, PodPhase(read, GuestReady(read, current, h)), read.imageDigest)
    .(podName := Some(podName),
      upgradeState := if current.Some? && h.outdated then Some(NeedsRestartForUpgrade) else None,
      conditions := if current.Some? && current.value.ip && h.locked then map["SecurityLockdown" := "true"] else map[])
  }

  // ----- Steps -----

  datatype Action =
    // the environment
    | SetDesired(desired: Desired)
    | Publish(publication: Publication)
    | Kubelet(running: bool, ip: bool)
    | DeleteElsewhere
    | Vanish
    // the controller
    | StartReconcile(version: nat)
    | GetPod
    | RequestSnapshot(answer: Option<string>)
    | DeletePod
    | BuildImage(failure: Option<string>)
    | CreatePod
    | ReadBack
    | Decide(heard: Heard)
    | WriteStatus
    | Abort

  function Environment(s: State, a: Action): (t: State)
    requires s.Shaped()
    ensures t.Shaped()
  {
    match a
    case SetDesired(d) => s.(versions := s.versions + [Version(d, |s.world.history| - 1)])
    case Publish(p) => if s.Current().phase.None? then s else NewDoc(s, History.Step(s.world, History.Publish(p)))
    case Kubelet(running, ip) =>
      if s.pod.Some? then s.(pod := Some(s.pod.value.(running := running, ip := ip))) else s
    case DeleteElsewhere => if s.pod.Some? then s.(pod := Some(s.pod.value.(deleting := true))) else s
    case Vanish => s.(pod := None)
    case _ => s
  }

  /** A status write makes a new version with the spec of the moment. */
  function NewDoc(s: State, world: History.World): State
    requires s.Shaped()
  {
    s.(world := world,
       versions := s.versions + [Version(s.versions[|s.versions| - 1].desired, |s.world.history|)])
  }

  /** What the read says to do: which call comes first. */
  function AfterGet(s: State, v: nat): (t: State)
    requires s.Shaped() && v < |s.versions|
    ensures t.Shaped()
  {
    var read := s.Read(v);
    if s.versions[v].desired == WantSuspended then
      match s.pod
      case None => s.(pc := Writing(v, SuspendedStatus(read, Suspended, read.snapshotDigest), false, None))
      case Some(pod) =>
        if pod.deleting
        then s.(pc := Writing(v, SuspendedStatus(read, Suspending, read.snapshotDigest), false, None))
        else s.(pc := Asking(v, pod))
    else if read.imageDigest.None? then s
    else if s.pod.Some? then s.(pc := Deciding(v, s.pod, false))
    else s.(pc := Creating(v))
  }

  function Heed(s: State, v: nat, current: Option<Pod>, created: bool, h: Heard): (t: State)
    requires s.Shaped() && v < |s.versions|
    ensures t.Shaped()
  {
    var read := s.Read(v);
    var answered :=
      if Probes(read, current) && BothDoorsAnswer(GuestPorts(read), h)
      then [Answered(current.value.id, v, GuestPorts(read), Probe.Payload(h.terminal), Probe.Payload(h.ssh))] else [];
    s.(pc := Writing(v, ParentPodStatus(read, s.PodName(), current, h), created, None), log := s.log + answered)
  }

  function Controller(s: State, a: Action): (t: State)
    requires s.Shaped()
    ensures t.Shaped()
  {
    match (a, s.pc)
    case (StartReconcile(v), Idle) => if v < |s.versions| then s.(pc := Started(v)) else s
    case (GetPod, Started(v)) => if v < |s.versions| then AfterGet(s, v) else s
    case (RequestSnapshot(answer), Asking(v, seen)) =>
      var snapshot := if seen.ip then answer else None;
      s.(pc := Deleting(v, seen.id, snapshot), log := s.log + [Asked(seen.id, snapshot)])
    case (DeletePod, Deleting(v, id, snapshot)) =>
      if v < |s.versions| && s.pod.Some?
      then s.(pod := Some(s.pod.value.(deleting := true)), log := s.log + [Deleted(s.pod.value.id)],
              pc := Writing(v, SuspendedStatus(s.Read(v), Suspending, snapshot), false, Some(s.pod.value.id)))
      else s.(pc := Idle)
    case (BuildImage(failure), Started(v)) =>
      if v < |s.versions| && s.versions[v].desired == WantRunning && s.Read(v).imageDigest.None?
      then s.(pc := Writing(v, BuildStatus(s.Read(v), failure), false, None)) else s
    case (CreatePod, Creating(v)) =>
      if s.pod.None?
      then s.(pod := Some(Pod(s.incarnations, false, false, false)), incarnations := s.incarnations + 1,
              log := s.log + [Patched(s.incarnations, true, v)], pc := ReadingBack(v))
      else s.(log := s.log + [Patched(s.pod.value.id, false, v)], pc := ReadingBack(v))
    case (ReadBack, ReadingBack(v)) => s.(pc := Deciding(v, s.pod, true))
    case (Decide(h), Deciding(v, current, created)) =>
      if v < |s.versions| then Heed(s, v, current, created, h) else s
    case (WriteStatus, Writing(v, status, created, deleted)) =>
      NewDoc(s, s.world.(history := s.world.history + [AfterUpdate(s.Current(), status)]))
      .(pc := Idle, since := if created then |s.versions| else s.since, written := |s.versions|,
        log := s.log + if deleted.Some? then [Saved(deleted.value, status.snapshotDigest)] else [])
    case (Abort, _) => s.(pc := Idle)
    case _ => s
  }

  function Step(s: State, a: Action): (t: State)
    requires s.Shaped()
    ensures t.Shaped()
  {
    if a.SetDesired? || a.Publish? || a.Kubelet? || a.DeleteElsewhere? || a.Vanish?
    then Environment(s, a) else Controller(s, a)
  }

  function Run(s: State, actions: seq<Action>): (r: State)
    requires s.Shaped()
    ensures r.Shaped()
  {
    if actions == [] then s
    else Step(Run(s, actions[..|actions| - 1]), actions[|actions| - 1])
  }
}
