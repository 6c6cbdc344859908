/** Resumable shutdown of a service: a phase cursor and the cleanup jobs outlive the `stop`
    callers that time out, are dropped, race each other or retry.

    `Apply` gives the steps of the shutdown as a step system over all runs; `ServiceApp.Stop`
    is the code, and every activation of it, however it ends, is a run of that system. */
module ServiceShutdown {
  import opened Runs

  datatype AppState = Created | Starting | Running | Stopping | Stopped

  // How a spawned task returned: Ok, Err(ContextCancelled), or any other error or a panic.
  datatype Exit = Done | Cancelled | Broken

  // What a cleanup job stops.
  datatype Resource =
    | Source(i: nat) | Component(i: nat)
    | Pool(i: nat) | PriorityPool(i: nat) | DelayPool | Storage(i: nat)
    | ParallelRegistry | Sink(i: nat) | RuntimeMetrics | Metrics | Tracing | Logs

  // `handle` is the JoinHandle slot. `live` counts tasks of the job that have not returned,
  // held or not. `ok`, `launches` and `cancels` record what the job's tasks did.
  datatype Job = Job(
    owner: Resource, handle: bool, exit: Option<Exit>, completed: bool,
    live: nat, launches: nat, cancels: nat, ok: bool)

  // A server slot: empty, or a JoinHandle of a running or a finished server task.
  datatype Server = Empty | Serving | Exited(fine: bool)

  datatype App = App(
    state: AppState, grpc: Server, http: Server,
    built: bool, phases: seq<seq<Job>>, phase: nat, failed: bool)

  /** What a service owns; it decides the jobs of each phase. */
  datatype Resources = Resources(
    sources: nat, components: nat, pools: nat, priorityPools: nat, storages: nat, sinks: nat)

  function NewJob(owner: Resource): Job {
    Job(owner, false, None, false, 0, 0, 0, false)
  }

  function Jobs(n: nat, owner: nat -> Resource): (jobs: seq<Job>)
    ensures |jobs| == n && forall i :: 0 <= i < n ==> jobs[i] == NewJob(owner(i))
  {
    seq(n, i requires 0 <= i < n => NewJob(owner(i)))
  }

  /** Admission, runtime, parallel registry, sinks, runtime metrics, metrics, tracing, logs. */
  function ShutdownPhases(r: Resources): (phases: seq<seq<Job>>) {
    var admission := Jobs(r.sources, (i: nat) => Source(i)) + Jobs(r.components, (i: nat) => Component(i));
    var runtime := Jobs(r.pools, (i: nat) => Pool(i)) + Jobs(r.priorityPools, (i: nat) => PriorityPool(i))
                   + [NewJob(DelayPool)] + Jobs(r.storages, (i: nat) => Storage(i));
    [ admission, runtime, [NewJob(ParallelRegistry)], Jobs(r.sinks, (i: nat) => Sink(i)),
      [NewJob(RuntimeMetrics)], [NewJob(Metrics)], [NewJob(Tracing)], [NewJob(Logs)] ]
  }

  datatype Label =
    | StartBegins
    | StartReturns(grpc: bool, http: bool)
    | ServerExits(isGrpc: bool, fine: bool)
    | JobReturns(p: nat, j: nat, jobExit: Exit)
    | StopCreated
    | StopEnters
    | ServerDrained(isGrpc: bool)
    | PhasesBuilt(resources: Resources)
    | JobLaunched(p: nat, j: nat)
    | JobObserved(p: nat, j: nat)
    | PhaseAdvanced
    | StopCompletes

  // ---- Steps ----

  predicate HasJob(s: App, p: nat, j: nat) {
    s.built && p < |s.phases| && j < |s.phases[p]|
  }

  function SetJob(s: App, p: nat, j: nat, job: Job): App
    requires HasJob(s, p, j)
  {
    s.(phases := s.phases[p := s.phases[p][j := job]])
  }

  function ServerOf(s: App, isGrpc: bool): Server {
    if isGrpc then s.grpc else s.http
  }

  function SetServer(s: App, isGrpc: bool, server: Server): App {
    if isGrpc then s.(grpc := server) else s.(http := server)
  }

  predicate Enabled(s: App, l: Label) {
    match l
    case StartBegins => s.state == Created
    case StartReturns(_, _) => s.state == Starting
    case ServerExits(isGrpc, _) => ServerOf(s, isGrpc) == Serving
    case JobReturns(p, j, _) => HasJob(s, p, j) && s.phases[p][j].live > 0
    case StopCreated => s.state == Created
    case StopEnters => s.state == Running
    case ServerDrained(isGrpc) => s.state == Stopping && !s.failed && ServerOf(s, isGrpc).Exited?
    case PhasesBuilt(_) => s.state == Stopping && !s.failed && !s.built && s.grpc == s.http == Empty
    case JobLaunched(p, j) =>
      && s.state == Stopping && !s.failed && p == s.phase && HasJob(s, p, j)
      && !s.phases[s.phase][j].completed && !s.phases[s.phase][j].handle
    case JobObserved(p, j) =>
      && s.state == Stopping && !s.failed && p == s.phase && HasJob(s, p, j)
      && s.phases[s.phase][j].handle && s.phases[s.phase][j].exit.Some?
    case PhaseAdvanced =>
      && s.state == Stopping && !s.failed && s.built && s.phase < |s.phases|
      && forall j :: 0 <= j < |s.phases[s.phase]| ==> s.phases[s.phase][j].completed
    case StopCompletes => s.state == Stopping && !s.failed && s.built && s.phase == |s.phases|
  }

  function Launch(job: Job): Job {
    job.(handle := true, live := job.live + 1, launches := job.launches + 1)
  }

  function Return(job: Job, exit: Exit): Job
    requires job.live > 0
  {
    job.(live := job.live - 1, exit := Some(exit), ok := job.ok || exit == Done,
         cancels := job.cancels + if exit == Cancelled then 1 else 0)
  }

  function Observe(job: Job): Job
    requires job.exit.Some?
  {
    job.(handle := false, exit := None, completed := job.exit.value == Done)
  }

  function Apply(s: App, l: Label): App
    requires Enabled(s, l)
  {
    match l
    case StartBegins => s.(state := Starting)
    case StartReturns(grpc, http) =>
      s.(state := Running, grpc := if grpc then Serving else s.grpc, http := if http then Serving else s.http)
    case ServerExits(isGrpc, fine) => SetServer(s, isGrpc, Exited(fine))
    case JobReturns(p, j, exit) => SetJob(s, p, j, Return(s.phases[p][j], exit))
    case StopCreated => s.(state := Stopped)
    case StopEnters => s.(state := Stopping)
    case ServerDrained(isGrpc) =>
      SetServer(s, isGrpc, Empty).(failed := !ServerOf(s, isGrpc).fine)
    case PhasesBuilt(r) => s.(built := true, phases := ShutdownPhases(r))
    case JobLaunched(p, j) => SetJob(s, p, j, Launch(s.phases[p][j]))
    case JobObserved(p, j) =>
      SetJob(s, p, j, Observe(s.phases[p][j])).(failed := s.phases[p][j].exit.value == Broken)
    case PhaseAdvanced => s.(phase := s.phase + 1)
    case StopCompletes => s.(state := Stopped)
  }

  const Initial := App(Created, Empty, Empty, false, [], 0, false)

  // ---- Runs ----

  function Step(s: App, l: Label): Option<App> {
    if Enabled(s, l) then Some(Apply(s, l)) else None
  }

  ghost predicate Feasible(ls: seq<Label>) {
    Run(Step, Initial, ls).Some?
  }

  ghost function After(ls: seq<Label>): App
    requires Feasible(ls)
  {
    Run(Step, Initial, ls).value
  }

  // ---- Invariant ----

  predicate JobInv(job: Job, failed: bool) {
    && job.live == (if job.handle && job.exit.None? then 1 else 0)
    && (job.exit.Some? ==> job.handle)
    && (job.completed ==> !job.handle && job.ok && job.launches == job.cancels + 1)
    && (job.exit == Some(Done) ==> job.ok)
    && job.launches <= job.cancels + 1
    && (!job.handle && !job.completed && !failed ==> job.launches == job.cancels)
    && (job.handle ==> job.launches == job.cancels + if job.exit == Some(Cancelled) then 0 else 1)
  }

  predicate PhaseFresh(jobs: seq<Job>) {
    forall j :: 0 <= j < |jobs| ==> jobs[j] == NewJob(jobs[j].owner)
  }

  predicate PhaseDone(jobs: seq<Job>) {
    forall j :: 0 <= j < |jobs| ==> jobs[j].completed
  }

  ghost predicate Inv(s: App) {
    && (s.built ==> s.grpc == s.http == Empty && (s.state == Stopping || s.state == Stopped))
    && (!s.built ==> s.phases == [] && s.phase == 0)
    && s.phase <= |s.phases|
    && (forall p :: 0 <= p < s.phase ==> PhaseDone(s.phases[p]))
    && (forall p :: s.phase < p < |s.phases| ==> PhaseFresh(s.phases[p]))
    && (forall p, j :: 0 <= p < |s.phases| && 0 <= j < |s.phases[p]| ==> JobInv(s.phases[p][j], s.failed))
    && (s.failed ==> s.state == Stopping)
    && (s.state == Stopped && s.built ==> s.phase == |s.phases|)
    && (s.state == Created || s.state == Starting || s.state == Stopped ==> s.grpc == s.http == Empty)
  }

  lemma LiveIsLaunched(s: App, p: nat, j: nat)
    requires Inv(s) && HasJob(s, p, j) && s.phases[p][j].live > 0
    ensures p <= s.phase
  {
  }

  lemma SetJobKeepsInv(s: App, p: nat, j: nat, job: Job, failed: bool)
    requires Inv(s) && HasJob(s, p, j) && JobInv(job, failed)
    requires s.phases[p][j].completed ==> job.completed
    requires p <= s.phase || s.phases[p][j] == job
    requires s.failed ==> failed
    requires failed ==> s.state == Stopping
    ensures Inv(SetJob(s, p, j, job).(failed := failed))
  {
    var s' := SetJob(s, p, j, job);
    forall q, i | 0 <= q < |s'.phases| && 0 <= i < |s'.phases[q]| ensures JobInv(s'.phases[q][i], failed) {
      if q == p && i == j { } else { assert s'.phases[q][i] == s.phases[q][i]; }
    }
    forall q | 0 <= q < |s'.phases| ensures q < s.phase ==> PhaseDone(s'.phases[q]) {
      if q < s.phase { assert PhaseDone(s.phases[q]); }
    }
    forall q | s.phase < q < |s'.phases| ensures PhaseFresh(s'.phases[q]) {
      assert PhaseFresh(s.phases[q]);
    }
  }

  lemma StepKeepsInv(s: App, l: Label)
    requires Inv(s) && Enabled(s, l)
    ensures Inv(Apply(s, l))
  {
    match l
    case JobReturns(p, j, exit) =>
      assert JobInv(s.phases[p][j], s.failed);
      LiveIsLaunched(s, p, j);
      SetJobKeepsInv(s, p, j, Return(s.phases[p][j], exit), s.failed);
    case JobLaunched(p, j) =>
      assert JobInv(s.phases[p][j], s.failed);
      SetJobKeepsInv(s, p, j, Launch(s.phases[p][j]), s.failed);
    case JobObserved(p, j) =>
      var job := s.phases[p][j];
      assert JobInv(job, s.failed);
      SetJobKeepsInv(s, p, j, Observe(job), job.exit.value == Broken);
    case PhasesBuilt(_) => BuildKeepsInv(s, l);
    case _ => OtherStepKeepsInv(s, l);
  }

  lemma BuiltIsNew(r: Resources, p: nat)
    requires p < |ShutdownPhases(r)|
    ensures PhaseFresh(ShutdownPhases(r)[p])
  {
  }

  lemma BuildKeepsInv(s: App, l: Label)
    requires Inv(s) && Enabled(s, l) && l.PhasesBuilt?
    ensures Inv(Apply(s, l))
  {
    var s' := Apply(s, l);
    forall p | 0 <= p < |s'.phases| ensures PhaseFresh(s'.phases[p]) { BuiltIsNew(l.resources, p); }
    forall p, j | 0 <= p < |s'.phases| && 0 <= j < |s'.phases[p]| ensures JobInv(s'.phases[p][j], s'.failed) {
      assert PhaseFresh(s'.phases[p]);
    }
  }

  lemma OtherStepKeepsInv(s: App, l: Label)
    requires Inv(s) && Enabled(s, l) && !l.JobReturns? && !l.JobLaunched? && !l.JobObserved? && !l.PhasesBuilt?
    ensures Inv(Apply(s, l))
  {
    var s' := Apply(s, l);
    forall q, i | 0 <= q < |s'.phases| && 0 <= i < |s'.phases[q]| ensures JobInv(s'.phases[q][i], s'.failed) {
      assert JobInv(s.phases[q][i], s.failed);
    }
    if l.PhaseAdvanced? {
      assert PhaseDone(s.phases[s.phase]);
    }
  }

  lemma RunsKeepInv(s: App, ls: seq<Label>)
    requires Inv(s) && Run(Step, s, ls).Some?
    ensures Inv(Run(Step, s, ls).value)
  {
    forall t, l | Inv(t) && Step(t, l).Some? ensures Inv(Step(t, l).value) { StepKeepsInv(t, l); }
    Invariant(Step, Inv, s, ls);
  }

  // ---- What holds in every run ----

  /** The job was launched once more than it was cancelled, its last task returned Ok, and none
      is left. */
  predicate Retired(job: Job) {
    job.completed && job.ok && job.live == 0 && job.launches == job.cancels + 1
  }

  /** A job is launched only when both servers are drained, every job of every earlier phase
      has returned Ok and has no task left, and the job itself has no live task. */
  lemma LaunchIsOrdered(ls: seq<Label>, j: nat)
    requires Feasible(ls) && Enabled(After(ls), JobLaunched(After(ls).phase, j))
    ensures var s := After(ls);
            && s.grpc == s.http == Empty
            && (forall p, i :: 0 <= p < s.phase && 0 <= i < |s.phases[p]| ==> Retired(s.phases[p][i]))
            && s.phases[s.phase][j].live == 0
            && (forall p, i :: s.phase < p < |s.phases| && 0 <= i < |s.phases[p]| ==> s.phases[p][i].launches == 0)
  {
    RunsKeepInv(Initial, ls);
    var s := After(ls);
    assert forall p :: 0 <= p < s.phase ==> PhaseDone(s.phases[p]);
    assert forall p, i :: 0 <= p < |s.phases| && 0 <= i < |s.phases[p]| ==> JobInv(s.phases[p][i], s.failed);
  }

  /** No job ever has two live tasks, and a job is launched at most once more than its own
      tasks have returned ContextCancelled. */
  lemma LaunchesAreBounded(ls: seq<Label>, p: nat, j: nat)
    requires Feasible(ls) && HasJob(After(ls), p, j)
    ensures After(ls).phases[p][j].live <= 1
    ensures After(ls).phases[p][j].launches <= 1 + After(ls).phases[p][j].cancels
  {
    RunsKeepInv(Initial, ls);
    assert JobInv(After(ls).phases[p][j], After(ls).failed);
  }

  /** Stopped after a start means that every job returned Ok and nothing is left running. */
  lemma StoppedMeansDrained(ls: seq<Label>)
    requires Feasible(ls) && After(ls).state == Stopped
    ensures var s := After(ls);
            && s.grpc == s.http == Empty && !s.failed
            && forall p, i :: 0 <= p < |s.phases| && 0 <= i < |s.phases[p]| ==> Retired(s.phases[p][i])
  {
    RunsKeepInv(Initial, ls);
    var s := After(ls);
    assert forall p :: 0 <= p < s.phase ==> PhaseDone(s.phases[p]);
    assert forall p, i :: 0 <= p < |s.phases| && 0 <= i < |s.phases[p]| ==> JobInv(s.phases[p][i], s.failed);
  }

  lemma FailureStays(s: App, l: Label)
    requires Enabled(s, l) && s.failed && s.state == Stopping
    ensures Apply(s, l).failed && Apply(s, l).state == Stopping
    ensures l.JobReturns? || l.ServerExits?
  {
  }

  lemma {:induction false} FailedRunStaysFailed(ls: seq<Label>, k: nat)
    requires Feasible(ls) && k <= |ls| && Feasible(ls[..k]) && After(ls[..k]).failed
    ensures After(ls).failed && After(ls).state == Stopping
  {
    if k < |ls| {
      var pre := ls[..|ls| - 1];
      assert pre[..k] == ls[..k];
      FailedRunStaysFailed(pre, k);
      FailureStays(After(pre), ls[|ls| - 1]);
    } else {
      assert ls[..k] == ls;
      RunsKeepInv(Initial, ls);
    }
  }

  /** After a recorded failure nothing is launched, nothing completes and Stopped is out of
      reach: all that can still happen is that running tasks return. */
  lemma FailureIsFinal(ls: seq<Label>, k: nat, i: nat)
    requires Feasible(ls) && k <= i < |ls| && Feasible(ls[..k]) && After(ls[..k]).failed
    ensures ls[i].JobReturns? || ls[i].ServerExits?
    ensures After(ls).state == Stopping
  {
    Prefix(Step, Initial, ls, i);
    assert ls[..i][..k] == ls[..k];
    FailedRunStaysFailed(ls[..i], k);
    FailureStays(After(ls[..i]), ls[i]);
    FailedRunStaysFailed(ls, k);
  }

  // ---- Which resources the phases hold ----

  /** The service has this resource; those of the runtime itself are always there. */
  predicate Has(r: Resources, x: Resource) {
    match x
    case Source(i) => i < r.sources
    case Component(i) => i < r.components
    case Pool(i) => i < r.pools
    case PriorityPool(i) => i < r.priorityPools
    case Storage(i) => i < r.storages
    case Sink(i) => i < r.sinks
    case _ => true
  }

  /** The phase and the place in it at which a resource is stopped. */
  function Seat(r: Resources, x: Resource): (nat, nat) {
    match x
    case Source(i) => (0, i)
    case Component(i) => (0, r.sources + i)
    case Pool(i) => (1, i)
    case PriorityPool(i) => (1, r.pools + i)
    case DelayPool => (1, r.pools + r.priorityPools)
    case Storage(i) => (1, r.pools + r.priorityPools + 1 + i)
    case ParallelRegistry => (2, 0)
    case Sink(i) => (3, i)
    case RuntimeMetrics => (4, 0)
    case Metrics => (5, 0)
    case Tracing => (6, 0)
    case Logs => (7, 0)
  }

  predicate HasSizes(phases: seq<seq<Job>>, r: Resources) {
    && |phases| == 8
    && |phases[0]| == r.sources + r.components
    && |phases[1]| == r.pools + r.priorityPools + 1 + r.storages
    && |phases[2]| == 1 && |phases[3]| == r.sinks
    && |phases[4]| == |phases[5]| == |phases[6]| == |phases[7]| == 1
  }

  predicate Sits(phases: seq<seq<Job>>, r: Resources, x: Resource) {
    var (p, j) := Seat(r, x);
    p < |phases| && j < |phases[p]| && phases[p][j].owner == x
  }

  /** There is one job for each resource, and no other. */
  ghost predicate Seated(phases: seq<seq<Job>>, r: Resources) {
    && HasSizes(phases, r)
    && (forall x :: Has(r, x) ==> Sits(phases, r, x))
    && (forall p: nat, j: nat :: p < |phases| && j < |phases[p]| ==>
          Has(r, phases[p][j].owner) && Seat(r, phases[p][j].owner) == (p, j))
  }

  lemma AdmissionSeated(r: Resources, j: nat)
    requires j < r.sources + r.components
    ensures |ShutdownPhases(r)[0]| == r.sources + r.components
    ensures var x := ShutdownPhases(r)[0][j].owner; Has(r, x) && Seat(r, x) == (0, j)
    ensures ShutdownPhases(r)[0][j].owner == if j < r.sources then Source(j) else Component(j - r.sources)
  {
  }

  lemma RuntimeSeated(r: Resources, j: nat)
    requires j < r.pools + r.priorityPools + 1 + r.storages
    ensures |ShutdownPhases(r)[1]| == r.pools + r.priorityPools + 1 + r.storages
    ensures var x := ShutdownPhases(r)[1][j].owner; Has(r, x) && Seat(r, x) == (1, j)
    ensures ShutdownPhases(r)[1][j].owner ==
            if j < r.pools then Pool(j)
            else if j < r.pools + r.priorityPools then PriorityPool(j - r.pools)
            else if j == r.pools + r.priorityPools then DelayPool
            else Storage(j - r.pools - r.priorityPools - 1)
  {
  }

  lemma BuiltSits(r: Resources, x: Resource)
    requires Has(r, x)
    ensures Sits(ShutdownPhases(r), r, x)
  {
    var (p, j) := Seat(r, x);
    if p == 0 { AdmissionSeated(r, j); }
    if p == 1 { RuntimeSeated(r, j); }
  }

  lemma BuiltIsSeated(r: Resources)
    ensures Seated(ShutdownPhases(r), r)
  {
    var phases := ShutdownPhases(r);
    forall x | Has(r, x) ensures Sits(phases, r, x) { BuiltSits(r, x); }
    forall p: nat, j: nat | p < |phases| && j < |phases[p]|
      ensures Has(r, phases[p][j].owner) && Seat(r, phases[p][j].owner) == (p, j)
    {
      if p == 0 { AdmissionSeated(r, j); }
      if p == 1 { RuntimeSeated(r, j); }
    }
  }

  /** Only the phase and the place of a job tell who owns it. */
  ghost predicate SameOwners(a: seq<seq<Job>>, b: seq<seq<Job>>) {
    && |a| == |b| && (forall p :: 0 <= p < |a| ==> |a[p]| == |b[p]|)
    && (forall p, j :: 0 <= p < |a| && 0 <= j < |a[p]| ==> a[p][j].owner == b[p][j].owner)
  }

  lemma SameOwnersSeated(a: seq<seq<Job>>, b: seq<seq<Job>>, r: Resources)
    requires SameOwners(a, b) && Seated(a, r)
    ensures Seated(b, r)
  {
    forall x | Has(r, x) ensures Sits(b, r, x) { assert Sits(a, r, x); }
  }

  lemma StepKeepsOwners(s: App, l: Label)
    requires s.built && Enabled(s, l)
    ensures Apply(s, l).built && SameOwners(s.phases, Apply(s, l).phases)
  {
  }

  /** Once the phases are built, in every run, each resource has its one job in its phase, eight
      phases in all, and there are no other jobs. */
  lemma {:induction false} EveryResourceHasItsJob(ls: seq<Label>, i: nat)
    requires Feasible(ls) && i < |ls| && ls[i].PhasesBuilt?
    ensures After(ls).built && Seated(After(ls).phases, ls[i].resources)
  {
    var n := |ls| - 1;
    var pre, last := ls[..n], ls[n];
    assert Step(After(pre), last) == Some(After(ls));
    if i < n {
      EveryResourceHasItsJob(pre, i);
      StepKeepsOwners(After(pre), last);
      SameOwnersSeated(After(pre).phases, After(ls).phases, ls[i].resources);
    } else {
      BuiltIsSeated(last.resources);
    }
  }

  lemma {:induction false} BuiltIsTold(ls: seq<Label>)
    requires Feasible(ls) && After(ls).built
    ensures exists i :: 0 <= i < |ls| && ls[i].PhasesBuilt?
  {
    var n := |ls| - 1;
    var pre, last := ls[..n], ls[n];
    assert Step(After(pre), last) == Some(After(ls));
    if After(pre).built {
      BuiltIsTold(pre);
      var i :| 0 <= i < n && pre[i].PhasesBuilt?;
      assert ls[i].PhasesBuilt?;
    } else {
      assert ls[n].PhasesBuilt?;
    }
  }

  /** The job of a resource. */
  ghost function JobOf(s: App, r: Resources, x: Resource): Job
    requires Seated(s.phases, r) && Has(r, x)
  {
    assert Sits(s.phases, r, x);
    s.phases[Seat(r, x).0][Seat(r, x).1]
  }

  /** When the stop of a resource is launched, the stops of all resources of earlier phases have
      returned Ok: in particular every sink outlives all sources, components, pools, storages and
      the parallel drain. */
  lemma ProducersStopFirst(ls: seq<Label>, i: nat, x: Resource, y: Resource)
    requires Feasible(ls) && i < |ls| && ls[i].PhasesBuilt? && Has(ls[i].resources, x) && Has(ls[i].resources, y)
    requires Enabled(After(ls), JobLaunched(Seat(ls[i].resources, x).0, Seat(ls[i].resources, x).1))
    requires Seat(ls[i].resources, y).0 < Seat(ls[i].resources, x).0
    ensures After(ls).built && Seated(After(ls).phases, ls[i].resources)
    ensures Retired(JobOf(After(ls), ls[i].resources, y))
  {
    EveryResourceHasItsJob(ls, i);
    assert Sits(After(ls).phases, ls[i].resources, y);
    LaunchIsOrdered(ls, Seat(ls[i].resources, x).1);
  }

  /** A service that is stopped after its phases were built has stopped every resource. */
  lemma StoppedStopsEverything(ls: seq<Label>, i: nat, x: Resource)
    requires Feasible(ls) && i < |ls| && ls[i].PhasesBuilt? && After(ls).state == Stopped && Has(ls[i].resources, x)
    ensures Seated(After(ls).phases, ls[i].resources) && Retired(JobOf(After(ls), ls[i].resources, x))
  {
    EveryResourceHasItsJob(ls, i);
    assert Sits(After(ls).phases, ls[i].resources, x);
    StoppedMeansDrained(ls);
  }

  // ---- What the records tell ----

  ghost predicate JobIsTold(ls: seq<Label>, p: nat, j: nat, job: Job) {
    && job.launches == |Filter((l: Label) => l == JobLaunched(p, j), ls)|
    && job.cancels == |Filter((l: Label) => l == JobReturns(p, j, Cancelled), ls)|
    && (job.ok <==> JobReturns(p, j, Done) in ls)
  }

  /** Label `l` takes the records of a job from `a` to `b`. */
  predicate Tells(l: Label, p: nat, j: nat, a: Job, b: Job) {
    && b.launches == a.launches + (if l == JobLaunched(p, j) then 1 else 0)
    && b.cancels == a.cancels + (if l == JobReturns(p, j, Cancelled) then 1 else 0)
    && (b.ok <==> a.ok || l == JobReturns(p, j, Done))
  }

  lemma ToldSnoc(ls: seq<Label>, l: Label, p: nat, j: nat, a: Job, b: Job)
    requires JobIsTold(ls, p, j, a) && Tells(l, p, j, a, b)
    ensures JobIsTold(ls + [l], p, j, b)
  {
    FilterSnoc((l: Label) => l == JobLaunched(p, j), ls, l);
    FilterSnoc((l: Label) => l == JobReturns(p, j, Cancelled), ls, l);
  }

  lemma StepTellsJob(s: App, l: Label, p: nat, j: nat)
    requires s.built && HasJob(s, p, j) && Enabled(s, l)
    ensures HasJob(Apply(s, l), p, j)
    ensures Tells(l, p, j, s.phases[p][j], Apply(s, l).phases[p][j])
  {
  }

  lemma StepTellsNoJob(s: App, l: Label, p: nat, j: nat)
    requires Inv(s) && !HasJob(s, p, j) && Enabled(s, l)
    ensures Tells(l, p, j, NewJob(Logs), NewJob(Logs))
    ensures HasJob(Apply(s, l), p, j) ==> Tells(l, p, j, NewJob(Logs), Apply(s, l).phases[p][j])
  {
    if HasJob(Apply(s, l), p, j) {
      if !s.built { BuiltIsNew(l.resources, p); } else { StepKeepsOwners(s, l); }
    }
  }

  /** The records of a job are the launches and returns of the run. */
  lemma {:induction false} RecordsAreTold(ls: seq<Label>, p: nat, j: nat)
    requires Feasible(ls)
    ensures HasJob(After(ls), p, j) ==> JobIsTold(ls, p, j, After(ls).phases[p][j])
    ensures !HasJob(After(ls), p, j) ==> JobIsTold(ls, p, j, NewJob(Logs))
  {
    if |ls| > 0 {
      var n := |ls| - 1;
      var pre, l := ls[..n], ls[n];
      RecordsAreTold(pre, p, j);
      var s := After(pre);
      assert ls == pre + [l];
      RunsKeepInv(Initial, pre);
      var a := if HasJob(s, p, j) then s.phases[p][j] else NewJob(Logs);
      var b := if HasJob(After(ls), p, j) then After(ls).phases[p][j] else NewJob(Logs);
      if HasJob(s, p, j) { StepTellsJob(s, l, p, j); } else { StepTellsNoJob(s, l, p, j); }
      ToldSnoc(pre, l, p, j, a, b);
    }
  }

  /** What makes a shutdown fail: a server task that failed, or a job seen to return an error
      other than cancellation. */
  predicate Fails(s: App, l: Label) {
    match l
    case ServerDrained(isGrpc) => ServerOf(s, isGrpc) == Exited(false)
    case JobObserved(p, j) => HasJob(s, p, j) && s.phases[p][j].exit == Some(Broken)
    case _ => false
  }

  /** Such a step was taken. */
  ghost predicate HasFailed(ls: seq<Label>)
    requires Feasible(ls)
  {
    |ls| > 0 && (HasFailed(ls[..|ls| - 1]) || Fails(After(ls[..|ls| - 1]), ls[|ls| - 1]))
  }

  /** The failure is recorded exactly when such a step was taken. */
  lemma {:induction false} FailureIsTold(ls: seq<Label>)
    requires Feasible(ls)
    ensures After(ls).failed <==> HasFailed(ls)
  {
    if |ls| > 0 {
      var pre := ls[..|ls| - 1];
      FailureIsTold(pre);
      RunsKeepInv(Initial, pre);
      FailingStep(After(pre), ls[|ls| - 1]);
    }
  }

  lemma FailingStep(s: App, l: Label)
    requires Inv(s) && Enabled(s, l)
    ensures Apply(s, l).failed <==> s.failed || Fails(s, l)
  {
  }

  /** The label starts this server. */
  predicate Starts(l: Label, isGrpc: bool) {
    l.StartReturns? && if isGrpc then l.grpc else l.http
  }

  ghost predicate Started(ls: seq<Label>, isGrpc: bool) {
    |ls| > 0 && (Started(ls[..|ls| - 1], isGrpc) || Starts(ls[|ls| - 1], isGrpc))
  }

  ghost predicate Drained(ls: seq<Label>, isGrpc: bool) {
    |ls| > 0 && (Drained(ls[..|ls| - 1], isGrpc) || ls[|ls| - 1] == ServerDrained(isGrpc))
  }

  /** The slot of a server of which this much has happened. */
  predicate ServerFits(server: Server, started: bool, exited: Option<bool>, drained: bool) {
    match server
    case Serving => started && exited.None? && !drained
    case Exited(fine) => started && exited == Some(fine) && !drained
    case Empty => if started then exited.Some? && drained else exited.None? && !drained
  }

  ghost function ExitOf(ls: seq<Label>, isGrpc: bool): Option<bool> {
    if |ls| == 0 then None
    else
      var l := ls[|ls| - 1];
      if l.ServerExits? && l.isGrpc == isGrpc then Some(l.fine) else ExitOf(ls[..|ls| - 1], isGrpc)
  }

  lemma StepFitsServer(s: App, l: Label, isGrpc: bool, started: bool, exited: Option<bool>, drained: bool)
    requires Inv(s) && Enabled(s, l) && ServerFits(ServerOf(s, isGrpc), started, exited, drained)
    requires s.state == Created || s.state == Starting ==> !started
    ensures ServerFits(ServerOf(Apply(s, l), isGrpc), started || Starts(l, isGrpc),
                       if l.ServerExits? && l.isGrpc == isGrpc then Some(l.fine) else exited,
                       drained || l == ServerDrained(isGrpc))
    ensures Apply(s, l).state == Created || Apply(s, l).state == Starting ==> !started && !Starts(l, isGrpc)
  {
  }

  /** A server that was started is in its slot until it has exited and been drained. */
  lemma {:induction false} ServersAreTold(ls: seq<Label>, isGrpc: bool)
    requires Feasible(ls)
    ensures ServerFits(ServerOf(After(ls), isGrpc), Started(ls, isGrpc), ExitOf(ls, isGrpc), Drained(ls, isGrpc))
    ensures After(ls).state == Created || After(ls).state == Starting ==> !Started(ls, isGrpc)
  {
    if |ls| > 0 {
      var pre := ls[..|ls| - 1];
      ServersAreTold(pre, isGrpc);
      RunsKeepInv(Initial, pre);
      StepFitsServer(After(pre), ls[|ls| - 1], isGrpc, Started(pre, isGrpc), ExitOf(pre, isGrpc), Drained(pre, isGrpc));
    }
  }

  /** No job is launched before every server that was started has exited and been drained. */
  lemma ServersDrainFirst(ls: seq<Label>, j: nat, isGrpc: bool)
    requires Feasible(ls) && Enabled(After(ls), JobLaunched(After(ls).phase, j)) && Started(ls, isGrpc)
    ensures Drained(ls, isGrpc) && ExitOf(ls, isGrpc).Some?
  {
    LaunchIsOrdered(ls, j);
    ServersAreTold(ls, isGrpc);
  }

  // ---- Measure ----

  function Incomplete(jobs: seq<Job>): nat {
    if |jobs| == 0 then 0
    else Incomplete(jobs[..|jobs| - 1]) + if jobs[|jobs| - 1].completed then 0 else 1
  }

  lemma {:induction false} IncompleteUpdate(jobs: seq<Job>, j: nat, job: Job)
    requires j < |jobs|
    ensures Incomplete(jobs[j := job]) + (if jobs[j].completed then 0 else 1)
         == Incomplete(jobs) + if job.completed then 0 else 1
  {
    var last := |jobs| - 1;
    if j < last {
      IncompleteUpdate(jobs[..last], j, job);
      assert jobs[j := job][..last] == jobs[..last][j := job];
    } else {
      assert jobs[j := job][..last] == jobs[..last];
    }
  }

  ghost function PhasesLeft(s: App): int {
    |s.phases| - s.phase
  }

  ghost function JobsLeft(s: App): nat {
    if s.phase < |s.phases| then Incomplete(s.phases[s.phase]) else 0
  }

  predicate Smaller(a: int, b: nat, c: int, d: nat) {
    a < c || (a == c && b < d)
  }

  /** Once the phases are built, (phases left, incomplete jobs of the phase) never grows, and
      it strictly decreases with each job seen to return Ok and with each finished phase. */
  lemma OkMakesProgress(s: App, l: Label)
    requires Inv(s) && s.built && Enabled(s, l)
    ensures var s' := Apply(s, l);
            || (PhasesLeft(s') == PhasesLeft(s) && JobsLeft(s') == JobsLeft(s))
            || Smaller(PhasesLeft(s'), JobsLeft(s'), PhasesLeft(s), JobsLeft(s))
    ensures (l.JobObserved? && s.phases[s.phase][l.j].exit == Some(Done)) || l.PhaseAdvanced? ==>
              Smaller(PhasesLeft(Apply(s, l)), JobsLeft(Apply(s, l)), PhasesLeft(s), JobsLeft(s))
  {
    match l
    case JobReturns(p, j, exit) =>
      assert JobInv(s.phases[p][j], s.failed);
      IncompleteUpdate(s.phases[p], j, Return(s.phases[p][j], exit));
    case JobLaunched(p, j) => IncompleteUpdate(s.phases[p], j, Launch(s.phases[p][j]));
    case JobObserved(p, j) =>
      assert JobInv(s.phases[p][j], s.failed);
      IncompleteUpdate(s.phases[p], j, Observe(s.phases[p][j]));
    case _ =>
  }
}
