/** `ServiceApp::stop` in the form of its code. At every await other tasks may run
    (`Await`), the caller may be dropped and its context may expire; each of these is a
    nondeterministic choice. Every activation is a run of the shutdown step system. */
module ServiceAppStop {
  import opened Runs
  import opened ServiceShutdown

  // `Pending`: the caller is still waiting; `Dropped`: its future is gone.
  datatype StopResult = Ok | ContextCancelled | AlreadyStarted | Transport | Pending | Dropped

  // What may befall the caller of `stop` at its awaits.
  datatype Fate = Fate(dropped: bool, expired: bool)

  ghost predicate RunsTo(s: App, ls: seq<Label>, s': App) {
    Run(Step, s, ls) == Some(s')
  }

  lemma Record(s: App, ls: seq<Label>, before: App, l: Label, after: App)
    requires RunsTo(s, ls, before) && Step(before, l) == Some(after)
    ensures RunsTo(s, ls + [l], after)
  {
    Extend(Step, s, ls, l);
  }

  // ---- What other tasks can do ----

  predicate Foreign(l: Label) {
    l.StartBegins? || l.StartReturns? || l.ServerExits? || l.JobReturns?
  }

  ghost predicate AllForeign(ls: seq<Label>) {
    forall i :: 0 <= i < |ls| ==> Foreign(ls[i])
  }

  predicate SameJob(a: Job, b: Job) {
    b.owner == a.owner && a.handle == b.handle && a.completed == b.completed && (a.exit.Some? ==> b.exit == a.exit)
  }

  /** What a stopping caller can rely on across an await. */
  ghost predicate Kept(s: App, s': App) {
    && s'.state == s.state && s'.built == s.built && s'.phase == s.phase && s'.failed == s.failed
    && (s.grpc == Empty ==> s'.grpc == Empty) && (s.http == Empty ==> s'.http == Empty)
    && |s'.phases| == |s.phases|
    && (forall p :: 0 <= p < |s.phases| ==> |s'.phases[p]| == |s.phases[p]|)
    && (forall p, j :: 0 <= p < |s.phases| && 0 <= j < |s.phases[p]| ==> SameJob(s.phases[p][j], s'.phases[p][j]))
  }

  lemma ForeignStepKeeps(s: App, l: Label)
    requires Inv(s) && s.state == Stopping && Foreign(l) && Enabled(s, l)
    ensures Kept(s, Apply(s, l))
  {
    if l.JobReturns? {
      assert JobInv(s.phases[l.p][l.j], s.failed);
    }
  }

  lemma {:induction false} ForeignRunKeeps(s: App, ls: seq<Label>, s': App)
    requires Inv(s) && s.state == Stopping && AllForeign(ls) && RunsTo(s, ls, s')
    ensures Kept(s, s')
  {
    if |ls| > 0 {
      var pre := ls[..|ls| - 1];
      var mid := Run(Step, s, pre).value;
      ForeignRunKeeps(s, pre, mid);
      RunsKeepInv(s, pre);
      ForeignStepKeeps(mid, ls[|ls| - 1]);
    }
  }

  /** A task that has returned is in the run with what it returned. */
  lemma {:induction false} ExitIsTold(ls: seq<Label>, p: nat, j: nat)
    requires Feasible(ls) && HasJob(After(ls), p, j) && After(ls).phases[p][j].exit.Some?
    ensures JobReturns(p, j, After(ls).phases[p][j].exit.value) in ls
  {
    var n := |ls| - 1;
    var pre, l := ls[..n], ls[n];
    assert Step(After(pre), l) == Some(After(ls)) && ls == pre + [l];
    ExitStep(After(pre), l, p, j);
    if l != JobReturns(p, j, After(ls).phases[p][j].exit.value) { ExitIsTold(pre, p, j); }
  }

  lemma ExitStep(s: App, l: Label, p: nat, j: nat)
    requires Enabled(s, l) && HasJob(Apply(s, l), p, j) && Apply(s, l).phases[p][j].exit.Some?
    ensures l == JobReturns(p, j, Apply(s, l).phases[p][j].exit.value)
            || (HasJob(s, p, j) && s.phases[p][j].exit == Apply(s, l).phases[p][j].exit)
  {
    if l.PhasesBuilt? { BuiltIsNew(l.resources, p); }
  }

  class ServiceApp {
    const resources: Resources
    var state: AppState
    var grpc: Server
    var http: Server
    var built: bool
    var phases: seq<seq<Job>>
    var phase: nat
    var failed: bool
    ghost var log: seq<Label>  // every step since construction

    ghost function View(): App
      reads this
    {
      App(state, grpc, http, built, phases, phase, failed)
    }

    /** The fields are what the run recorded in the log leads to. */
    ghost predicate Valid()
      reads this
    {
      RunsTo(Initial, log, View()) && forall l :: l in log && l.PhasesBuilt? ==> l.resources == resources
    }

    ghost predicate Active()
      reads this
    {
      Valid() && state == Stopping && !failed
    }

    constructor (resources: Resources)
      ensures Valid() && View() == Initial && log == [] && this.resources == resources
    {
      this.resources := resources;
      state, grpc, http, built, phases, phase, failed := Created, Empty, Empty, false, [], 0, false;
      log := [];
    }

    // ---- Single steps ----

    ghost method Note(before: App, l: Label)
      requires RunsTo(Initial, log, before) && Step(before, l) == Some(View())
      requires forall l' :: l' in log && l'.PhasesBuilt? ==> l'.resources == resources
      requires l.PhasesBuilt? ==> l.resources == resources
      modifies this`log
      ensures Valid() && log == old(log) + [l]
    {
      Record(Initial, log, before, l, View());
      log := log + [l];
    }

    /** Starts, servers and jobs take any steps; other `stop` callers wait for the progress lock. */
    method Yield()
      requires Valid()
      modifies this
      ensures Valid() && old(log) <= log && AllForeign(log[|old(log)|..])
    {
    }

    /** An await of the caller that holds the progress lock. */
    method Await()
      requires Valid()
      modifies this
      ensures Valid() && old(log) <= log && AllForeign(log[|old(log)|..])
      ensures old(state) == Stopping ==> Kept(old(View()), View())
    {
      ghost var s, before := View(), log;
      Yield();
      assert log == before + log[|before|..];
      Append(Step, Initial, before, log[|before|..]);
      RunsKeepInv(Initial, before);
      if s.state == Stopping { ForeignRunKeeps(s, log[|before|..], View()); }
    }

    /** The await for the progress lock: everybody takes any steps, other `stop` callers too. */
    method Queue()
      requires Valid()
      modifies this
      ensures Valid() && old(log) <= log
    {
    }

    method LaunchJob(j: nat)
      requires Active() && HasJob(View(), phase, j) && !phases[phase][j].completed && !phases[phase][j].handle
      modifies this`phases, this`log
      ensures Active() && log == old(log) + [JobLaunched(phase, j)]
      ensures phases == old(phases)[phase := old(phases)[phase][j := Launch(old(phases)[phase][j])]]
    {
      ghost var before := View();
      phases := phases[phase := phases[phase][j := Launch(phases[phase][j])]];
      Note(before, JobLaunched(phase, j));
    }

    method ObserveJob(j: nat) returns (exit: Exit)
      requires Active() && HasJob(View(), phase, j)
      requires phases[phase][j].handle && phases[phase][j].exit.Some?
      modifies this`phases, this`failed, this`log
      ensures Valid() && log == old(log) + [JobObserved(phase, j)]
      ensures exit == old(phases)[phase][j].exit.value && failed == (exit == Broken)
      ensures phases == old(phases)[phase := old(phases)[phase][j := Observe(old(phases)[phase][j])]]
    {
      ghost var before := View();
      exit := phases[phase][j].exit.value;
      phases := phases[phase := phases[phase][j := Observe(phases[phase][j])]];
      failed := exit == Broken;
      Note(before, JobObserved(phase, j));
    }

    method BuildPhases()
      requires Active() && !built && grpc == http == Empty
      modifies this`built, this`phases, this`log
      ensures Active() && built && log == old(log) + [PhasesBuilt(resources)]
      ensures phases == ShutdownPhases(resources)
    {
      ghost var before := View();
      built, phases := true, ShutdownPhases(resources);
      Note(before, PhasesBuilt(resources));
    }

    method AdvancePhase()
      requires Active() && built && phase < |phases| && PhaseDone(phases[phase])
      modifies this`phase, this`log
      ensures Active() && phase == old(phase) + 1 && log == old(log) + [PhaseAdvanced]
    {
      ghost var before := View();
      phase := phase + 1;
      Note(before, PhaseAdvanced);
    }

    method Complete()
      requires Active() && built && phase >= |phases|
      modifies this`state, this`log
      ensures Valid() && state == Stopped && log == old(log) + [StopCompletes]
    {
      RunsKeepInv(Initial, log);
      ghost var before := View();
      state := Stopped;
      Note(before, StopCompletes);
    }

    // ---- The code ----

    /** `drain_server`, with the failure that `stop` records when the server task failed. */
    method DrainServer(isGrpc: bool, fate: Fate) returns (r: StopResult)
      requires Active()
      modifies this
      ensures Valid() && old(log) <= log && state == Stopping
      ensures r in {Ok, Transport, ContextCancelled, Pending, Dropped} && failed == (r == Transport)
      ensures r == Ok ==> ServerOf(View(), isGrpc) == Empty
      ensures r == Pending ==> ServerOf(View(), isGrpc) == Serving
      ensures (r == Dropped ==> fate.dropped) && (r == ContextCancelled ==> fate.expired)
      ensures old(ServerOf(View(), !isGrpc)) == Empty ==> ServerOf(View(), !isGrpc) == Empty
    {
      Await();  // the task slot lock
      var gone := Perhaps(fate.dropped);
      if gone { return Dropped; }
      var late := Perhaps(fate.expired);
      if late { return ContextCancelled; }
      var server := if isGrpc then grpc else http;
      if server == Empty { return Ok; }
      Await();  // the server task
      gone := Perhaps(fate.dropped);
      if gone { return Dropped; }
      server := if isGrpc then grpc else http;
      if server == Empty { return Ok; }
      if !server.Exited? { return if fate.expired then ContextCancelled else Pending; }
      r := TakeServer(isGrpc);
    }

    /** The slot of a server task that has exited is emptied, and its failure recorded. */
    method TakeServer(isGrpc: bool) returns (r: StopResult)
      requires Active() && ServerOf(View(), isGrpc).Exited?
      modifies this`grpc, this`http, this`failed, this`log
      ensures Valid() && log == old(log) + [ServerDrained(isGrpc)] && state == Stopping
      ensures r == (if old(ServerOf(View(), isGrpc)).fine then Ok else Transport) && failed == (r == Transport)
      ensures ServerOf(View(), isGrpc) == Empty && ServerOf(View(), !isGrpc) == old(ServerOf(View(), !isGrpc))
    {
      ghost var before := View();
      var server := if isGrpc then grpc else http;
      if isGrpc { grpc := Empty; } else { http := Empty; }
      failed := !server.fine;
      Note(before, ServerDrained(isGrpc));
      return if server.fine then Ok else Transport;
    }

    ghost predicate Started(j: nat)
      requires phase < |phases| && j <= |phases[phase]|
      reads this
    {
      forall i :: 0 <= i < j ==> phases[phase][i].completed || phases[phase][i].handle
    }

    method LaunchPhase()
      requires Active() && built && phase < |phases|
      modifies this`phases, this`log
      ensures Active() && old(log) <= log && |phases| == old(|phases|) && Started(|phases[phase]|)
    {
      var j := 0;
      while j < |phases[phase]|
        invariant Active() && old(log) <= log && |phases| == old(|phases|)
        invariant j <= |phases[phase]| && Started(j)
      {
        if !phases[phase][j].completed && !phases[phase][j].handle {
          LaunchJob(j);
        }
        j := j + 1;
      }
    }

    /** Some job of the current phase has a task that has not returned. */
    ghost predicate Busy()
      reads this
    {
      exists j: nat :: HasJob(View(), phase, j) && phases[phase][j].live > 0
    }

    /** Some task of the current phase returned ContextCancelled. */
    ghost predicate SawCancelled()
      reads this
    {
      exists j: nat :: JobReturns(phase, j, Cancelled) in log
    }

    /** Waits for the job at `j`: None when it has returned Ok and the loop goes on. */
    method AwaitJob(j: nat, fate: Fate) returns (r: Option<StopResult>)
      requires Active() && built && HasJob(View(), phase, j) && Started(|phases[phase]|)
      modifies this
      ensures Valid() && old(log) <= log && state == Stopping && built && phase == old(phase)
      ensures |phases| == old(|phases|) && |phases[phase]| == old(|phases[phase]|)
      ensures forall i :: 0 <= i < |phases[phase]| && old(phases)[phase][i].completed ==> phases[phase][i].completed
      ensures if r.None? then !failed && phases[phase][j].completed && Started(|phases[phase]|)
              else r.value in {Transport, ContextCancelled, Pending, Dropped} && failed == (r.value == Transport)
      ensures r == Some(Pending) ==> Busy()
      ensures (r == Some(Dropped) ==> fate.dropped) && (r == Some(ContextCancelled) ==> fate.expired || SawCancelled())
    {
      if phases[phase][j].completed { return None; }
      Await();  // the task of the job
      var gone := Perhaps(fate.dropped);
      if gone { return Some(Dropped); }
      if phases[phase][j].exit.None? {
        RunsKeepInv(Initial, log);
        assert JobInv(phases[phase][j], failed);
        return Some(if fate.expired then ContextCancelled else Pending);
      }
      ExitIsTold(log, phase, j);
      var exit := ObserveJob(j);
      match exit {
        case Done => return None;
        case Cancelled => return Some(ContextCancelled);
        case Broken => return Some(Transport);
      }
    }

    /** One turn of the phase loop: launch what has no task, then wait for each job in order. */
    method RunPhase(fate: Fate) returns (r: StopResult)
      requires Active() && built && phase < |phases|
      modifies this
      ensures Valid() && old(log) <= log && state == Stopping && built
      ensures r in {Ok, Transport, ContextCancelled, Pending, Dropped} && failed == (r == Transport)
      ensures phase == old(phase) && |phases| == old(|phases|)
      ensures r == Ok ==> PhaseDone(phases[phase])
      ensures r == Pending ==> Busy()
      ensures (r == Dropped ==> fate.dropped) && (r == ContextCancelled ==> fate.expired || SawCancelled())
    {
      LaunchPhase();
      var j := 0;
      while j < |phases[phase]|
        invariant Active() && built && old(log) <= log && phase == old(phase) && |phases| == old(|phases|)
        invariant j <= |phases[phase]| && Started(|phases[phase]|)
        invariant forall i :: 0 <= i < j ==> phases[phase][i].completed
      {
        var ended := AwaitJob(j, fate);
        if ended.Some? { return ended.value; }
        j := j + 1;
      }
      return Ok;
    }

    /** The admission part of `stop`: None when the caller goes on with the shutdown. */
    method EnterStop(fate: Fate) returns (r: Option<StopResult>)
      requires Valid()
      modifies this
      ensures Valid() && old(log) <= log
      ensures r.None? ==> Active()
      ensures r.Some? ==>
                match r.value {
                  case Ok => state == Stopped
                  case AlreadyStarted => state == Starting
                  case Transport => state == Stopping && failed
                  case Dropped => fate.dropped
                  case ContextCancelled => fate.expired
                  case Pending => false
                }
    {
      Queue();
      var gone := Perhaps(fate.dropped);
      if gone { return Some(Dropped); }
      var late := Perhaps(fate.expired);
      if late { return Some(ContextCancelled); }
      Await();  // the state lock
      gone := Perhaps(fate.dropped);
      if gone { return Some(Dropped); }
      ghost var before := View();
      match state {
        case Stopped => return Some(Ok);
        case Starting => return Some(AlreadyStarted);
        case Created =>
          state := Stopped;
          Note(before, StopCreated);
          return Some(Ok);
        case Running =>
          state := Stopping;
          Note(before, StopEnters);
        case Stopping =>
      }
      return if failed then Some(Transport) else None;
    }

    /** The phase loop of `stop`. */
    method RunPhases(fate: Fate) returns (r: StopResult)
      requires Active() && built
      modifies this
      ensures Valid() && old(log) <= log && state == Stopping && built
      ensures r in {Ok, Transport, ContextCancelled, Pending, Dropped} && failed == (r == Transport)
      ensures r == Ok ==> phase >= |phases|
      ensures r == Pending ==> Busy()
      ensures (r == Dropped ==> fate.dropped) && (r == ContextCancelled ==> fate.expired || SawCancelled())
    {
      while phase < |phases|
        invariant Active() && built && old(log) <= log
        decreases |phases| - phase
      {
        var late := Perhaps(fate.expired);
        if late { return ContextCancelled; }
        r := RunPhase(fate);
        if r != Ok { return; }
        AdvancePhase();
      }
      return Ok;
    }

    /** Nothing is left running: both servers are gone and every job has returned Ok. */
    ghost predicate Drained()
      reads this
    {
      grpc == http == Empty && !failed
      && forall p, i :: 0 <= p < |phases| && 0 <= i < |phases[p]| ==> Retired(phases[p][i])
    }

    /** Every resource of the service has one job, and that has been stopped. */
    ghost predicate EverythingStopped()
      reads this
    {
      Seated(phases, resources) && forall x :: Has(resources, x) ==> Retired(JobOf(View(), resources, x))
    }

    /** A server still serves or a job still runs. */
    ghost predicate Waits()
      reads this
    {
      grpc == Serving || http == Serving || Busy()
    }

    /** The servers, then the phases. */
    method Shutdown(fate: Fate) returns (r: StopResult)
      requires Active()
      modifies this
      ensures Valid() && old(log) <= log
      ensures r in {Ok, Transport, ContextCancelled, Pending, Dropped} && failed == (r == Transport)
      ensures state == if r == Ok then Stopped else Stopping
      ensures r == Pending ==> Waits()
      ensures (r == Dropped ==> fate.dropped) && (r == ContextCancelled ==> fate.expired || SawCancelled())
    {
      r := DrainServer(true, fate);
      if r != Ok { return; }
      r := DrainServer(false, fate);
      if r != Ok { return; }
      r := StopAll(fate);
    }

    /** The part of `stop` after the servers. */
    method StopAll(fate: Fate) returns (r: StopResult)
      requires Active() && grpc == http == Empty
      modifies this
      ensures Valid() && old(log) <= log
      ensures r in {Ok, Transport, ContextCancelled, Pending, Dropped} && failed == (r == Transport)
      ensures state == if r == Ok then Stopped else Stopping
      ensures r == Pending ==> Busy()
      ensures (r == Dropped ==> fate.dropped) && (r == ContextCancelled ==> fate.expired || SawCancelled())
    {
      if !built { BuildPhases(); }
      r := RunPhases(fate);
      if r != Ok { return; }
      Await();  // the state lock
      var gone := Perhaps(fate.dropped);
      if gone { return Dropped; }
      Complete();
      return Ok;
    }

    /** `stop`: Ok is returned only when everything has been drained and, once the phases were
        built, every resource of the service has been stopped. A failure is reported by this call
        and by every later one; otherwise the caller was dropped, ran out of time, saw a job that
        did, or still waits for something that runs. */
    method Stop(fate: Fate) returns (r: StopResult)
      requires Valid()
      modifies this
      ensures Valid() && old(log) <= log
      ensures r == Ok ==> state == Stopped && Drained() && (built ==> EverythingStopped())
      ensures r == Transport ==> failed && state == Stopping
      ensures r == AlreadyStarted ==> state == Starting
      ensures r == Pending ==> Waits()
      ensures (r == Dropped ==> fate.dropped) && (r == ContextCancelled ==> fate.expired || SawCancelled())
    {
      var refused := EnterStop(fate);
      if refused.Some? {
        r := refused.value;
      } else {
        r := Shutdown(fate);
      }
      if r == Ok {
        StoppedMeansDrained(log);
        if built { ResourcesStopped(); }
      }
    }

    lemma ResourcesStopped()
      requires Valid() && state == Stopped && built
      ensures EverythingStopped()
    {
      BuiltIsTold(log);
      var i :| 0 <= i < |log| && log[i].PhasesBuilt?;
      assert log[i] in log;
      EveryResourceHasItsJob(log, i);
      forall x | Has(resources, x) ensures Retired(JobOf(View(), resources, x)) {
        StoppedStopsEverything(log, i, x);
      }
    }
  }
}
