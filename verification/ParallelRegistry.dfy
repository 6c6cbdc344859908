/** The registry of parallel graph tasks and the loop that drains it. Tasks may register more
    tasks while they run; code outside the registry may register tasks too. */
module ParallelRegistry {
  import opened Runs

  type Task = nat
  type Drainer = nat

  // `live` are the tasks that have not finished and `ever` all that were registered. A
  // drainer holds the handles it took and has not joined yet; `lost` are the handles of
  // drainers that were dropped.
  datatype State = State(
    registry: seq<Task>, drainers: map<Drainer, seq<Task>>, lost: set<Task>,
    live: set<Task>, ever: set<Task>)

  const Initial := State([], map[], {}, {}, {})

  datatype Label =
    | Spawns(t: Task, parent: Option<Task>)
    | Finishes(t: Task)
    | DrainCalled(d: Drainer)
    | DrainTakes(d: Drainer)
    | DrainJoins(d: Drainer)
    | DrainDropped(d: Drainer)

  // ---- Steps ----

  predicate Enabled(s: State, l: Label) {
    match l
    case Spawns(t, parent) => t !in s.ever && (parent.Some? ==> parent.value in s.live)
    case Finishes(t) => t in s.live
    case DrainCalled(d) => d !in s.drainers
    case DrainTakes(d) => d in s.drainers && s.drainers[d] == []
    case DrainJoins(d) => d in s.drainers && s.drainers[d] != [] && s.drainers[d][0] !in s.live
    case DrainDropped(d) => d in s.drainers
  }

  function AsSet(ts: seq<Task>): set<Task> {
    set t | t in ts
  }

  function Apply(s: State, l: Label): State
    requires Enabled(s, l)
  {
    match l
    case Spawns(t, _) => s.(registry := s.registry + [t], live := s.live + {t}, ever := s.ever + {t})
    case Finishes(t) => s.(live := s.live - {t})
    case DrainCalled(d) => s.(drainers := s.drainers[d := []])
    case DrainTakes(d) =>
      if s.registry == [] then s.(drainers := s.drainers - {d})
      else s.(drainers := s.drainers[d := s.registry], registry := [])
    case DrainJoins(d) => s.(drainers := s.drainers[d := s.drainers[d][1..]])
    case DrainDropped(d) => s.(drainers := s.drainers - {d}, lost := s.lost + AsSet(s.drainers[d]))
  }

  /** `drain_parallel` returns to its caller. */
  predicate Returns(s: State, l: Label) {
    l.DrainTakes? && s.registry == []
  }

  // ---- Runs ----

  function Step(s: State, l: Label): Option<State> {
    if Enabled(s, l) then Some(Apply(s, l)) else None
  }

  ghost predicate Feasible(ls: seq<Label>) {
    Run(Step, Initial, ls).Some?
  }

  ghost function After(ls: seq<Label>): State
    requires Feasible(ls)
  {
    Run(Step, Initial, ls).value
  }

  // ---- Invariant ----

  /** Some drainer still holds the handle of `t`. */
  predicate Held(s: State, t: Task) {
    exists d :: d in s.drainers && t in s.drainers[d]
  }

  ghost predicate Inv(s: State) {
    && s.live <= s.ever
    && (forall t :: t in s.live ==> t in s.registry || t in s.lost || Held(s, t))
    && (forall t :: t in s.registry ==> t in s.ever)
  }

  lemma StepKeepsInv(s: State, l: Label)
    requires Inv(s) && Enabled(s, l)
    ensures Inv(Apply(s, l))
  {
    var s' := Apply(s, l);
    forall t | t in s'.live ensures t in s'.registry || t in s'.lost || Held(s', t) {
      if t in s.live && Held(s, t) {
        var d :| d in s.drainers && t in s.drainers[d];
        if d in s'.drainers && s'.drainers[d] == s.drainers[d] {
        } else if l.DrainJoins? {
          assert s.drainers[d] == [s.drainers[d][0]] + s.drainers[d][1..];
          assert t in s'.drainers[d];
        }
      } else if l.DrainTakes? && t in s.registry {
        assert t in s'.drainers[l.d];
      }
    }
  }

  lemma RunsKeepInv(ls: seq<Label>)
    requires Feasible(ls)
    ensures Inv(After(ls))
  {
    forall s, l | Inv(s) && Step(s, l).Some? ensures Inv(Step(s, l).value) { StepKeepsInv(s, l); }
    Invariant(Step, Inv, Initial, ls);
  }

  // ---- What holds in every run ----

  /** Everything that other drainers took, or lost when they were dropped, has finished. */
  predicate OthersAreDone(s: State, d: Drainer) {
    && (forall t :: t in s.lost ==> t !in s.live)
    && (forall e :: e in s.drainers && e != d ==> forall t :: t in s.drainers[e] ==> t !in s.live)
  }

  /** When a drain returns, every task ever registered has finished, including those that
      were registered while it drained, exactly if no other drainer took unfinished tasks. */
  lemma DrainReturnsWhenAllDone(ls: seq<Label>, d: Drainer)
    requires Feasible(ls) && Enabled(After(ls), DrainTakes(d)) && Returns(After(ls), DrainTakes(d))
    ensures After(ls).live == {} <==> OthersAreDone(After(ls), d)
  {
    RunsKeepInv(ls);
    var s := After(ls);
    forall t | t in s.live ensures !OthersAreDone(s, d) {
      if t !in s.lost {
        assert Held(s, t);
        var e :| e in s.drainers && t in s.drainers[e];
        assert e != d;
      }
    }
  }

  ghost predicate SingleDrain(ls: seq<Label>) {
    && (forall i :: 0 <= i < |ls| ==> !ls[i].DrainDropped?)
    && (forall i, j :: 0 <= i < j < |ls| ==> !(ls[i].DrainCalled? && ls[j].DrainCalled?))
  }

  ghost predicate NoDrainYet(ls: seq<Label>) {
    forall i :: 0 <= i < |ls| ==> !ls[i].DrainCalled?
  }

  lemma {:induction false} SingleDrainer(ls: seq<Label>)
    requires Feasible(ls) && SingleDrain(ls)
    ensures After(ls).lost == {}
    ensures NoDrainYet(ls) ==> After(ls).drainers == map[]
    ensures forall d, e :: d in After(ls).drainers && e in After(ls).drainers ==> d == e
  {
    if |ls| > 0 {
      var pre := ls[..|ls| - 1];
      SingleDrainer(pre);
      if ls[|ls| - 1].DrainCalled? {
        assert forall i :: 0 <= i < |pre| ==> pre[i] == ls[i];
        assert NoDrainYet(pre);
      }
      if NoDrainYet(ls) {
        assert forall i :: 0 <= i < |pre| ==> pre[i] == ls[i];
      }
    }
  }

  /** The service drains once and never drops the drain: at its return all work is done. */
  lemma SingleDrainIsComplete(ls: seq<Label>, d: Drainer)
    requires Feasible(ls) && SingleDrain(ls)
    requires Enabled(After(ls), DrainTakes(d)) && Returns(After(ls), DrainTakes(d))
    ensures After(ls).live == {} && After(ls).registry == []
  {
    SingleDrainer(ls);
    DrainReturnsWhenAllDone(ls, d);
  }

  /** From then on, if only registered tasks register tasks, the registry stays empty. */
  lemma {:induction false} EmptyStaysEmpty(s: State, ls: seq<Label>)
    requires s.live == {} && s.registry == []
    requires Run(Step, s, ls).Some?
    requires forall i :: 0 <= i < |ls| && ls[i].Spawns? ==> ls[i].parent.Some?
    ensures Run(Step, s, ls).value.live == {} && Run(Step, s, ls).value.registry == []
  {
    if |ls| > 0 {
      EmptyStaysEmpty(s, ls[..|ls| - 1]);
    }
  }

  // ---- What the records tell ----

  ghost predicate SpawnedIn(ls: seq<Label>, t: Task) {
    |ls| > 0 && (SpawnedIn(ls[..|ls| - 1], t) || (ls[|ls| - 1].Spawns? && ls[|ls| - 1].t == t))
  }

  lemma StepTells(s: State, l: Label, t: Task)
    requires Enabled(s, l)
    ensures t in Apply(s, l).ever <==> t in s.ever || (l.Spawns? && l.t == t)
    ensures t in Apply(s, l).live <==> (t in s.live && l != Finishes(t)) || (l.Spawns? && l.t == t)
  {
  }

  /** The registered tasks are those the run spawned, and those that have not finished are live. */
  lemma {:induction false} TasksAreTold(ls: seq<Label>, t: Task)
    requires Feasible(ls)
    ensures t in After(ls).ever <==> SpawnedIn(ls, t)
    ensures t in After(ls).live <==> SpawnedIn(ls, t) && Finishes(t) !in ls
  {
    if |ls| > 0 {
      var n := |ls| - 1;
      var pre, l := ls[..n], ls[n];
      TasksAreTold(pre, t);
      RunsKeepInv(pre);
      StepTells(After(pre), l, t);
      if Finishes(t) in pre { FinishedWasSpawned(pre, t); }
      assert ls == pre + [l];
    }
  }

  lemma {:induction false} FinishedWasSpawned(ls: seq<Label>, t: Task)
    requires Feasible(ls) && Finishes(t) in ls
    ensures t in After(ls).ever
  {
    var n := |ls| - 1;
    var pre, l := ls[..n], ls[n];
    assert ls == pre + [l];
    StepTells(After(pre), l, t);
    RunsKeepInv(pre);
    if l != Finishes(t) { FinishedWasSpawned(pre, t); }
  }

  /** So a drain that returns alone returns when everything the run spawned has finished. */
  lemma SingleDrainFinishesAll(ls: seq<Label>, d: Drainer, t: Task)
    requires Feasible(ls) && SingleDrain(ls)
    requires Enabled(After(ls), DrainTakes(d)) && Returns(After(ls), DrainTakes(d))
    ensures SpawnedIn(ls, t) ==> Finishes(t) in ls
  {
    SingleDrainIsComplete(ls, d);
    TasksAreTold(ls, t);
  }

  // ---- Two drainers ----

  const TwoDrainers := [Spawns(0, None), DrainCalled(0), DrainTakes(0), DrainCalled(1)]

  /** With a second concurrent drain the property fails: it returns at once while the task
      taken by the first one is still running. */
  lemma ConcurrentDrainMissesTasks()
    ensures Feasible(TwoDrainers) && Enabled(After(TwoDrainers), DrainTakes(1))
    ensures Returns(After(TwoDrainers), DrainTakes(1)) && After(TwoDrainers).live == {0}
  {
    var l1, l2, l3, l4 := TwoDrainers[0], TwoDrainers[1], TwoDrainers[2], TwoDrainers[3];
    var s1 := State([0], map[], {}, {0}, {0});
    var s2 := s1.(drainers := map[0 := []]);
    var s3 := State([], map[0 := [0]], {}, {0}, {0});
    var s4 := s3.(drainers := map[0 := [0], 1 := []]);
    assert Apply(Initial, l1) == s1 && Apply(s1, l2) == s2 && Apply(s2, l3) == s3 && Apply(s3, l4) == s4;
    Then(Step, Initial, [], Initial, l1, s1);
    Then(Step, Initial, [] + [l1], s1, l2, s2);
    Then(Step, Initial, [] + [l1] + [l2], s2, l3, s3);
    Then(Step, Initial, [] + [l1] + [l2] + [l3], s3, l4, s4);
    assert TwoDrainers == [] + [l1] + [l2] + [l3] + [l4];
  }
}
