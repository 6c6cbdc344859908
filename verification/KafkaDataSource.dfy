/** Start, rollback and stop of the Kafka datasource. The lifecycle gate admits one of them at
    a time; each may be dropped at any await, and what it owned must stay retryable. */
module KafkaDataSource {
  import opened Runs

  type Endpoint = nat

  // The caller that holds the lifecycle gate. `k` counts the endpoints already handled by
  // `start`; `left` counts those of the snapshot that the cleanup, going backwards, still has.
  datatype Caller =
    | Nobody
    | Topics
    | Starting(k: nat)
    | StartAwaits(k: nat)
    | Cleaning(snapshot: seq<Endpoint>, left: nat, hadError: bool)
    | StopAwaits(snapshot: seq<Endpoint>, left: nat, hadError: bool)

  // `starts` and `stops` list the calls made on endpoints; `stopped` holds the endpoints
  // whose stop was seen to succeed.
  datatype State = State(
    phase: nat, endpoints: seq<Endpoint>, active: seq<Endpoint>, caller: Caller,
    starts: seq<Endpoint>, stops: seq<Endpoint>, stopped: set<Endpoint>)

  const Initial := State(0, [], [], Nobody, [], [], {})

  datatype Label =
    | EndpointAdded(e: Endpoint)
    | StartEnters
    | TopicsDone(created: bool)
    | StartCalled(e: Endpoint)
    | StartSeen(e: Endpoint, ok: bool)
    | StartReturns
    | StopEnters
    | StopCalled(e: Endpoint)
    | StopSeen(e: Endpoint, ok: bool)
    | CleanupReturns
    | CallerDropped

  function Remove(es: seq<Endpoint>, e: Endpoint): (r: seq<Endpoint>)
    ensures forall x :: x in r <==> x in es && x != e
    ensures Distinct(es) ==> Distinct(r)
  {
    if |es| == 0 then []
    else
      var rest := Remove(es[..|es| - 1], e);
      assert Distinct(es) ==> es[|es| - 1] !in es[..|es| - 1];
      DistinctSnoc(rest, es[|es| - 1]);
      if es[|es| - 1] == e then rest else rest + [es[|es| - 1]]
  }

  predicate Distinct(es: seq<Endpoint>) {
    forall i, j :: 0 <= i < j < |es| ==> es[i] != es[j]
  }

  lemma DistinctSnoc(es: seq<Endpoint>, e: Endpoint)
    ensures Distinct(es) && e !in es ==> Distinct(es + [e])
  {
  }

  predicate Enabled(s: State, l: Label) {
    match l
    case EndpointAdded(e) => s.phase == 0 && e !in s.endpoints
    case StartEnters => s.caller == Nobody && s.phase == 0
    case TopicsDone(_) => s.caller == Topics
    case StartCalled(e) => s.caller.Starting? && s.caller.k < |s.endpoints| && e == s.endpoints[s.caller.k]
    case StartSeen(e, _) => s.caller.StartAwaits? && s.caller.k < |s.endpoints| && e == s.endpoints[s.caller.k]
    case StartReturns => s.caller == Starting(|s.endpoints|)
    case StopEnters => s.caller == Nobody && s.phase != 2
    case StopCalled(e) =>
      && s.caller.Cleaning? && 0 < s.caller.left <= |s.caller.snapshot|
      && e == s.caller.snapshot[s.caller.left - 1]
    case StopSeen(e, _) =>
      && s.caller.StopAwaits? && 0 < s.caller.left <= |s.caller.snapshot|
      && e == s.caller.snapshot[s.caller.left - 1]
    case CleanupReturns => s.caller.Cleaning? && s.caller.left == 0
    case CallerDropped => s.caller != Nobody
  }

  function Apply(s: State, l: Label): State
    requires Enabled(s, l)
  {
    match l
    case EndpointAdded(e) => s.(endpoints := s.endpoints + [e])
    case StartEnters => s.(phase := 1, caller := Topics)
    case TopicsDone(created) =>
      if created then s.(caller := Starting(0)) else s.(phase := 0, caller := Nobody)
    case StartCalled(e) =>
      s.(active := s.active + [e], starts := s.starts + [e], caller := StartAwaits(s.caller.k))
    case StartSeen(_, ok) =>
      if ok then s.(caller := Starting(s.caller.k + 1))
      else s.(phase := 3, caller := Cleaning(s.active, |s.active|, false))
    case StartReturns => s.(caller := Nobody)
    case StopEnters => s.(phase := 3, caller := Cleaning(s.active, |s.active|, false))
    case StopCalled(e) =>
      s.(stops := s.stops + [e], caller := StopAwaits(s.caller.snapshot, s.caller.left, s.caller.hadError))
    case StopSeen(e, ok) =>
      var next := Cleaning(s.caller.snapshot, s.caller.left - 1, s.caller.hadError || !ok);
      if ok then s.(active := Remove(s.active, e), stopped := s.stopped + {e}, caller := next)
      else s.(caller := next)
    case CleanupReturns => s.(caller := Nobody, phase := if s.caller.hadError then 3 else 2)
    case CallerDropped => s.(caller := Nobody)
  }

  // ---- Runs ----

  function Step(s: State, l: Label): Option<State> {
    if Enabled(s, l) then Some(Apply(s, l)) else None
  }

  ghost predicate Feasible(ls: seq<Label>) {
    Run(Step, Initial, ls).Some?
  }

  ghost function After(ls: seq<Label>): State
    requires Feasible(ls)
  {
    Run(Step, Initial, ls).value
  }

  // ---- Invariant ----

  /** How many endpoints `start` has called: a prefix of the list, in order. */
  ghost predicate StartedPrefix(s: State) {
    && |s.starts| <= |s.endpoints| && s.starts == s.endpoints[..|s.starts|]
    && (s.phase == 0 ==> s.starts == [])
    && (s.caller.Topics? ==> s.starts == [] && s.phase == 1)
    && (s.caller.Starting? ==> s.caller.k == |s.starts| && s.phase == 1)
    && (s.caller.StartAwaits? ==> s.caller.k + 1 == |s.starts| && s.phase == 1)
  }

  ghost predicate OwnershipInv(s: State) {
    && Distinct(s.endpoints) && Distinct(s.active)
    && (forall e :: e in s.active <==> e in s.starts && e !in s.stopped)
    && s.stopped <= (set e | e in s.starts)
    && (s.phase == 2 ==> s.active == [])
    && s.phase <= 3
  }

  ghost predicate CleaningInv(s: State, snapshot: seq<Endpoint>, left: nat, hadError: bool) {
    && left <= |snapshot| && Distinct(snapshot) && s.phase == 3
    && (forall i :: 0 <= i < left ==> snapshot[i] in s.active)
    && (!hadError ==> forall e :: e in s.active ==> e in snapshot[..left])
  }

  ghost predicate CallerInv(s: State) {
    && (s.caller.Cleaning? ==> CleaningInv(s, s.caller.snapshot, s.caller.left, s.caller.hadError))
    && (s.caller.StopAwaits? ==>
          CleaningInv(s, s.caller.snapshot, s.caller.left, s.caller.hadError) && s.caller.left > 0)
  }

  ghost predicate Inv(s: State) {
    StartedPrefix(s) && OwnershipInv(s) && CallerInv(s)
  }

  lemma StartCalledKeepsInv(s: State, e: Endpoint)
    requires Inv(s) && Enabled(s, StartCalled(e))
    ensures Inv(Apply(s, StartCalled(e)))
  {
    var k := s.caller.k;
    assert s.endpoints[..k + 1] == s.endpoints[..k] + [e];
    forall i | 0 <= i < |s.starts| ensures s.starts[i] != e { assert s.starts[i] == s.endpoints[i]; }
    DistinctSnoc(s.active, e);
  }

  lemma StopSeenKeepsInv(s: State, e: Endpoint, ok: bool)
    requires Inv(s) && Enabled(s, StopSeen(e, ok))
    ensures Inv(Apply(s, StopSeen(e, ok)))
  {
    var snapshot, n := s.caller.snapshot, s.caller.left - 1;
    assert snapshot[..n + 1] == snapshot[..n] + [snapshot[n]];
    assert snapshot[n] in s.active;
  }

  lemma StepKeepsInv(s: State, l: Label)
    requires Inv(s) && Enabled(s, l)
    ensures Inv(Apply(s, l))
  {
    match l
    case StartCalled(e) => StartCalledKeepsInv(s, e);
    case StopSeen(e, ok) => StopSeenKeepsInv(s, e, ok);
    case EndpointAdded(e) =>
      DistinctSnoc(s.endpoints, e);
      assert (s.endpoints + [e])[..0] == [];
    case CleanupReturns =>
      assert s.caller.snapshot[..0] == [];
      if !s.caller.hadError && |s.active| > 0 { assert s.active[0] in s.active; }
    case _ =>
      assert s.active[..|s.active|] == s.active;
      assert forall i :: 0 <= i < |s.active| ==> s.active[i] in s.active;
  }

  lemma RunsKeepInv(ls: seq<Label>)
    requires Feasible(ls)
    ensures Inv(After(ls))
  {
    forall s, l | Inv(s) && Step(s, l).Some? ensures Inv(Step(s, l).value) { StepKeepsInv(s, l); }
    Invariant(Step, Inv, Initial, ls);
  }

  // ---- What the records tell ----

  ghost function StartsIn(ls: seq<Label>): seq<Endpoint> {
    if |ls| == 0 then []
    else StartsIn(ls[..|ls| - 1]) + if ls[|ls| - 1].StartCalled? then [ls[|ls| - 1].e] else []
  }

  ghost function StopsIn(ls: seq<Label>): seq<Endpoint> {
    if |ls| == 0 then []
    else StopsIn(ls[..|ls| - 1]) + if ls[|ls| - 1].StopCalled? then [ls[|ls| - 1].e] else []
  }

  lemma StepTells(s: State, l: Label, e: Endpoint)
    requires Enabled(s, l)
    ensures Apply(s, l).starts == s.starts + (if l.StartCalled? then [l.e] else [])
    ensures Apply(s, l).stops == s.stops + (if l.StopCalled? then [l.e] else [])
    ensures e in Apply(s, l).stopped <==> e in s.stopped || l == StopSeen(e, true)
  {
  }

  /** The records are the calls of the run and the stops seen to succeed. */
  lemma {:induction false} RecordsAreTold(ls: seq<Label>, e: Endpoint)
    requires Feasible(ls)
    ensures After(ls).starts == StartsIn(ls) && After(ls).stops == StopsIn(ls)
    ensures e in After(ls).stopped <==> StopSeen(e, true) in ls
  {
    if |ls| > 0 {
      var n := |ls| - 1;
      RecordsAreTold(ls[..n], e);
      StepTells(After(ls[..n]), ls[n], e);
      assert ls == ls[..n] + [ls[n]];
    }
  }

  // ---- The course of start and stop ----

  /** The last step of whoever held the lifecycle gate. */
  ghost function LastStep(ls: seq<Label>): Option<Label> {
    if |ls| == 0 then None
    else if !ls[|ls| - 1].EndpointAdded? then Some(ls[|ls| - 1]) else LastStep(ls[..|ls| - 1])
  }

  /** Where its last step leaves the gate holder: in particular a start that fails, like a stop,
      goes on to stop everything that is active, from the last to the first. */
  predicate Position(last: Option<Label>, s: State) {
    match last
    case None => s.caller == Nobody && s.phase == 0
    case Some(StartEnters) => s.caller == Topics && s.phase == 1
    case Some(TopicsDone(created)) =>
      if created then s.caller == Starting(0) && s.phase == 1 else s.caller == Nobody && s.phase == 0
    case Some(StartCalled(e)) => s.caller.StartAwaits? && s.phase == 1 && Last(s.active) == Some(e)
    case Some(StartSeen(_, ok)) =>
      if ok then s.caller.Starting? && s.caller.k > 0 && s.phase == 1
      else s.caller == Cleaning(s.active, |s.active|, false) && s.phase == 3
    case Some(StartReturns) => s.caller == Nobody && s.phase == 1
    case Some(StopEnters) => s.caller == Cleaning(s.active, |s.active|, false) && s.phase == 3
    case Some(StopCalled(_)) => s.caller.StopAwaits? && s.phase == 3
    case Some(StopSeen(_, ok)) => s.caller.Cleaning? && s.phase == 3 && (!ok ==> s.caller.hadError)
    case Some(CleanupReturns) => s.caller == Nobody && (s.phase == 2 || s.phase == 3)
    case Some(CallerDropped) => s.caller == Nobody
    case _ => false
  }

  function Last(es: seq<Endpoint>): Option<Endpoint> {
    if |es| == 0 then None else Some(es[|es| - 1])
  }

  lemma StepPositions(s: State, l: Label, last: Option<Label>)
    requires Inv(s) && Enabled(s, l) && Position(last, s)
    ensures Position(if l.EndpointAdded? then last else Some(l), Apply(s, l))
  {
  }

  /** In every run the last step of the gate holder tells where it is. */
  lemma {:induction false} GateHolderTakesItsCourse(ls: seq<Label>)
    requires Feasible(ls)
    ensures Position(LastStep(ls), After(ls))
  {
    if |ls| > 0 {
      var pre := ls[..|ls| - 1];
      GateHolderTakesItsCourse(pre);
      RunsKeepInv(pre);
      StepPositions(After(pre), ls[|ls| - 1], LastStep(pre));
    }
  }

  /** A cleanup ends in state 2 exactly when every stop of it was seen to succeed, and then
      nothing is owned. */
  lemma CleanupEnds(ls: seq<Label>)
    requires Feasible(ls) && Enabled(After(ls), CleanupReturns)
    ensures var (s, s') := (After(ls), Apply(After(ls), CleanupReturns));
            && s'.phase == (if s.caller.hadError then 3 else 2) && s'.active == s.active
            && (!s.caller.hadError ==> s.active == [])
  {
    RunsKeepInv(ls);
    var s := After(ls);
    assert s.caller.snapshot[..0] == [];
    FirstIsIn(s.active);
  }

  lemma FirstIsIn(es: seq<Endpoint>)
    ensures |es| > 0 ==> es[0] in es
  {
  }

  /** Before the first start nothing was called and nothing is owned. */
  lemma ColdIsEmpty(ls: seq<Label>)
    requires Feasible(ls) && After(ls).phase == 0
    ensures After(ls).active == [] && After(ls).starts == []
  {
    RunsKeepInv(ls);
    FirstIsIn(After(ls).active);
  }

  // ---- What holds in every run ----

  /** An endpoint whose start was called and whose stop was not seen to succeed is owned by the
      active list, and nothing else is; so the final state owns nothing. */
  lemma AttemptedIsOwned(ls: seq<Label>, e: Endpoint)
    requires Feasible(ls)
    ensures e in After(ls).active <==> e in StartsIn(ls) && StopSeen(e, true) !in ls
    ensures After(ls).phase == 2 ==> After(ls).active == [] && (e in StartsIn(ls) ==> StopSeen(e, true) in ls)
  {
    RunsKeepInv(ls);
    RecordsAreTold(ls, e);
  }

  /** Each endpoint is started at most once, in registration order, over all `start` calls. */
  lemma StartedAtMostOnce(ls: seq<Label>)
    requires Feasible(ls)
    ensures Distinct(StartsIn(ls)) && StartsIn(ls) <= After(ls).endpoints
  {
    RunsKeepInv(ls);
    RecordsAreTold(ls, 0);
    var s := After(ls);
    assert forall i :: 0 <= i < |s.starts| ==> s.starts[i] == s.endpoints[i];
  }

  /** Once an endpoint's stop was seen to succeed, its stop is never called again. */
  lemma StoppedStaysStopped(ls: seq<Label>, e: Endpoint)
    requires Feasible(ls) && Enabled(After(ls), StopCalled(e))
    ensures e in After(ls).active && StopSeen(e, true) !in ls
  {
    RunsKeepInv(ls);
    RecordsAreTold(ls, e);
  }
}
