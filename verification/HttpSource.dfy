/** Request sessions of the HTTP source. Unlike the gRPC source, a request frees its stream ID
    before it drains its result callbacks, so the ID may be reused while the request ends. */
module HttpSource {
  import opened Runs

  type StreamId = nat
  type Ref = nat   // identity of a request and of its `PendingRequest`
  type Task = nat

  datatype ResultStage = Waiting | Locked | Handling

  // The request future: inside consume_message, waiting for `done`, about to free the ID,
  // waiting for the write guard of the entry it removed, inside end_request, returned.
  datatype Stage =
    | Consuming | WaitDone | Freeing
    | Draining(removed: Option<Ref>) | Ending(removed: Option<Ref>) | Ended

  // The variables of the request: what consume_message returned, whether the wait ended by
  // cancellation, and the result that end_request is given, each as success or failure.
  datatype Vars = Vars(consumed: bool, waitCancelled: bool, result: bool)

  // `inserted` tells whether the request entered the pending table; `writing` is the write
  // guard on its `lifetime` lock, and the read guards are those of `results`. `done` and
  // `cancelled` are the tokens of its result context and of its own context.
  datatype Session = Session(
    id: StreamId, inserted: bool, stage: Stage, writing: bool, results: map<Task, ResultStage>,
    endsStarted: nat, endsReturned: nat, done: bool, cancelled: bool, vars: Vars)

  const Unset := Vars(false, false, false)

  datatype State = State(pending: map<StreamId, Ref>, sessions: map<Ref, Session>)

  const Initial := State(map[], map[])

  datatype Label =
    | BeginReturns(ref: Ref, id: StreamId)
    | ConsumeReturns(ref: Ref, ok: bool)
    | DoneCalled(ref: Ref)
    | ContextCancelled(ref: Ref)
    | WaitEnds(ref: Ref, byCancel: bool)
    | Frees(ref: Ref)
    | Drains(ref: Ref)
    | EndReturns(ref: Ref)
    | ResultArrives(t: Task, id: StreamId)
    | ResultLocks(ref: Ref, t: Task)
    | ResultRechecks(ref: Ref, t: Task)
    | ResultLeaves(ref: Ref, t: Task)

  // ---- Steps ----

  predicate ReadHeld(x: Session) {
    exists t :: t in x.results && x.results[t] != Waiting
  }

  predicate Reserved(s: State, ref: Ref)
    requires ref in s.sessions
  {
    s.sessions[ref].id in s.pending && s.pending[s.sessions[ref].id] == ref
  }

  function Put(s: State, ref: Ref, x: Session): State {
    s.(sessions := s.sessions[ref := x])
  }

  function PutResult(s: State, ref: Ref, t: Task, stage: ResultStage): State
    requires ref in s.sessions
  {
    Put(s, ref, s.sessions[ref].(results := s.sessions[ref].results[t := stage]))
  }

  function DropResult(s: State, ref: Ref, t: Task): State
    requires ref in s.sessions
  {
    Put(s, ref, s.sessions[ref].(results := s.sessions[ref].results - {t}))
  }

  predicate At(s: State, ref: Ref, stage: Stage) {
    ref in s.sessions && s.sessions[ref].stage == stage
  }

  predicate HasResult(s: State, ref: Ref, t: Task) {
    ref in s.sessions && t in s.sessions[ref].results
  }

  predicate Enabled(s: State, l: Label) {
    match l
    case BeginReturns(ref, _) => ref !in s.sessions
    case ConsumeReturns(ref, _) => At(s, ref, Consuming)
    case DoneCalled(ref) => ref in s.sessions && !s.sessions[ref].done
    case ContextCancelled(ref) => ref in s.sessions && !s.sessions[ref].cancelled
    case WaitEnds(ref, byCancel) =>
      At(s, ref, WaitDone) && if byCancel then s.sessions[ref].cancelled else s.sessions[ref].done
    case Frees(ref) => At(s, ref, Freeing)
    case Drains(ref) =>
      && ref in s.sessions && s.sessions[ref].stage.Draining?
      && match s.sessions[ref].stage.removed {
        case None => true
        case Some(r) => r in s.sessions && !s.sessions[r].writing && !ReadHeld(s.sessions[r])
      }
    case EndReturns(ref) => ref in s.sessions && s.sessions[ref].stage.Ending?
    case ResultArrives(t, id) =>
      id in s.pending && s.pending[id] in s.sessions && t !in s.sessions[s.pending[id]].results
    case ResultLocks(ref, t) =>
      HasResult(s, ref, t) && s.sessions[ref].results[t] == Waiting && !s.sessions[ref].writing
    case ResultRechecks(ref, t) => HasResult(s, ref, t) && s.sessions[ref].results[t] == Locked
    case ResultLeaves(ref, t) => HasResult(s, ref, t) && s.sessions[ref].results[t] != Locked
  }

  function SetWriting(s: State, removed: Option<Ref>, writing: bool): State {
    if removed.Some? && removed.value in s.sessions
    then Put(s, removed.value, s.sessions[removed.value].(writing := writing)) else s
  }

  /** `hasResult`: the endpoint has a result stream and therefore a pending table. */
  function Apply(hasResult: bool, s: State, l: Label): State
    requires Enabled(s, l)
  {
    match l
    case BeginReturns(ref, id) =>
      if hasResult && id in s.pending then
        Put(s, ref, Session(id, false, Ending(None), false, map[], 1, 0, false, false, Unset))
      else
        Put(s, ref, Session(id, hasResult, Consuming, false, map[], 0, 0, false, false, Unset))
          .(pending := if hasResult then s.pending[id := ref] else s.pending)
    case ConsumeReturns(ref, ok) =>
      Put(s, ref, s.sessions[ref].(stage := if ok && hasResult then WaitDone else Freeing, vars := Vars(ok, false, ok)))
    case DoneCalled(ref) => Put(s, ref, s.sessions[ref].(done := true))
    case ContextCancelled(ref) => Put(s, ref, s.sessions[ref].(cancelled := true))
    case WaitEnds(ref, byCancel) =>
      Put(s, ref, s.sessions[ref].(stage := Freeing, vars := Vars(true, byCancel, !byCancel)))
    case Frees(ref) =>
      var id := s.sessions[ref].id;
      var removed := if hasResult && id in s.pending then Some(s.pending[id]) else None;
      Put(s, ref, s.sessions[ref].(stage := Draining(removed)))
        .(pending := if hasResult then s.pending - {id} else s.pending)
    case Drains(ref) =>
      var removed := s.sessions[ref].stage.removed;
      var s' := SetWriting(s, removed, true);
      var x := s'.sessions[ref];
      // A wait that was cancelled still succeeds when `done` was called meanwhile.
      var result := x.vars.result || (x.vars.waitCancelled && x.done);
      Put(s', ref, x.(stage := Ending(removed), endsStarted := x.endsStarted + 1, vars := x.vars.(result := result)))
    case EndReturns(ref) =>
      var s' := SetWriting(s, s.sessions[ref].stage.removed, false);
      Put(s', ref, s'.sessions[ref].(stage := Ended, endsReturned := s'.sessions[ref].endsReturned + 1))
    case ResultArrives(t, id) => PutResult(s, s.pending[id], t, Waiting)
    case ResultLocks(ref, t) => PutResult(s, ref, t, Locked)
    case ResultRechecks(ref, t) =>
      if Reserved(s, ref) then PutResult(s, ref, t, Handling) else DropResult(s, ref, t)
    case ResultLeaves(ref, t) => DropResult(s, ref, t)
  }

  // ---- Runs ----

  function Stepper(hasResult: bool): (State, Label) -> Option<State> {
    (s, l) => if Enabled(s, l) then Some(Apply(hasResult, s, l)) else None
  }

  ghost predicate Feasible(hasResult: bool, ls: seq<Label>) {
    Run(Stepper(hasResult), Initial, ls).Some?
  }

  ghost function After(hasResult: bool, ls: seq<Label>): State
    requires Feasible(hasResult, ls)
  {
    Run(Stepper(hasResult), Initial, ls).value
  }

  // ---- Invariant ----

  predicate Active(x: Session) {
    x.stage == Consuming || x.stage == WaitDone || x.stage == Freeing
  }

  ghost predicate SessionInv(ref: Ref, x: Session) {
    && (x.stage.Draining? || x.stage.Ending? ==> x.stage.removed == if x.inserted then Some(ref) else None)
    && x.writing == (x.stage == Ending(Some(ref)))
    && x.endsStarted == (if x.stage.Ending? || x.stage.Ended? then 1 else 0)
    && x.endsReturned == (if x.stage.Ended? then 1 else 0)
    && (x.writing ==> !ReadHeld(x))
    && (forall t :: t in x.results ==> x.inserted)
    && (forall t :: t in x.results && x.results[t] == Handling ==> x.endsStarted == 0)
  }

  ghost predicate SessionsInv(s: State) {
    forall ref :: ref in s.sessions ==> SessionInv(ref, s.sessions[ref])
  }

  ghost predicate TableInv(hasResult: bool, s: State) {
    && (forall id :: id in s.pending ==> s.pending[id] in s.sessions && s.sessions[s.pending[id]].id == id)
    && (forall ref :: ref in s.sessions ==> (Reserved(s, ref) <==> s.sessions[ref].inserted && Active(s.sessions[ref])))
    && (forall ref :: ref in s.sessions && Active(s.sessions[ref]) ==> s.sessions[ref].inserted == hasResult)
  }

  ghost predicate Inv(hasResult: bool, s: State) {
    SessionsInv(s) && TableInv(hasResult, s)
  }

  lemma PutKeepsSessions(s: State, ref: Ref, x: Session)
    requires SessionsInv(s) && SessionInv(ref, x)
    ensures SessionsInv(Put(s, ref, x))
  {
    var s' := Put(s, ref, x);
    forall q | q in s'.sessions ensures SessionInv(q, s'.sessions[q]) {
      if q == ref { } else { assert s'.sessions[q] == s.sessions[q]; }
    }
  }

  /** Session `ref` after step `l` that acts on it. */
  function Next(hasResult: bool, s: State, l: Label, ref: Ref): Session
    requires Enabled(s, l) && ref in Apply(hasResult, s, l).sessions
  {
    Apply(hasResult, s, l).sessions[ref]
  }

  function Target(s: State, l: Label): Ref
    requires Enabled(s, l)
  {
    if l.ResultArrives? then s.pending[l.id] else l.ref
  }

  lemma StepActsOnTarget(hasResult: bool, s: State, l: Label)
    requires Inv(hasResult, s) && Enabled(s, l)
    ensures var r := Target(s, l);
            && r in Apply(hasResult, s, l).sessions
            && SessionInv(r, Next(hasResult, s, l, r))
            && Apply(hasResult, s, l).sessions == s.sessions[r := Next(hasResult, s, l, r)]
  {
    var r := Target(s, l);
    if r in s.sessions {
      assert SessionInv(r, s.sessions[r]);
      if l.Drains? || l.EndReturns? { EndStepActs(hasResult, s, l); } else { OtherStepActs(hasResult, s, l); }
    }
  }

  lemma EndStepActs(hasResult: bool, s: State, l: Label)
    requires SessionsInv(s) && Enabled(s, l) && (l.Drains? || l.EndReturns?)
    ensures SessionInv(l.ref, Next(hasResult, s, l, l.ref))
    ensures Apply(hasResult, s, l).sessions == s.sessions[l.ref := Next(hasResult, s, l, l.ref)]
  {
    assert SessionInv(l.ref, s.sessions[l.ref]);
  }

  lemma OtherStepActs(hasResult: bool, s: State, l: Label)
    requires Inv(hasResult, s) && Enabled(s, l) && !l.Drains? && !l.EndReturns? && Target(s, l) in s.sessions
    ensures var r := Target(s, l);
            && r in Apply(hasResult, s, l).sessions
            && SessionInv(r, Next(hasResult, s, l, r))
            && Apply(hasResult, s, l).sessions == s.sessions[r := Next(hasResult, s, l, r)]
  {
    assert SessionInv(Target(s, l), s.sessions[Target(s, l)]);
  }

  lemma PutKeepsTable(hasResult: bool, s: State, ref: Ref, x: Session)
    requires TableInv(hasResult, s) && ref in s.sessions
    requires x.id == s.sessions[ref].id && x.inserted == s.sessions[ref].inserted
    requires Active(x) == Active(s.sessions[ref])
    ensures TableInv(hasResult, Put(s, ref, x))
  {
  }

  lemma FreeKeepsTable(hasResult: bool, s: State, ref: Ref, x: Session)
    requires TableInv(hasResult, s) && At(s, ref, Freeing)
    requires x.id == s.sessions[ref].id && x.inserted == s.sessions[ref].inserted && !Active(x)
    ensures TableInv(hasResult, Put(s, ref, x).(pending := if hasResult then s.pending - {x.id} else s.pending))
  {
  }

  lemma BeginKeepsTable(hasResult: bool, s: State, l: Label)
    requires TableInv(hasResult, s) && l.BeginReturns? && Enabled(s, l)
    ensures TableInv(hasResult, Apply(hasResult, s, l))
  {
  }

  lemma StepKeepsTable(hasResult: bool, s: State, l: Label)
    requires Inv(hasResult, s) && Enabled(s, l)
    ensures TableInv(hasResult, Apply(hasResult, s, l))
  {
    StepActsOnTarget(hasResult, s, l);
    var r := Target(s, l);
    match l
    case BeginReturns(_, _) => BeginKeepsTable(hasResult, s, l);
    case Frees(_) => FreeKeepsTable(hasResult, s, r, Next(hasResult, s, l, r));
    case _ =>
      assert SessionInv(r, s.sessions[r]);
      PutKeepsTable(hasResult, s, r, Next(hasResult, s, l, r));
  }

  lemma StepKeepsInv(hasResult: bool, s: State, l: Label)
    requires Inv(hasResult, s) && Enabled(s, l)
    ensures Inv(hasResult, Apply(hasResult, s, l))
  {
    StepActsOnTarget(hasResult, s, l);
    var r := Target(s, l);
    PutKeepsSessions(s, r, Next(hasResult, s, l, r));
    StepKeepsTable(hasResult, s, l);
  }

  lemma RunsKeepInv(hasResult: bool, ls: seq<Label>)
    requires Feasible(hasResult, ls)
    ensures Inv(hasResult, After(hasResult, ls))
  {
    var step := Stepper(hasResult);
    forall s, l | Inv(hasResult, s) && step(s, l).Some? ensures Inv(hasResult, step(s, l).value) {
      StepKeepsInv(hasResult, s, l);
    }
    Invariant(step, s => Inv(hasResult, s), Initial, ls);
  }

  // ---- What holds in every run ----

  /** No result callback of a request overlaps or follows its `end_request`, whether or not its
      ID has been reused meanwhile, and `end_request` is entered at most once. */
  lemma NoCallbackAtEnd(hasResult: bool, ls: seq<Label>, ref: Ref, t: Task)
    requires Feasible(hasResult, ls) && ref in After(hasResult, ls).sessions
    requires After(hasResult, ls).sessions[ref].endsStarted > 0
    ensures var x := After(hasResult, ls).sessions[ref];
            && x.endsStarted == 1 && x.endsReturned <= 1
            && !(t in x.results && x.results[t] == Handling)
            && !Reserved(After(hasResult, ls), ref)
  {
    RunsKeepInv(hasResult, ls);
    assert SessionInv(ref, After(hasResult, ls).sessions[ref]);
  }

  /** A result enters handler code only for the request that holds the ID at that moment, and
      that request has not begun to end. */
  lemma ResultReachesHolder(hasResult: bool, ls: seq<Label>, ref: Ref, t: Task)
    requires Feasible(hasResult, ls) && Enabled(After(hasResult, ls), ResultRechecks(ref, t))
    ensures var s := After(hasResult, ls);
            var x := Next(hasResult, s, ResultRechecks(ref, t), ref);
            (t in x.results && x.results[t] == Handling) <==> Reserved(s, ref) && Active(s.sessions[ref])
  {
    RunsKeepInv(hasResult, ls);
    assert SessionInv(ref, After(hasResult, ls).sessions[ref]);
  }

  /** The pop by ID is unconditional, yet it removes exactly the request's own entry, so the
      lock that is drained is the request's own. */
  lemma PopRemovesOwnEntry(hasResult: bool, ls: seq<Label>, ref: Ref)
    requires Feasible(hasResult, ls) && Enabled(After(hasResult, ls), Frees(ref))
    ensures var s := After(hasResult, ls);
            && s.sessions[ref].inserted == hasResult
            && Next(hasResult, s, Frees(ref), ref).stage == Draining(if hasResult then Some(ref) else None)
  {
    RunsKeepInv(hasResult, ls);
    assert SessionInv(ref, After(hasResult, ls).sessions[ref]);
  }

  /** Requests that still hold their ID never share it. */
  lemma HoldersAreDistinct(hasResult: bool, ls: seq<Label>, p: Ref, q: Ref)
    requires Feasible(hasResult, ls) && hasResult
    requires p in After(hasResult, ls).sessions && q in After(hasResult, ls).sessions
    requires After(hasResult, ls).sessions[p].id == After(hasResult, ls).sessions[q].id
    requires Active(After(hasResult, ls).sessions[p]) && Active(After(hasResult, ls).sessions[q])
    ensures p == q
  {
    RunsKeepInv(hasResult, ls);
  }

  // ---- The course of a request ----

  predicate IsOwn(ref: Ref, l: Label) {
    match l
    case BeginReturns(r, _) => r == ref
    case ConsumeReturns(r, _) => r == ref
    case WaitEnds(r, _) => r == ref
    case Frees(r) => r == ref
    case Drains(r) => r == ref
    case EndReturns(r) => r == ref
    case _ => false
  }

  /** The steps that bring a request to its stage: with a result stream, a message consumed well is
      followed by the wait, and only then is the ID freed. A duplicate goes straight to its end. */
  function Story(hasResult: bool, ref: Ref, x: Session): seq<Label> {
    var begun := [BeginReturns(ref, x.id)];
    var consumed := begun + [ConsumeReturns(ref, x.vars.consumed)];
    var waited := if hasResult && x.vars.consumed then consumed + [WaitEnds(ref, x.vars.waitCancelled)] else consumed;
    var drained := if hasResult && !x.inserted then begun else waited + [Frees(ref)] + [Drains(ref)];
    match x.stage
    case Consuming => begun
    case WaitDone => consumed
    case Freeing => waited
    case Draining(_) => waited + [Frees(ref)]
    case Ending(_) => drained
    case Ended => drained + [EndReturns(ref)]
  }

  /** The variables at a stage, told without the steps that set them. */
  predicate VarsFit(hasResult: bool, x: Session) {
    match x.stage
    case Consuming => true
    case WaitDone => hasResult && x.vars == Vars(true, false, true)
    case Ending(_) => true
    case Ended => true
    case _ =>
      && x.vars.result == (x.vars.consumed && !x.vars.waitCancelled)
      && (hasResult && x.vars.consumed && !x.vars.waitCancelled ==> x.done)
      && (x.vars.waitCancelled ==> hasResult && x.vars.consumed && x.cancelled)
  }

  ghost predicate Told(hasResult: bool, s: State, ls: seq<Label>, ref: Ref) {
    && (ref !in s.sessions ==> Filter((l: Label) => IsOwn(ref, l), ls) == [])
    && (ref in s.sessions ==>
          && Filter((l: Label) => IsOwn(ref, l), ls) == Story(hasResult, ref, s.sessions[ref])
          && VarsFit(hasResult, s.sessions[ref])
          && (!s.sessions[ref].inserted && hasResult ==> s.sessions[ref].stage.Ending? || s.sessions[ref].stage.Ended?))
  }

  /** Step `l` of the request itself takes `x` to `y`; results and signals are left aside. */
  predicate Moves(hasResult: bool, x: Session, l: Label, y: Session) {
    && y.id == x.id && y.inserted == x.inserted
    && match l {
      case ConsumeReturns(_, ok) =>
        && x.stage == Consuming && y.stage == (if ok && hasResult then WaitDone else Freeing)
        && y.vars == Vars(ok, false, ok)
      case WaitEnds(_, c) =>
        && x.stage == WaitDone && y.stage == Freeing && y.vars == Vars(true, c, !c)
        && (if c then y.cancelled else y.done)
      case Frees(_) =>
        && x.stage == Freeing && y.stage.Draining? && y.vars == x.vars && y.done == x.done && y.cancelled == x.cancelled
      case Drains(_) => x.stage.Draining? && y.stage.Ending? && y.vars == x.vars.(result := y.vars.result)
      case EndReturns(_) => x.stage.Ending? && y.stage.Ended? && y.vars == x.vars
      case _ => false
    }
  }

  lemma OwnStepMoves(hasResult: bool, s: State, l: Label)
    requires Inv(hasResult, s) && Enabled(s, l) && Target(s, l) in s.sessions && IsOwn(Target(s, l), l)
    ensures Target(s, l) in Apply(hasResult, s, l).sessions
    ensures Moves(hasResult, s.sessions[Target(s, l)], l, Next(hasResult, s, l, Target(s, l)))
  {
    assert SessionInv(Target(s, l), s.sessions[Target(s, l)]);
  }

  lemma MoveTells(hasResult: bool, ref: Ref, x: Session, l: Label, y: Session)
    requires VarsFit(hasResult, x) && IsOwn(ref, l) && Moves(hasResult, x, l, y)
    requires !x.inserted && hasResult ==> x.stage.Ending?
    ensures VarsFit(hasResult, y) && Story(hasResult, ref, y) == Story(hasResult, ref, x) + [l]
  {
  }

  lemma StepTells(hasResult: bool, s: State, l: Label, ref: Ref)
    requires Inv(hasResult, s) && Enabled(s, l) && ref in s.sessions && VarsFit(hasResult, s.sessions[ref])
    requires !s.sessions[ref].inserted && hasResult ==> s.sessions[ref].stage.Ending? || s.sessions[ref].stage.Ended?
    ensures ref in Apply(hasResult, s, l).sessions
    ensures var y := Next(hasResult, s, l, ref);
            && VarsFit(hasResult, y)
            && (!y.inserted && hasResult ==> y.stage.Ending? || y.stage.Ended?)
            && Story(hasResult, ref, y) == Story(hasResult, ref, s.sessions[ref]) + if IsOwn(ref, l) then [l] else []
  {
    StepActsOnTarget(hasResult, s, l);
    if IsOwn(ref, l) {
      OwnStepMoves(hasResult, s, l);
      MoveTells(hasResult, ref, s.sessions[ref], l, Next(hasResult, s, l, ref));
    } else if Target(s, l) == ref {
      OtherStepKeeps(hasResult, s, l);
    }
  }

  lemma OtherStepKeeps(hasResult: bool, s: State, l: Label)
    requires Enabled(s, l) && Target(s, l) in s.sessions && !IsOwn(Target(s, l), l)
    ensures Target(s, l) in Apply(hasResult, s, l).sessions
    ensures var (x, y) := (s.sessions[Target(s, l)], Next(hasResult, s, l, Target(s, l)));
            && y.id == x.id && y.inserted == x.inserted && y.stage == x.stage && y.vars == x.vars
            && (x.done ==> y.done) && (x.cancelled ==> y.cancelled)
  {
  }

  /** In every run the steps of a request are exactly those of its course, up to its stage. */
  lemma {:induction false} RequestTakesItsCourse(hasResult: bool, ls: seq<Label>, ref: Ref)
    requires Feasible(hasResult, ls)
    ensures Told(hasResult, After(hasResult, ls), ls, ref)
  {
    if |ls| > 0 {
      var pre, l := ls[..|ls| - 1], ls[|ls| - 1];
      RequestTakesItsCourse(hasResult, pre, ref);
      RunsKeepInv(hasResult, pre);
      var s := After(hasResult, pre);
      if ref in s.sessions {
        StepTells(hasResult, s, l, ref);
      } else {
        StepActsOnTarget(hasResult, s, l);
      }
    }
  }

  /** With a result stream, a request that consumed its message well has waited when it frees its
      ID; no other request waits. The ID is held exactly until it is freed. */
  lemma ResultIsAwaited(hasResult: bool, ls: seq<Label>, ref: Ref)
    requires Feasible(hasResult, ls) && ref in After(hasResult, ls).sessions
    ensures Frees(ref) in ls && hasResult && ConsumeReturns(ref, true) in ls ==>
              WaitEnds(ref, false) in ls || WaitEnds(ref, true) in ls
    ensures WaitEnds(ref, false) in ls || WaitEnds(ref, true) in ls ==> hasResult && ConsumeReturns(ref, true) in ls
    ensures After(hasResult, ls).sessions[ref].inserted ==> (Reserved(After(hasResult, ls), ref) <==> Frees(ref) !in ls)
  {
    RequestTakesItsCourse(hasResult, ls, ref);
    RunsKeepInv(hasResult, ls);
    var own := (l: Label) => IsOwn(ref, l);
    FilterHas(own, ls, Frees(ref));
    FilterHas(own, ls, ConsumeReturns(ref, true));
    FilterHas(own, ls, WaitEnds(ref, false));
    FilterHas(own, ls, WaitEnds(ref, true));
    StoryHas(hasResult, ref, After(hasResult, ls).sessions[ref]);
  }

  lemma StoryHas(hasResult: bool, ref: Ref, x: Session)
    requires VarsFit(hasResult, x) && (!x.inserted && hasResult ==> x.stage.Ending? || x.stage.Ended?)
    ensures var (story, waited) := (Story(hasResult, ref, x), WaitEnds(ref, x.vars.waitCancelled));
            && (Frees(ref) in story <==> !Active(x) && !(hasResult && !x.inserted))
            && (Frees(ref) in story && hasResult && ConsumeReturns(ref, true) in story ==> waited in story)
            && (forall c :: WaitEnds(ref, c) in story ==> hasResult && ConsumeReturns(ref, true) in story)
  {
  }

  lemma StepSignals(hasResult: bool, s: State, l: Label, ref: Ref)
    requires Inv(hasResult, s) && Enabled(s, l)
    ensures ref in s.sessions ==> ref in Apply(hasResult, s, l).sessions
    ensures ref in Apply(hasResult, s, l).sessions ==>
              var y := Next(hasResult, s, l, ref);
              && y.done == ((ref in s.sessions && s.sessions[ref].done) || l == DoneCalled(ref))
              && y.cancelled == ((ref in s.sessions && s.sessions[ref].cancelled) || l == ContextCancelled(ref))
  {
    StepActsOnTarget(hasResult, s, l);
  }

  /** The tokens of a request are its signals so far. */
  lemma {:induction false} SignalsAreTold(hasResult: bool, ls: seq<Label>, ref: Ref)
    requires Feasible(hasResult, ls)
    ensures ref in After(hasResult, ls).sessions ==>
              && (After(hasResult, ls).sessions[ref].done <==> DoneCalled(ref) in ls)
              && (After(hasResult, ls).sessions[ref].cancelled <==> ContextCancelled(ref) in ls)
    ensures ref !in After(hasResult, ls).sessions ==> DoneCalled(ref) !in ls && ContextCancelled(ref) !in ls
  {
    if |ls| > 0 {
      var pre, l := ls[..|ls| - 1], ls[|ls| - 1];
      SignalsAreTold(hasResult, pre, ref);
      RunsKeepInv(hasResult, pre);
      StepSignals(hasResult, After(hasResult, pre), l, ref);
      assert ls == pre + [l];
    }
  }

  /** The result that `end_request` is given: a success exactly when the message was consumed well
      and, with a result stream, `done` was called before the callbacks were drained, whichever
      way the wait ended. */
  lemma EndGetsOutcome(hasResult: bool, ls: seq<Label>, ref: Ref)
    requires Feasible(hasResult, ls) && Enabled(After(hasResult, ls), Drains(ref))
    ensures ref in Apply(hasResult, After(hasResult, ls), Drains(ref)).sessions
    ensures Next(hasResult, After(hasResult, ls), Drains(ref), ref).vars.result <==>
              ConsumeReturns(ref, true) in ls && (!hasResult || DoneCalled(ref) in ls)
  {
    RequestTakesItsCourse(hasResult, ls, ref);
    SignalsAreTold(hasResult, ls, ref);
    RunsKeepInv(hasResult, ls);
    assert SessionInv(ref, After(hasResult, ls).sessions[ref]);
    FilterHas((l: Label) => IsOwn(ref, l), ls, ConsumeReturns(ref, true));
  }

  // ---- Reuse of an ID before the first request has ended ----

  function Pair(first: Stage, vars: Vars): State {
    State(map[7 := 1], map[0 := Session(7, true, first, false, map[], 0, 0, false, false, vars),
                           1 := Session(7, true, Consuming, false, map[], 0, 0, false, false, Unset)])
  }

  function One(stage: Stage, held: bool, vars: Vars): State {
    var x := Session(7, true, stage, false, map[], 0, 0, false, false, vars);
    State(if held then map[7 := 0] else map[], map[0 := x])
  }

  lemma Reach(ls: seq<Label>, s: State, l: Label, s': State)
    requires Run(Stepper(true), Initial, ls) == Some(s)
    requires Enabled(s, l) && Apply(true, s, l) == s'
    ensures Run(Stepper(true), Initial, ls + [l]) == Some(s')
  {
    Then(Stepper(true), Initial, ls, s, l, s');
  }

  /** The ID is free before `end_request`: a second request is accepted under the ID of a
      first one that has not even entered `end_request`. */
  lemma IdIsReusedWhileDraining()
    ensures var ls := [BeginReturns(0, 7), ConsumeReturns(0, false), Frees(0), BeginReturns(1, 7)];
            Feasible(true, ls) && After(true, ls) == Pair(Draining(Some(0)), Unset)
  {
    var l1, l2, l3, l4 := BeginReturns(0, 7), ConsumeReturns(0, false), Frees(0), BeginReturns(1, 7);
    var s1, s2, s3 := One(Consuming, true, Unset), One(Freeing, true, Unset), One(Draining(Some(0)), false, Unset);
    Reach([], Initial, l1, s1);
    Reach([] + [l1], s1, l2, s2);
    Reach([] + [l1] + [l2], s2, l3, s3);
    Reach([] + [l1] + [l2] + [l3], s3, l4, Pair(Draining(Some(0)), Unset));
    assert [] + [l1] + [l2] + [l3] + [l4] == [l1, l2, l3, l4];
  }

  // ---- Every request comes to its end ----

  function Rank(stage: Stage): nat {
    match stage
    case Consuming => 5
    case WaitDone => 4
    case Freeing => 3
    case Draining(_) => 2
    case Ending(_) => 1
    case Ended => 0
  }

  function Waiters(x: Session): set<Task> {
    set t | t in x.results && x.results[t] == Waiting
  }

  /** Steps a request may still see: its own, those of the results it has, and its signals. */
  function Work(x: Session): nat {
    Rank(x.stage) + |x.results.Keys| + |Waiters(x)| + (if x.done then 0 else 1) + (if x.cancelled then 0 else 1)
  }

  lemma ResultGone(x: Session, t: Task)
    requires t in x.results
    ensures Work(x.(results := x.results - {t})) < Work(x)
  {
    var y := x.(results := x.results - {t});
    assert y.results.Keys == x.results.Keys - {t} && Waiters(y) == Waiters(x) - {t};
  }

  lemma ResultLocked(x: Session, t: Task)
    requires t in x.results && x.results[t] == Waiting
    ensures Work(x.(results := x.results[t := Locked])) < Work(x)
  {
    var y := x.(results := x.results[t := Locked]);
    assert y.results.Keys == x.results.Keys && Waiters(y) == Waiters(x) - {t};
  }

  /** Once a request has freed its ID, every step on it, its own or of a result, leaves less work. */
  lemma FreedShrinksWork(hasResult: bool, s: State, l: Label)
    requires Inv(hasResult, s) && Enabled(s, l)
    requires Target(s, l) in s.sessions && !Active(s.sessions[Target(s, l)])
    ensures Target(s, l) in Apply(hasResult, s, l).sessions
    ensures Work(Next(hasResult, s, l, Target(s, l))) < Work(s.sessions[Target(s, l)])
  {
    var x := s.sessions[Target(s, l)];
    assert SessionInv(Target(s, l), x);
    if l.ResultLocks? {
      ResultLocked(x, l.t);
    } else if l.ResultRechecks? || l.ResultLeaves? {
      ResultGone(x, l.t);
    } else if l.Drains? || l.EndReturns? || l.DoneCalled? || l.ContextCancelled? {
      assert Waiters(Next(hasResult, s, l, Target(s, l))) == Waiters(x);
    }
  }

  /** No request is stranded: every request that began and has not ended has an enabled step, its
      own, of a callback it admitted or the signal it waits for, that leaves less work. */
  lemma NoRequestIsStranded(hasResult: bool, ls: seq<Label>, ref: Ref) returns (l: Label)
    requires Feasible(hasResult, ls) && ref in After(hasResult, ls).sessions
    requires After(hasResult, ls).sessions[ref].endsReturned == 0
    ensures Enabled(After(hasResult, ls), l) && Target(After(hasResult, ls), l) == ref
    ensures ref in Apply(hasResult, After(hasResult, ls), l).sessions
    ensures Work(Next(hasResult, After(hasResult, ls), l, ref)) < Work(After(hasResult, ls).sessions[ref])
  {
    RunsKeepInv(hasResult, ls);
    var s := After(hasResult, ls);
    var x := s.sessions[ref];
    assert SessionInv(ref, x);
    l := NextStep(x, ref);
    if Active(x) {
      assert Waiters(Next(hasResult, s, l, ref)) == Waiters(x);
    } else {
      FreedShrinksWork(hasResult, s, l);
    }
  }

  lemma NextStep(x: Session, ref: Ref) returns (l: Label)
    requires SessionInv(ref, x) && x.endsReturned == 0
    ensures forall s: State :: ref in s.sessions && s.sessions[ref] == x ==> Enabled(s, l) && Target(s, l) == ref
    ensures Active(x) ==> l.ConsumeReturns? || l.DoneCalled? || l.WaitEnds? || l.Frees?
  {
    match x.stage
    case Consuming => l := ConsumeReturns(ref, true);
    case WaitDone => l := if x.done then WaitEnds(ref, false) else DoneCalled(ref);
    case Freeing => l := Frees(ref);
    case Ending(_) => l := EndReturns(ref);
    case Draining(_) =>
      if t: Task :| t in x.results && x.results[t] != Waiting {
        l := if x.results[t] == Locked then ResultRechecks(ref, t) else ResultLeaves(ref, t);
      } else {
        assert !ReadHeld(x);
        l := Drains(ref);
      }
  }
}
