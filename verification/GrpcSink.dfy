/** Sessions of the client-streaming and bidirectional gRPC sinks: a stream ID is reserved by a
    OnceCell before any I/O, one consumer initializes it, the others wait for the outcome, and
    a spawned finalizer closes admission, drains, ends the request and frees the ID.

    Both sinks share the consumer side; they differ in when responses are handled. */
module GrpcSink {
  import opened Runs

  type StreamId = nat
  type Ref = nat   // identity of a OnceCell
  type Task = nat

  datatype Kind = Client | Bidi

  // Inside begin_request, inside the client function, or inside the end_request of a failed call.
  datatype InitStage = Begin | Call | FailEnd
  datatype Init = Uninit | Initializing(t: Task, stage: InitStage) | NoSession | Ready

  // A consumer: awaiting the cell, about to drop a failed reservation, waiting for the read
  // guard, holding it before the recheck, or holding it inside consume_message.
  datatype Stage = AtCell | GotNone | WaitLock | Locked | Consuming

  // Client: Waiting, Receiving (close_and_recv), Draining, Responding, Ending, Gone.
  // Bidi: Waiting (recv), Responding, back to Waiting or on to Draining, Ending, Gone.
  datatype Finalizer = NotSpawned | Waiting | Receiving | Draining(response: bool) | Responding | Ending | Gone

  // `begins` counts successful begin_request calls; `leaked` those whose initializer was
  // dropped before the request was ended.
  datatype Cell = Cell(
    id: StreamId, init: Init, consumers: map<Task, Stage>, finished: bool, finalizer: Finalizer,
    begins: nat, endsReturned: nat, leaked: nat)

  datatype Act =
    | InitStarts(t: Task)
    | BeginReturns(ok: bool)
    | CallReturns(ok: bool)
    | FailEndReturns
    | InitDropped
    | SeesCell(t: Task)
    | DropsReservation(t: Task)
    | Rejected(t: Task)
    | Locks(t: Task)
    | Rechecks(t: Task)
    | Leaves(t: Task)
    | PeerResponds
    | ResponseHandled(ok: bool)
    | Closes(cancelled: bool)
    | Received(ok: bool)
    | Drains
    | EndReturns

  // ---- Steps of one cell ----

  function Put(x: Cell, t: Task, stage: Stage): Cell {
    x.(consumers := x.consumers[t := stage])
  }

  function Quit(x: Cell, t: Task): Cell {
    x.(consumers := x.consumers - {t})
  }

  predicate ReadHeld(x: Cell) {
    exists t :: t in x.consumers && (x.consumers[t] == Locked || x.consumers[t] == Consuming)
  }

  predicate At(x: Cell, t: Task, stage: Stage) {
    t in x.consumers && x.consumers[t] == stage
  }

  predicate ActEnabled(kind: Kind, x: Cell, a: Act) {
    match a
    case InitStarts(t) => At(x, t, AtCell) && x.init == Uninit
    case BeginReturns(_) => x.init.Initializing? && x.init.stage == Begin && x.init.t !in x.consumers
    case CallReturns(_) => x.init.Initializing? && x.init.stage == Call && x.init.t !in x.consumers
    case FailEndReturns => x.init.Initializing? && x.init.stage == FailEnd && x.init.t !in x.consumers
    case InitDropped => x.init.Initializing?
    case SeesCell(t) => At(x, t, AtCell) && (x.init == Ready || x.init == NoSession)
    case DropsReservation(t) => At(x, t, GotNone)
    case Rejected(t) => At(x, t, WaitLock) && x.finished
    case Locks(t) => At(x, t, WaitLock) && !x.finished
    case Rechecks(t) => At(x, t, Locked)
    case Leaves(t) => At(x, t, AtCell) || At(x, t, WaitLock) || At(x, t, Consuming)
    case PeerResponds => kind == Bidi && x.finalizer == Waiting
    case ResponseHandled(_) => x.finalizer == Responding
    case Closes(_) => x.finalizer == Waiting
    case Received(_) => kind == Client && x.finalizer == Receiving
    case Drains => x.finalizer.Draining? && !ReadHeld(x)
    case EndReturns => x.finalizer == Ending
  }

  function Act1(kind: Kind, x: Cell, a: Act): Cell
    requires ActEnabled(kind, x, a)
  {
    match a
    case InitStarts(t) => Quit(x, t).(init := Initializing(t, Begin))
    case BeginReturns(ok) =>
      if ok then x.(init := Initializing(x.init.t, Call), begins := x.begins + 1)
      else Put(x.(init := NoSession), x.init.t, GotNone)
    case CallReturns(ok) =>
      if ok then Put(x.(init := Ready, finalizer := Waiting), x.init.t, WaitLock)
      else x.(init := Initializing(x.init.t, FailEnd))
    case FailEndReturns => Put(x.(init := NoSession, endsReturned := x.endsReturned + 1), x.init.t, GotNone)
    case InitDropped => x.(init := Uninit, leaked := x.leaked + if x.init.stage == Begin then 0 else 1)
    case SeesCell(t) => Put(x, t, if x.init == Ready then WaitLock else GotNone)
    case DropsReservation(t) => Quit(x, t)
    case Rejected(t) => Quit(x, t)
    case Locks(t) => Put(x, t, Locked)
    case Rechecks(t) => if x.finished then Quit(x, t) else Put(x, t, Consuming)
    case Leaves(t) => Quit(x, t)
    case PeerResponds => x.(finalizer := Responding)
    case ResponseHandled(ok) =>
      if kind == Client then x.(finalizer := Ending)
      else if ok then x.(finalizer := Waiting)
      else x.(finished := true, finalizer := Draining(false))
    case Closes(cancelled) =>
      x.(finished := true, finalizer := if kind == Client && !cancelled then Receiving else Draining(false))
    case Received(ok) => x.(finalizer := Draining(ok))
    case Drains => if x.finalizer.response then x.(finalizer := Responding) else x.(finalizer := Ending)
    case EndReturns => x.(finalizer := Gone, endsReturned := x.endsReturned + 1)
  }

  // ---- Steps of the endpoint ----

  datatype State = State(pending: map<StreamId, Ref>, cells: map<Ref, Cell>)

  datatype Label =
    | Arrives(t: Task, id: StreamId, created: Ref)
    | OnCell(ref: Ref, act: Act)

  const Initial := State(map[], map[])

  predicate Reserved(s: State, ref: Ref)
    requires ref in s.cells
  {
    s.cells[ref].id in s.pending && s.pending[s.cells[ref].id] == ref
  }

  predicate Enabled(kind: Kind, s: State, l: Label) {
    match l
    case Arrives(t, id, created) =>
      if id in s.pending
      then s.pending[id] in s.cells && t !in s.cells[s.pending[id]].consumers
           && (s.cells[s.pending[id]].init.Initializing? ==> s.cells[s.pending[id]].init.t != t)
      else created !in s.cells
    case OnCell(ref, a) => ref in s.cells && ActEnabled(kind, s.cells[ref], a)
  }

  /** Acts that end with pop_if on the actor's own cell. */
  predicate Pops(a: Act) {
    a.DropsReservation? || a.EndReturns?
  }

  function Update(s: State, ref: Ref, x: Cell, pops: bool): State
    requires ref in s.cells
  {
    s.(cells := s.cells[ref := x],
       pending := if pops && Reserved(s, ref) then s.pending - {s.cells[ref].id} else s.pending)
  }

  function Apply(kind: Kind, s: State, l: Label): State
    requires Enabled(kind, s, l)
  {
    match l
    case Arrives(t, id, created) =>
      if id in s.pending then Update(s, s.pending[id], Put(s.cells[s.pending[id]], t, AtCell), false)
      else State(s.pending[id := created],
                 s.cells[created := Cell(id, Uninit, map[t := AtCell], false, NotSpawned, 0, 0, 0)])
    case OnCell(ref, a) => Update(s, ref, Act1(kind, s.cells[ref], a), Pops(a))
  }

  // ---- Runs ----

  function Stepper(kind: Kind): (State, Label) -> Option<State> {
    (s, l) => if Enabled(kind, s, l) then Some(Apply(kind, s, l)) else None
  }

  ghost predicate Feasible(kind: Kind, ls: seq<Label>) {
    Run(Stepper(kind), Initial, ls).Some?
  }

  ghost function After(kind: Kind, ls: seq<Label>): State
    requires Feasible(kind, ls)
  {
    Run(Stepper(kind), Initial, ls).value
  }

  // ---- Invariant ----

  /** A request of the cell is begun and will still be ended. */
  predicate Live(x: Cell) {
    (x.init.Initializing? && x.init.stage != Begin) || (x.init == Ready && x.finalizer != Gone)
  }

  predicate InEnd(x: Cell) {
    x.finalizer == Ending || (x.init.Initializing? && x.init.stage == FailEnd)
  }

  /** consume_message may still be running. */
  predicate MayConsume(kind: Kind, x: Cell) {
    x.finalizer == Waiting || x.finalizer == Receiving || x.finalizer.Draining?
    || (kind == Bidi && x.finalizer == Responding)
  }

  predicate MustBeFinished(kind: Kind, f: Finalizer) {
    f == Receiving || f.Draining? || f == Ending || f == Gone || (kind == Client && f == Responding)
  }

  ghost predicate CellInv(kind: Kind, x: Cell) {
    && x.begins == x.endsReturned + x.leaked + (if Live(x) then 1 else 0)
    && (x.init == Ready <==> x.finalizer != NotSpawned)
    && x.finished == MustBeFinished(kind, x.finalizer)
    && (x.finalizer == Draining(true) || x.finalizer == Receiving ==> kind == Client)
    && (x.init.Initializing? ==> x.init.t !in x.consumers)
    && (forall t :: t in x.consumers && x.consumers[t] == GotNone ==> x.init == NoSession)
    && (forall t :: t in x.consumers && x.consumers[t] == Consuming ==> MayConsume(kind, x))
    && (forall t :: t in x.consumers && x.consumers[t] != AtCell && x.consumers[t] != GotNone ==> x.init == Ready)
  }

  lemma ActKeepsCell(kind: Kind, x: Cell, a: Act)
    requires CellInv(kind, x) && ActEnabled(kind, x, a)
    ensures CellInv(kind, Act1(kind, x, a))
  {
  }

  /** The cell still stands for its ID: it can yet begin a request or has one open. */
  predicate Standing(x: Cell) {
    x.init == Uninit || x.init.Initializing? || (x.init == Ready && x.finalizer != Gone)
  }

  ghost predicate CellsInv(kind: Kind, s: State) {
    forall ref :: ref in s.cells ==> CellInv(kind, s.cells[ref])
  }

  ghost predicate TableInv(s: State) {
    && (forall id :: id in s.pending ==> s.pending[id] in s.cells && s.cells[s.pending[id]].id == id)
    && (forall ref :: ref in s.cells && Standing(s.cells[ref]) ==> Reserved(s, ref))
  }

  ghost predicate Inv(kind: Kind, s: State) {
    CellsInv(kind, s) && TableInv(s)
  }

  lemma UpdateKeepsInv(kind: Kind, s: State, ref: Ref, y: Cell, pops: bool)
    requires Inv(kind, s) && ref in s.cells && CellInv(kind, y) && y.id == s.cells[ref].id
    requires pops ==> !Standing(y)
    requires Standing(y) ==> Standing(s.cells[ref])
    ensures Inv(kind, Update(s, ref, y, pops))
  {
    var s' := Update(s, ref, y, pops);
    forall q | q in s'.cells ensures CellInv(kind, s'.cells[q]) {
      if q == ref { } else { assert s'.cells[q] == s.cells[q]; }
    }
  }

  lemma ActKeepsStanding(kind: Kind, x: Cell, a: Act)
    requires CellInv(kind, x) && ActEnabled(kind, x, a)
    ensures Act1(kind, x, a).id == x.id
    ensures Pops(a) ==> !Standing(Act1(kind, x, a))
    ensures Standing(Act1(kind, x, a)) ==> Standing(x)
  {
  }

  lemma ArrivalKeepsInv(kind: Kind, s: State, t: Task, id: StreamId, created: Ref)
    requires Inv(kind, s) && Enabled(kind, s, Arrives(t, id, created))
    ensures Inv(kind, Apply(kind, s, Arrives(t, id, created)))
  {
    if id in s.pending {
      var x := s.cells[s.pending[id]];
      assert CellInv(kind, x);
      assert CellInv(kind, Put(x, t, AtCell));
      UpdateKeepsInv(kind, s, s.pending[id], Put(x, t, AtCell), false);
    } else {
      var s' := Apply(kind, s, Arrives(t, id, created));
      forall q | q in s'.cells ensures CellInv(kind, s'.cells[q]) {
        if q == created { } else { assert s'.cells[q] == s.cells[q]; }
      }
    }
  }

  lemma StepKeepsInv(kind: Kind, s: State, l: Label)
    requires Inv(kind, s) && Enabled(kind, s, l)
    ensures Inv(kind, Apply(kind, s, l))
  {
    match l
    case OnCell(ref, a) =>
      ActKeepsCell(kind, s.cells[ref], a);
      ActKeepsStanding(kind, s.cells[ref], a);
      UpdateKeepsInv(kind, s, ref, Act1(kind, s.cells[ref], a), Pops(a));
    case Arrives(t, id, created) =>
      ArrivalKeepsInv(kind, s, t, id, created);
  }

  lemma RunsKeepInv(kind: Kind, ls: seq<Label>)
    requires Feasible(kind, ls)
    ensures Inv(kind, After(kind, ls))
  {
    var step := Stepper(kind);
    forall s, l | Inv(kind, s) && step(s, l).Some? ensures Inv(kind, step(s, l).value) {
      StepKeepsInv(kind, s, l);
    }
    Invariant(step, s => Inv(kind, s), Initial, ls);
  }

  // ---- What holds in every run ----

  /** A request begun under the cell has not been ended. */
  predicate Open(x: Cell) {
    x.begins > x.endsReturned
  }

  predicate Sharing(s: State, p: Ref, q: Ref) {
    p in s.cells && q in s.cells && s.cells[p].id == s.cells[q].id
  }

  /** While no initializer of the two cells has been dropped after its begin_request, requests
      of one stream ID never overlap: no cell has two open, and no two cells have one each. */
  lemma OpenRequestsAreDisjoint(kind: Kind, ls: seq<Label>, p: Ref, q: Ref)
    requires Feasible(kind, ls) && Sharing(After(kind, ls), p, q)
    requires After(kind, ls).cells[p].leaked == After(kind, ls).cells[q].leaked == 0
    ensures After(kind, ls).cells[p].begins <= After(kind, ls).cells[p].endsReturned + 1
    ensures Open(After(kind, ls).cells[p]) && Open(After(kind, ls).cells[q]) ==> p == q
  {
    RunsKeepInv(kind, ls);
    var s := After(kind, ls);
    assert CellInv(kind, s.cells[p]) && CellInv(kind, s.cells[q]);
  }

  /** Exactly how many requests of a cell are open: the live one, if any, and the leaked ones. */
  lemma OpenRequestsAreCounted(kind: Kind, ls: seq<Label>, ref: Ref)
    requires Feasible(kind, ls) && ref in After(kind, ls).cells
    ensures var x := After(kind, ls).cells[ref];
            x.begins - x.endsReturned == x.leaked + if Live(x) then 1 else 0
  {
    RunsKeepInv(kind, ls);
    assert CellInv(kind, After(kind, ls).cells[ref]);
  }

  /** Across all cells of an ID at most one request is begun and will still be ended, dropped
      initializers or not. */
  lemma LiveIsUnique(kind: Kind, ls: seq<Label>, p: Ref, q: Ref)
    requires Feasible(kind, ls) && Sharing(After(kind, ls), p, q)
    requires Live(After(kind, ls).cells[p]) && Live(After(kind, ls).cells[q])
    ensures p == q
  {
    RunsKeepInv(kind, ls);
    assert Standing(After(kind, ls).cells[p]) && Standing(After(kind, ls).cells[q]);
  }

  predicate HasId(s: State, id: StreamId, ref: Ref) {
    ref in s.cells && s.cells[ref].id == id
  }

  /** Different cells of one ID. */
  predicate CellsOf(s: State, id: StreamId, refs: seq<Ref>) {
    && (forall i :: 0 <= i < |refs| ==> HasId(s, id, refs[i]))
    && (forall i, j :: 0 <= i < j < |refs| ==> refs[i] != refs[j])
  }

  function OpenSum(s: State, id: StreamId, refs: seq<Ref>): int
    requires CellsOf(s, id, refs)
  {
    if |refs| == 0 then 0
    else
      var x := s.cells[refs[|refs| - 1]];
      OpenSum(s, id, refs[..|refs| - 1]) + x.begins - x.endsReturned
  }

  function LeakSum(s: State, id: StreamId, refs: seq<Ref>): nat
    requires CellsOf(s, id, refs)
  {
    if |refs| == 0 then 0
    else LeakSum(s, id, refs[..|refs| - 1]) + s.cells[refs[|refs| - 1]].leaked
  }

  predicate SomeLive(s: State, refs: seq<Ref>) {
    exists i :: 0 <= i < |refs| && refs[i] in s.cells && Live(s.cells[refs[i]])
  }

  /** Over any cells of an ID, the open requests are the leaked ones and at most one live one. */
  lemma {:induction false} OpenAcrossCells(kind: Kind, ls: seq<Label>, id: StreamId, refs: seq<Ref>)
    requires Feasible(kind, ls) && CellsOf(After(kind, ls), id, refs)
    ensures var s := After(kind, ls);
            OpenSum(s, id, refs) == LeakSum(s, id, refs) + if SomeLive(s, refs) then 1 else 0
  {
    if |refs| > 0 {
      var s, n := After(kind, ls), |refs| - 1;
      OpenAcrossCells(kind, ls, id, refs[..n]);
      OpenRequestsAreCounted(kind, ls, refs[n]);
      if Live(s.cells[refs[n]]) {
        forall i | 0 <= i < n ensures !Live(s.cells[refs[i]]) {
          if Live(s.cells[refs[i]]) { LiveIsUnique(kind, ls, refs[i], refs[n]); }
        }
        assert !SomeLive(s, refs[..n]);
      } else if SomeLive(s, refs) {
        var i :| 0 <= i < |refs| && Live(s.cells[refs[i]]);
        assert refs[..n][i] == refs[i];
      }
    }
  }

  /** Two requests of the ID are open at once, in one cell or in two. */
  ghost predicate Overlapping(s: State, id: StreamId) {
    exists p, q :: && HasId(s, id, p) && HasId(s, id, q) && Open(s.cells[p]) && Open(s.cells[q])
                   && (p == q ==> s.cells[p].begins >= s.cells[p].endsReturned + 2)
  }

  /** A leaked request of the ID stands beside another leaked one or the live one. */
  ghost predicate LeakedBeside(s: State, id: StreamId) {
    exists p, q :: && HasId(s, id, p) && HasId(s, id, q) && s.cells[p].leaked > 0
                   && (Live(s.cells[q]) || s.cells[q].leaked > if p == q then 1 else 0)
  }

  /** Exactly when requests of one ID overlap, with any initializers dropped: when a leaked one
      has another beside it. */
  lemma OverlapNeedsLeak(kind: Kind, ls: seq<Label>, id: StreamId)
    requires Feasible(kind, ls)
    ensures Overlapping(After(kind, ls), id) <==> LeakedBeside(After(kind, ls), id)
  {
    var s := After(kind, ls);
    forall p | p in s.cells
      ensures var x := s.cells[p]; x.begins - x.endsReturned == x.leaked + if Live(x) then 1 else 0
    {
      OpenRequestsAreCounted(kind, ls, p);
    }
    if Overlapping(s, id) {
      var p, q :| && HasId(s, id, p) && HasId(s, id, q) && Open(s.cells[p]) && Open(s.cells[q])
                  && (p == q ==> s.cells[p].begins >= s.cells[p].endsReturned + 2);
      if s.cells[p].leaked == 0 && s.cells[q].leaked == 0 { LiveIsUnique(kind, ls, p, q); }
    }
  }

  // A consumer begins a request and is dropped while it creates the call; another one follows.
  const DroppedInit :=
    [Arrives(0, 7, 0), OnCell(0, InitStarts(0)), OnCell(0, BeginReturns(true)), OnCell(0, InitDropped)]
  const NextInit := [Arrives(1, 7, 1), OnCell(0, InitStarts(1)), OnCell(0, BeginReturns(true))]

  lemma RunsDroppedInit(kind: Kind)
    ensures Run(Stepper(kind), Initial, DroppedInit) == Some(Single(Uninit, map[], 1, 1))
  {
    var l1, l2, l3, l4 := DroppedInit[0], DroppedInit[1], DroppedInit[2], DroppedInit[3];
    var s1, s2 := Single(Uninit, map[0 := AtCell], 0, 0), Single(Initializing(0, Begin), map[], 0, 0);
    var s3 := Single(Initializing(0, Call), map[], 1, 0);
    Reach(kind, Initial, [], Initial, l1, s1);
    Reach(kind, Initial, [] + [l1], s1, l2, s2);
    Reach(kind, Initial, [] + [l1] + [l2], s2, l3, s3);
    Reach(kind, Initial, [] + [l1] + [l2] + [l3], s3, l4, Single(Uninit, map[], 1, 1));
    assert DroppedInit == [] + [l1] + [l2] + [l3] + [l4];
  }

  lemma RunsNextInit(kind: Kind)
    ensures Run(Stepper(kind), Single(Uninit, map[], 1, 1), NextInit) ==
            Some(Single(Initializing(1, Call), map[], 2, 1))
  {
    var s := Single(Uninit, map[], 1, 1);
    var l1, l2, l3 := NextInit[0], NextInit[1], NextInit[2];
    var s1, s2 := Single(Uninit, map[1 := AtCell], 1, 1), Single(Initializing(1, Begin), map[], 1, 1);
    Reach(kind, s, [], s, l1, s1);
    Reach(kind, s, [] + [l1], s1, l2, s2);
    Reach(kind, s, [] + [l1] + [l2], s2, l3, Single(Initializing(1, Call), map[], 2, 1));
    assert NextInit == [] + [l1] + [l2] + [l3];
  }

  /** Dropping an initializer after begin_request succeeded does break it: the next consumer of
      the same ID begins a second request while the first one is never ended. */
  lemma DroppedInitializerLeaks(kind: Kind)
    ensures Feasible(kind, DroppedInit + NextInit) && 0 in After(kind, DroppedInit + NextInit).cells
    ensures After(kind, DroppedInit + NextInit).cells[0].leaked == 1
    ensures var x := After(kind, DroppedInit + NextInit).cells[0]; x.begins == x.endsReturned + 2
  {
    RunsDroppedInit(kind);
    RunsNextInit(kind);
    Append(Stepper(kind), Initial, DroppedInit, NextInit);
  }

  function Single(init: Init, consumers: map<Task, Stage>, begins: nat, leaked: nat): State {
    State(map[7 := 0], map[0 := Cell(7, init, consumers, false, NotSpawned, begins, 0, leaked)])
  }

  lemma Reach(kind: Kind, from: State, ls: seq<Label>, s: State, l: Label, s': State)
    requires Run(Stepper(kind), from, ls) == Some(s)
    requires Enabled(kind, s, l) && Apply(kind, s, l) == s'
    ensures Run(Stepper(kind), from, ls + [l]) == Some(s')
  {
    Then(Stepper(kind), from, ls, s, l, s');
  }

  /** consume_message never runs inside or after end_request, and end_request is entered with
      admission closed; a consumer that arrives at the recheck then is turned away. */
  lemma NoMessageAtEnd(kind: Kind, ls: seq<Label>, ref: Ref, t: Task)
    requires Feasible(kind, ls) && ref in After(kind, ls).cells
    requires InEnd(After(kind, ls).cells[ref]) || After(kind, ls).cells[ref].finalizer == Gone
    ensures !At(After(kind, ls).cells[ref], t, Consuming)
    ensures Enabled(kind, After(kind, ls), OnCell(ref, Rechecks(t))) ==>
              !At(Act1(kind, After(kind, ls).cells[ref], Rechecks(t)), t, Consuming)
  {
    RunsKeepInv(kind, ls);
    assert CellInv(kind, After(kind, ls).cells[ref]);
  }

  lemma StepKeepsClosed(kind: Kind, s: State, l: Label, ref: Ref)
    requires Inv(kind, s) && Enabled(kind, s, l) && ref in s.cells && s.cells[ref].finished
    ensures ref in Apply(kind, s, l).cells && Apply(kind, s, l).cells[ref].finished
  {
    assert CellInv(kind, s.cells[ref]);
  }

  lemma {:induction false} ClosedStaysClosed(kind: Kind, ls: seq<Label>, i: nat, ref: Ref)
    requires Feasible(kind, ls) && i <= |ls| && Feasible(kind, ls[..i])
    requires ref in After(kind, ls[..i]).cells && After(kind, ls[..i]).cells[ref].finished
    ensures ref in After(kind, ls).cells && After(kind, ls).cells[ref].finished
  {
    if i == |ls| {
      assert ls[..i] == ls;
    } else {
      var pre := ls[..|ls| - 1];
      assert pre[..i] == ls[..i];
      ClosedStaysClosed(kind, pre, i, ref);
      RunsKeepInv(kind, pre);
      StepKeepsClosed(kind, After(kind, pre), ls[|ls| - 1], ref);
    }
  }

  /** After the finalizer has closed admission, no later step of any run admits a message. */
  lemma NothingAdmittedAfterClosing(kind: Kind, ls: seq<Label>, i: nat, j: nat, ref: Ref, t: Task)
    requires Feasible(kind, ls) && i <= j < |ls| && Feasible(kind, ls[..i])
    requires ref in After(kind, ls[..i]).cells && After(kind, ls[..i]).cells[ref].finished
    ensures Feasible(kind, ls[..j + 1]) && ref in After(kind, ls[..j + 1]).cells
    ensures ls[j] == OnCell(ref, Rechecks(t)) ==> !At(After(kind, ls[..j + 1]).cells[ref], t, Consuming)
  {
    Prefix(Stepper(kind), Initial, ls, j);
    assert ls[..j][..i] == ls[..i];
    ClosedStaysClosed(kind, ls[..j], i, ref);
    RunsKeepInv(kind, ls[..j]);
    StepKeepsClosed(kind, After(kind, ls[..j]), ls[j], ref);
  }

  /** The ID of an open request stays reserved by its own cell. So a finalizer or a failed
      creator of another cell cannot have removed it, and a step removes at most the
      reservation of its own cell, which then has nothing left to protect. */
  lemma ReservationIsNeverStolen(kind: Kind, ls: seq<Label>, l: Label, id: StreamId)
    requires Feasible(kind, ls) && Enabled(kind, After(kind, ls), l)
    requires id in After(kind, ls).pending && id !in Apply(kind, After(kind, ls), l).pending
    ensures l.OnCell? && After(kind, ls).pending[id] == l.ref
    ensures !Standing(Apply(kind, After(kind, ls), l).cells[l.ref])
    ensures forall ref :: ref in After(kind, ls).cells && ref != l.ref && After(kind, ls).cells[ref].id == id ==>
              !Standing(After(kind, ls).cells[ref])
  {
    RunsKeepInv(kind, ls);
    var s := After(kind, ls);
    ActKeepsStanding(kind, s.cells[l.ref], l.act);
  }

  lemma OpenIsReserved(kind: Kind, ls: seq<Label>, ref: Ref)
    requires Feasible(kind, ls) && ref in After(kind, ls).cells
    requires After(kind, ls).cells[ref].leaked == 0 && Open(After(kind, ls).cells[ref])
    ensures Reserved(After(kind, ls), ref)
  {
    RunsKeepInv(kind, ls);
    assert CellInv(kind, After(kind, ls).cells[ref]);
  }

  // ---- The course of a cell ----

  predicate IsFinalAct(a: Act) {
    a.PeerResponds? || a.ResponseHandled? || a.Closes? || a.Received? || a.Drains? || a.EndReturns?
  }

  predicate IsInitAct(a: Act) {
    a.InitStarts? || a.BeginReturns? || a.CallReturns? || a.FailEndReturns? || a.InitDropped?
  }

  /** The acts of a run on cell `ref` that are kept, in order. */
  ghost function Acts(keep: Act -> bool, ref: Ref, ls: seq<Label>): seq<Act> {
    if |ls| == 0 then []
    else
      var l := ls[|ls| - 1];
      Acts(keep, ref, ls[..|ls| - 1]) + if l.OnCell? && l.ref == ref && keep(l.act) then [l.act] else []
  }

  ghost function FinalActs(ref: Ref, ls: seq<Label>): seq<Act> {
    Acts(IsFinalAct, ref, ls)
  }

  ghost function InitActs(ref: Ref, ls: seq<Label>): seq<Act> {
    Acts(IsInitAct, ref, ls)
  }

  lemma ActsSnoc(keep: Act -> bool, ref: Ref, ls: seq<Label>, l: Label)
    ensures Acts(keep, ref, ls + [l]) ==
            Acts(keep, ref, ls) + if l.OnCell? && l.ref == ref && keep(l.act) then [l.act] else []
  {
    assert (ls + [l])[..|ls|] == ls;
  }

  function Last(acts: seq<Act>): Option<Act> {
    if |acts| == 0 then None else Some(acts[|acts| - 1])
  }

  function ButLast(acts: seq<Act>): seq<Act> {
    if |acts| == 0 then [] else acts[..|acts| - 1]
  }

  /** What a client-streaming finalizer did before `end_request`: a response that was received is
      handled once, after the drain; without one there is nothing to handle. */
  predicate ClientEnding(acts: seq<Act>) {
    || acts == [Closes(true), Drains]
    || acts == [Closes(false), Received(false), Drains]
    || acts == [Closes(false), Received(true), Drains, ResponseHandled(true)]
    || acts == [Closes(false), Received(true), Drains, ResponseHandled(false)]
  }

  predicate ClientStory(f: Finalizer, acts: seq<Act>) {
    match f
    case Receiving => acts == [Closes(false)]
    case Draining(response) =>
      if response then acts == [Closes(false), Received(true)]
      else acts == [Closes(true)] || acts == [Closes(false), Received(false)]
    case Responding => acts == [Closes(false), Received(true), Drains]
    case Ending => ClientEnding(acts)
    case Gone => Last(acts) == Some(EndReturns) && ClientEnding(ButLast(acts))
    case _ => acts == []
  }

  /** Responses received and handled well, one after the other. */
  predicate Rounds(acts: seq<Act>)
    decreases |acts|
  {
    acts == []
    || (Last(acts) == Some(ResponseHandled(true)) && Last(ButLast(acts)) == Some(PeerResponds)
        && Rounds(ButLast(ButLast(acts))))
  }

  /** What a bidirectional finalizer did up to closing admission: rounds, then the end of the
      stream or a response that was handled badly. */
  predicate BidiClosed(acts: seq<Act>) {
    || (Last(acts).Some? && Last(acts).value.Closes? && Rounds(ButLast(acts)))
    || (Last(acts) == Some(ResponseHandled(false)) && Last(ButLast(acts)) == Some(PeerResponds)
        && Rounds(ButLast(ButLast(acts))))
  }

  predicate BidiEnding(acts: seq<Act>) {
    Last(acts) == Some(Drains) && BidiClosed(ButLast(acts))
  }

  predicate BidiStory(f: Finalizer, acts: seq<Act>) {
    match f
    case NotSpawned => acts == []
    case Waiting => Rounds(acts)
    case Responding => Last(acts) == Some(PeerResponds) && Rounds(ButLast(acts))
    case Draining(_) => BidiClosed(acts)
    case Ending => BidiEnding(acts)
    case Gone => Last(acts) == Some(EndReturns) && BidiEnding(ButLast(acts))
    case Receiving => false
  }

  /** Where the last act of the initializers leaves the cell. */
  predicate InitFits(last: Option<Act>, init: Init) {
    match last
    case None => init == Uninit
    case Some(InitStarts(t)) => init == Initializing(t, Begin)
    case Some(BeginReturns(ok)) => if ok then init.Initializing? && init.stage == Call else init == NoSession
    case Some(CallReturns(ok)) => if ok then init == Ready else init.Initializing? && init.stage == FailEnd
    case Some(FailEndReturns) => init == NoSession
    case Some(InitDropped) => init == Uninit
    case _ => false
  }

  predicate Story(kind: Kind, x: Cell, inits: seq<Act>, finals: seq<Act>) {
    && InitFits(Last(inits), x.init)
    && if kind == Client then ClientStory(x.finalizer, finals) else BidiStory(x.finalizer, finals)
  }

  lemma LastOfSnoc(acts: seq<Act>, a: Act)
    ensures Last(acts + [a]) == Some(a) && ButLast(acts + [a]) == acts
  {
  }

  lemma FinalActTells(kind: Kind, x: Cell, a: Act, finals: seq<Act>)
    requires CellInv(kind, x) && ActEnabled(kind, x, a) && IsFinalAct(a)
    requires if kind == Client then ClientStory(x.finalizer, finals) else BidiStory(x.finalizer, finals)
    ensures var f := Act1(kind, x, a).finalizer;
            if kind == Client then ClientStory(f, finals + [a]) else BidiStory(f, finals + [a])
    ensures Act1(kind, x, a).init == x.init
  {
    LastOfSnoc(finals, a);
  }

  lemma OtherActTells(kind: Kind, x: Cell, a: Act, inits: seq<Act>)
    requires CellInv(kind, x) && ActEnabled(kind, x, a) && !IsFinalAct(a) && InitFits(Last(inits), x.init)
    ensures InitFits(Last(inits + if IsInitAct(a) then [a] else []), Act1(kind, x, a).init)
    ensures var f := Act1(kind, x, a).finalizer; f == x.finalizer || (x.finalizer == NotSpawned && f == Waiting)
  {
    if IsInitAct(a) { LastOfSnoc(inits, a); } else { assert inits + [] == inits; }
  }

  lemma ActTells(kind: Kind, x: Cell, a: Act, inits: seq<Act>, finals: seq<Act>)
    requires CellInv(kind, x) && ActEnabled(kind, x, a) && Story(kind, x, inits, finals)
    ensures Story(kind, Act1(kind, x, a), inits + (if IsInitAct(a) then [a] else []),
                  finals + if IsFinalAct(a) then [a] else [])
  {
    assert inits + [] == inits && finals + [] == finals;
    if IsFinalAct(a) { FinalActTells(kind, x, a, finals); } else { OtherActTells(kind, x, a, inits); }
  }

  predicate StoryOf(kind: Kind, s: State, ref: Ref, inits: seq<Act>, finals: seq<Act>) {
    if ref in s.cells then Story(kind, s.cells[ref], inits, finals) else inits == finals == []
  }

  function Taken(l: Label, ref: Ref, keep: Act -> bool): seq<Act> {
    if l.OnCell? && l.ref == ref && keep(l.act) then [l.act] else []
  }

  lemma LabelTells(kind: Kind, s: State, l: Label, ref: Ref, inits: seq<Act>, finals: seq<Act>)
    requires Inv(kind, s) && Enabled(kind, s, l) && StoryOf(kind, s, ref, inits, finals)
    ensures StoryOf(kind, Apply(kind, s, l), ref, inits + Taken(l, ref, IsInitAct), finals + Taken(l, ref, IsFinalAct))
  {
    if l.OnCell? && l.ref == ref {
      assert CellInv(kind, s.cells[ref]);
      ActTells(kind, s.cells[ref], l.act, inits, finals);
    } else {
      assert inits + [] == inits && finals + [] == finals;
      OtherLabelKeeps(kind, s, l, ref);
    }
  }

  /** In every run the acts of a cell's initializers and of its finalizer are those of its course:
      in the client sink a received response is handled exactly once before `end_request`, and
      otherwise none is; in the bidirectional sink every response is, until the first bad one. */
  lemma {:induction false} CellTakesItsCourse(kind: Kind, ls: seq<Label>, ref: Ref)
    requires Feasible(kind, ls)
    ensures StoryOf(kind, After(kind, ls), ref, InitActs(ref, ls), FinalActs(ref, ls))
  {
    if |ls| > 0 {
      var pre := ls[..|ls| - 1];
      CellTakesItsCourse(kind, pre, ref);
      RunsKeepInv(kind, pre);
      LabelTells(kind, After(kind, pre), ls[|ls| - 1], ref, InitActs(ref, pre), FinalActs(ref, pre));
    }
  }

  lemma OtherLabelKeeps(kind: Kind, s: State, l: Label, ref: Ref)
    requires Enabled(kind, s, l) && !(l.OnCell? && l.ref == ref)
    ensures ref in s.cells ==>
              && ref in Apply(kind, s, l).cells
              && var (x, y) := (s.cells[ref], Apply(kind, s, l).cells[ref]);
              && y.init == x.init && y.finalizer == x.finalizer
              && y.begins == x.begins && y.endsReturned == x.endsReturned
    ensures ref !in s.cells && ref in Apply(kind, s, l).cells ==>
              var y := Apply(kind, s, l).cells[ref];
              y.init == Uninit && y.finalizer == NotSpawned && y.begins == y.endsReturned == 0
  {
  }

  predicate IsBegin(a: Act) {
    a == BeginReturns(true)
  }

  predicate IsEnd(a: Act) {
    a.EndReturns? || a.FailEndReturns?
  }

  /** The counters of a cell are its begin_request and end_request calls so far. */
  lemma {:induction false} CountersAreTold(kind: Kind, ls: seq<Label>, ref: Ref)
    requires Feasible(kind, ls)
    ensures ref in After(kind, ls).cells ==>
              var x := After(kind, ls).cells[ref];
              x.begins == |Acts(IsBegin, ref, ls)| && x.endsReturned == |Acts(IsEnd, ref, ls)|
    ensures ref !in After(kind, ls).cells ==> Acts(IsBegin, ref, ls) == [] && Acts(IsEnd, ref, ls) == []
  {
    if |ls| > 0 {
      var pre, l := ls[..|ls| - 1], ls[|ls| - 1];
      CountersAreTold(kind, pre, ref);
      var s := After(kind, pre);
      assert Stepper(kind)(s, l) == Some(After(kind, ls));
      if l.OnCell? && l.ref == ref {
        ActCounts(kind, s.cells[ref], l.act);
      } else {
        OtherLabelKeeps(kind, s, l, ref);
      }
    }
  }

  lemma ActCounts(kind: Kind, x: Cell, a: Act)
    requires ActEnabled(kind, x, a)
    ensures Act1(kind, x, a).begins == x.begins + if IsBegin(a) then 1 else 0
    ensures Act1(kind, x, a).endsReturned == x.endsReturned + if IsEnd(a) then 1 else 0
  {
  }

  // ---- Finalization always comes to an end ----

  function Readers(x: Cell): set<Task> {
    set t | t in x.consumers && (x.consumers[t] == Locked || x.consumers[t] == Consuming)
  }

  function Rank(x: Cell): nat {
    match x.init
    case Initializing(_, Call) => 7
    case Initializing(_, FailEnd) => 1
    case Ready =>
      (match x.finalizer
       case Responding => if x.finished then 2 else 6
       case Waiting => 5
       case Receiving => 4
       case Draining(_) => 3
       case Ending => 1
       case _ => 0)
    case _ => 0
  }

  /** Steps a begun request still needs: those of its initializer or finalizer and one for each
      guard. */
  function Work(x: Cell): nat {
    Rank(x) + |Readers(x)|
  }

  predicate Finalizes(x: Cell, a: Act) {
    match a
    case Received(_) => true
    case Drains => true
    case ResponseHandled(_) => true
    case EndReturns => true
    case Rechecks(_) => true
    case Leaves(t) => At(x, t, Consuming)
    case _ => false
  }

  predicate IsConsumerAct(a: Act) {
    a.InitStarts? || a.SeesCell? || a.DropsReservation? || a.Rejected? || a.Locks? || a.Rechecks? || a.Leaves?
  }

  lemma PutReaders(x: Cell, t: Task, stage: Stage)
    requires stage != Locked && stage != Consuming
    ensures Readers(Put(x, t, stage)) == Readers(Quit(x, t)) == Readers(x) - {t}
  {
  }

  lemma FewerReaders(x: Cell, y: Cell, t: Task)
    requires Readers(y) == Readers(x) - {t} && Rank(y) == Rank(x)
    ensures Work(y) <= Work(x) && (t in Readers(x) ==> Work(y) < Work(x))
  {
  }

  /** A consumer of a closing session goes away or on to its rejection. */
  lemma ConsumerActMoves(kind: Kind, x: Cell, a: Act)
    requires CellInv(kind, x) && ActEnabled(kind, x, a) && x.finished && IsConsumerAct(a)
    ensures Act1(kind, x, a) == Quit(x, a.t) || Act1(kind, x, a) == Put(x, a.t, WaitLock)
  {
  }

  lemma ConsumerActWork(kind: Kind, x: Cell, a: Act)
    requires CellInv(kind, x) && ActEnabled(kind, x, a) && x.finished && IsConsumerAct(a)
    ensures Work(Act1(kind, x, a)) <= Work(x)
    ensures Finalizes(x, a) ==> Work(Act1(kind, x, a)) < Work(x)
  {
    ConsumerActMoves(kind, x, a);
    PutReaders(x, a.t, WaitLock);
    FewerReaders(x, Act1(kind, x, a), a.t);
  }

  lemma FinalizerActWork(kind: Kind, x: Cell, a: Act)
    requires CellInv(kind, x) && ActEnabled(kind, x, a) && x.finished && !IsConsumerAct(a)
    ensures Work(Act1(kind, x, a)) <= Work(x)
    ensures Finalizes(x, a) ==> Work(Act1(kind, x, a)) < Work(x)
  {
    assert Readers(Act1(kind, x, a)) == Readers(x);
  }

  /** A session that is closing never gets more work, and each finalizing step removes some. */
  lemma FinalizingShrinksWork(kind: Kind, x: Cell, a: Act)
    requires CellInv(kind, x) && ActEnabled(kind, x, a) && x.finished
    ensures Work(Act1(kind, x, a)) <= Work(x)
    ensures Finalizes(x, a) ==> Work(Act1(kind, x, a)) < Work(x)
  {
    if IsConsumerAct(a) { ConsumerActWork(kind, x, a); } else { FinalizerActWork(kind, x, a); }
  }

  /** An act that brings a live request nearer to its end. */
  function NextAct(kind: Kind, x: Cell): Act {
    match x.init
    case Initializing(_, Call) => CallReturns(true)
    case Initializing(_, FailEnd) => FailEndReturns
    case _ =>
      match x.finalizer
      case Waiting => Closes(true)
      case Receiving => Received(true)
      case Responding => ResponseHandled(false)
      case Ending => EndReturns
      case _ => Drains
  }

  lemma NextActWorks(kind: Kind, x: Cell)
    requires CellInv(kind, x) && Live(x) && (x.finalizer.Draining? ==> !ReadHeld(x))
    ensures ActEnabled(kind, x, NextAct(kind, x)) && Work(Act1(kind, x, NextAct(kind, x))) < Work(x)
  {
    assert Readers(Act1(kind, x, NextAct(kind, x))) == Readers(x);
  }

  /** No request is stranded: in every run, a request begun and not leaked has an enabled step
      that leaves less work until its end. */
  lemma NoRequestIsStranded(kind: Kind, ls: seq<Label>, ref: Ref) returns (a: Act)
    requires Feasible(kind, ls) && ref in After(kind, ls).cells && Live(After(kind, ls).cells[ref])
    ensures Enabled(kind, After(kind, ls), OnCell(ref, a))
    ensures Work(Act1(kind, After(kind, ls).cells[ref], a)) < Work(After(kind, ls).cells[ref])
  {
    RunsKeepInv(kind, ls);
    var x := After(kind, ls).cells[ref];
    assert CellInv(kind, x);
    if x.finalizer.Draining? && ReadHeld(x) {
      var t :| t in x.consumers && (x.consumers[t] == Locked || x.consumers[t] == Consuming);
      a := if x.consumers[t] == Locked then Rechecks(t) else Leaves(t);
      ConsumerActWork(kind, x, a);
    } else {
      NextActWorks(kind, x);
      a := NextAct(kind, x);
    }
  }
}
