/** Request sessions of the gRPC source: admission by stream ID, linear ownership of the
    request lifecycle, draining of result callbacks and one finalization per session.

    The model is a step system. A step is the code between two awaits, and its label carries
    every choice the step makes. A run is any sequence of labels, each enabled in the state
    the previous ones lead to: callers are dropped at any await, handlers return in any order. */
module GrpcSource {
  import opened Runs

  type StreamId = nat
  type Ref = nat   // identity of a `Pending` allocation
  type Task = nat  // identity of a future that is being driven

  datatype RequestHandler = ConsumeMessage | Eof
  datatype FinishStage = Created | Draining | Ending

  // A future that carries the request lifecycle of a session. `attached` tells whether the
  // transport caller still drives it: `CompleteOnDrop` gives the future a task of its own
  // when the caller goes away. `cleanup` is the armed slot of `RequestLifecycle`.
  datatype Owner =
    | Rejecting(rejectAttached: bool)                   // duplicate ID, inside end_request
    | Holding(held: bool)                               // caller between owned operations
    | Running(runAttached: bool, cleanup: bool, handler: RequestHandler)
    | Finishing(finishAttached: bool, stage: FinishStage)

  // consume_result: waiting for the read guard, holding it before the recheck, or holding it
  // inside handler code (get_message_id or the result callback).
  datatype ResultStage = Waiting | Locked | Handling

  // `Pending` with the futures that work on it. The `lifetime` lock is the guards these
  // futures hold. The two counters record calls of the handler's `end_request`.
  datatype Session = Session(
    id: StreamId, accepted: bool, closing: bool,
    owners: map<Task, Owner>, results: map<Task, ResultStage>,
    endsStarted: nat, endsReturned: nat)

  datatype Act =
    | RejectReturns(t: Task)
    | HandlerCall(t: Task, handler: RequestHandler)
    | HandlerReturns(t: Task, spawned: Task)
    | FinishCall(t: Task)
    | Close(t: Task)
    | Drain(t: Task)
    | EndReturns(t: Task)
    | CallerDrops(t: Task, spawned: Task)
    | ResultArrives(t: Task)
    | ResultLate(t: Task)
    | ResultLocks(t: Task)
    | ResultRechecks(t: Task)
    | ResultLeaves(t: Task)

  // ---- Steps of one session ----

  predicate ReadHeld(x: Session) {
    exists t :: t in x.results && x.results[t] != Waiting
  }

  predicate WriteHeld(x: Session) {
    exists t :: t in x.owners && x.owners[t].Finishing? && x.owners[t].stage == Ending
  }

  /** Drop of a `RequestLifecycle`: an armed cleanup closes admission and spawns `finish`. */
  function DropLifecycle(x: Session, cleanup: bool, spawned: Task): Session {
    if cleanup
    then x.(closing := true, owners := x.owners[spawned := Finishing(false, Created)])
    else x
  }

  function Without(x: Session, t: Task): Session {
    x.(owners := x.owners - {t})
  }

  function Leave(x: Session, t: Task): Session {
    x.(results := x.results - {t})
  }

  predicate ActEnabled(x: Session, reserved: bool, a: Act) {
    match a
    case RejectReturns(t) => t in x.owners && x.owners[t].Rejecting?
    case HandlerCall(t, _) => t in x.owners && x.owners[t].Holding?
    case HandlerReturns(t, spawned) => t in x.owners && x.owners[t].Running? && spawned !in x.owners
    case FinishCall(t) => t in x.owners && x.owners[t].Holding?
    case Close(t) => t in x.owners && x.owners[t].Finishing? && x.owners[t].stage == Created
    case Drain(t) =>
      && t in x.owners && x.owners[t].Finishing? && x.owners[t].stage == Draining
      && !WriteHeld(x) && !ReadHeld(x)
    case EndReturns(t) => t in x.owners && x.owners[t].Finishing? && x.owners[t].stage == Ending
    case CallerDrops(t, spawned) =>
      && t in x.owners && spawned !in x.owners
      && match x.owners[t] {
        case Rejecting(attached) => attached
        case Holding(_) => true
        case Running(attached, _, _) => attached
        case Finishing(attached, _) => attached
      }
    case ResultArrives(t) => t !in x.results && reserved
    case ResultLate(t) => t in x.results && x.results[t] == Waiting && x.closing
    case ResultLocks(t) => t in x.results && x.results[t] == Waiting && !x.closing && !WriteHeld(x)
    case ResultRechecks(t) => t in x.results && x.results[t] == Locked
    case ResultLeaves(t) => t in x.results && x.results[t] != Locked
  }

  function Act1(x: Session, reserved: bool, a: Act): Session
    requires ActEnabled(x, reserved, a)
  {
    match a
    case RejectReturns(t) => Without(x, t).(endsReturned := x.endsReturned + 1)
    case HandlerCall(t, handler) => x.(owners := x.owners[t := Running(true, x.owners[t].held, handler)])
    case HandlerReturns(t, spawned) =>
      if x.owners[t].runAttached then x.(owners := x.owners[t := Holding(x.owners[t].cleanup)])
      else DropLifecycle(Without(x, t), x.owners[t].cleanup, spawned)
    case FinishCall(t) =>
      // `finish` disarms the slot, wraps the future and drops the emptied lifecycle.
      DropLifecycle(x.(owners := x.owners[t := Finishing(true, Created)]), false, t)
    case Close(t) =>
      x.(closing := true, owners := x.owners[t := x.owners[t].(stage := Draining)])
    case Drain(t) =>
      x.(endsStarted := x.endsStarted + 1, owners := x.owners[t := x.owners[t].(stage := Ending)])
    case EndReturns(t) => Without(x, t).(endsReturned := x.endsReturned + 1)
    case CallerDrops(t, spawned) =>
      (match x.owners[t]
       case Rejecting(_) => x.(owners := x.owners[t := Rejecting(false)])
       case Holding(cleanup) => DropLifecycle(Without(x, t), cleanup, spawned)
       case Running(_, cleanup, handler) => x.(owners := x.owners[t := Running(false, cleanup, handler)])
       case Finishing(_, stage) => x.(owners := x.owners[t := Finishing(false, stage)]))
    case ResultArrives(t) => x.(results := x.results[t := Waiting])
    case ResultLate(t) => Leave(x, t)
    case ResultLocks(t) => x.(results := x.results[t := Locked])
    case ResultRechecks(t) =>
      if x.closing || !reserved then Leave(x, t) else x.(results := x.results[t := Handling])
    case ResultLeaves(t) => Leave(x, t)
  }

  // ---- Steps of the endpoint ----

  // `beginning`: futures inside begin_request, and whether their caller is still attached.
  datatype State = State(pending: map<StreamId, Ref>, sessions: map<Ref, Session>, beginning: map<Task, bool>)

  datatype Label =
    | BeginCall(t: Task)
    | BeginDrops(t: Task)
    | BeginFails(t: Task)
    | BeginReturns(t: Task, ref: Ref, id: StreamId, spawned: Task)
    | OnSession(ref: Ref, act: Act)

  const Initial := State(map[], map[], map[])

  predicate Reserved(s: State, ref: Ref)
    requires ref in s.sessions
  {
    s.sessions[ref].id in s.pending && s.pending[s.sessions[ref].id] == ref
  }

  predicate Enabled(s: State, l: Label) {
    match l
    case BeginCall(t) => t !in s.beginning
    case BeginDrops(t) => t in s.beginning && s.beginning[t]
    case BeginFails(t) => t in s.beginning
    case BeginReturns(t, ref, _, spawned) => t in s.beginning && ref !in s.sessions && spawned != t
    case OnSession(ref, a) => ref in s.sessions && ActEnabled(s.sessions[ref], Reserved(s, ref), a)
  }

  /** The session that `begin` builds: rejected when its ID is taken, otherwise handed to the
      caller, or straight to a cleanup task when nobody is left to receive it. */
  function Admit(id: StreamId, taken: bool, attached: bool, t: Task, spawned: Task): Session {
    var x := Session(id, !taken, false, map[], map[], 0, 0);
    if taken then x.(endsStarted := 1, owners := map[t := Rejecting(attached)])
    else if attached then x.(owners := map[t := Holding(true)])
    else DropLifecycle(x, true, spawned)
  }

  /** Session `ref` becomes `x`. `finish` ends with pop_if on its own allocation. */
  function Update(s: State, ref: Ref, x: Session, finished: bool): State
    requires ref in s.sessions
  {
    s.(sessions := s.sessions[ref := x],
       pending := if finished && Reserved(s, ref) then s.pending - {s.sessions[ref].id} else s.pending)
  }

  function Apply(s: State, l: Label): State
    requires Enabled(s, l)
  {
    match l
    case BeginCall(t) => s.(beginning := s.beginning[t := true])
    case BeginDrops(t) => s.(beginning := s.beginning[t := false])
    case BeginFails(t) => s.(beginning := s.beginning - {t})
    case BeginReturns(t, ref, id, spawned) =>
      State(if id in s.pending then s.pending else s.pending[id := ref],
            s.sessions[ref := Admit(id, id in s.pending, s.beginning[t], t, spawned)],
            s.beginning - {t})
    case OnSession(ref, a) => Update(s, ref, Act1(s.sessions[ref], Reserved(s, ref), a), a.EndReturns?)
  }

  // ---- Runs ----

  function Step(s: State, l: Label): Option<State> {
    if Enabled(s, l) then Some(Apply(s, l)) else None
  }

  ghost predicate Feasible(ls: seq<Label>) {
    Run(Step, Initial, ls).Some?
  }

  ghost function After(ls: seq<Label>): State
    requires Feasible(ls)
  {
    Run(Step, Initial, ls).value
  }

  // ---- Invariant ----

  /** The future is inside the handler's `end_request`. */
  predicate InEnd(o: Owner) {
    o.Rejecting? || (o.Finishing? && o.stage == Ending)
  }

  predicate Sole(x: Session, t: Task) {
    x.owners.Keys == {t}
  }

  predicate OwnerInv(x: Session, o: Owner) {
    && x.endsReturned == 0
    && x.endsStarted == (if InEnd(o) then 1 else 0)
    && x.accepted == !o.Rejecting?
    && (o.Holding? ==> o.held)
    && (o.Running? ==> o.cleanup)
    && (x.closing ==> o.Finishing?)
    && (o.Finishing? && o.stage != Created ==> x.closing)
  }

  ghost predicate SessionInv(x: Session) {
    && (forall t :: t in x.owners ==> OwnerInv(x, x.owners[t]) && Sole(x, t))
    && (x.endsReturned == 0 ==> exists t :: Sole(x, t))
    && (x.owners == map[] ==> x.endsReturned == x.endsStarted == 1)
    && (x.accepted && x.endsStarted == 1 ==> x.closing)
    && (forall t :: t in x.results && x.results[t] == Handling ==> x.accepted && x.endsStarted == 0)
    && (forall t :: t in x.results ==> x.accepted)
  }

  predicate IsResultAct(a: Act) {
    a.ResultArrives? || a.ResultLate? || a.ResultLocks? || a.ResultRechecks? || a.ResultLeaves?
  }

  lemma ResultActKeepsSession(x: Session, reserved: bool, a: Act)
    requires SessionInv(x) && ActEnabled(x, reserved, a) && IsResultAct(a)
    requires reserved ==> x.accepted && x.endsReturned == 0
    ensures SessionInv(Act1(x, reserved, a))
  {
    var y := Act1(x, reserved, a);
    assert forall t :: Sole(x, t) ==> Sole(y, t);
    assert forall t :: t in x.owners && OwnerInv(x, x.owners[t]) ==> OwnerInv(y, y.owners[t]);
  }

  lemma DropKeepsSession(x: Session, t: Task, spawned: Task)
    requires SessionInv(x) && Sole(x, t) && spawned != t && !InEnd(x.owners[t])
    ensures SessionInv(DropLifecycle(Without(x, t), true, spawned))
  {
    assert OwnerInv(x, x.owners[t]);
    assert Sole(DropLifecycle(Without(x, t), true, spawned), spawned);
  }

  lemma StayKeepsSession(x: Session, t: Task, y: Session, o: Owner)
    requires SessionInv(x) && Sole(x, t)
    requires y.owners == x.owners[t := o] && OwnerInv(y, o)
    requires y.results == x.results && y.accepted == x.accepted && (x.closing ==> y.closing)
    requires y.endsStarted == x.endsStarted || (y.closing && !ReadHeld(x))
    ensures SessionInv(y)
  {
    assert OwnerInv(x, x.owners[t]);
    assert Sole(y, t);
  }

  lemma OwnerActKeepsSession(x: Session, reserved: bool, a: Act, t: Task)
    requires SessionInv(x) && ActEnabled(x, reserved, a) && !IsResultAct(a) && Sole(x, t)
    ensures SessionInv(Act1(x, reserved, a))
  {
    var y := Act1(x, reserved, a);
    assert OwnerInv(x, x.owners[t]);
    assert a.t == t;
    if y.endsReturned == 0 {
      if t in y.owners {
        StayKeepsSession(x, t, y, y.owners[t]);
      } else {
        DropKeepsSession(x, t, a.spawned);
      }
    }
  }

  lemma ActKeepsSession(x: Session, reserved: bool, a: Act)
    requires SessionInv(x) && ActEnabled(x, reserved, a)
    requires reserved ==> x.accepted && x.endsReturned == 0
    ensures SessionInv(Act1(x, reserved, a))
    ensures Act1(x, reserved, a).id == x.id && Act1(x, reserved, a).accepted == x.accepted
    ensures a.EndReturns? ==> x.accepted && Act1(x, reserved, a).endsReturned > 0
    ensures !a.EndReturns? && x.accepted ==> Act1(x, reserved, a).endsReturned == x.endsReturned
  {
    assert forall t :: t in x.owners ==> OwnerInv(x, x.owners[t]);
    if IsResultAct(a) {
      ResultActKeepsSession(x, reserved, a);
    } else {
      assert a.t in x.owners;
      OwnerActKeepsSession(x, reserved, a, a.t);
    }
  }

  ghost predicate SessionsInv(s: State) {
    forall ref :: ref in s.sessions ==> SessionInv(s.sessions[ref])
  }

  ghost predicate TableInv(s: State) {
    && (forall id :: id in s.pending ==> s.pending[id] in s.sessions && s.sessions[s.pending[id]].id == id)
    && (forall ref :: ref in s.sessions ==>
          (Reserved(s, ref) <==> s.sessions[ref].accepted && s.sessions[ref].endsReturned == 0))
  }

  ghost predicate Inv(s: State) {
    SessionsInv(s) && TableInv(s)
  }

  lemma UpdateKeepsTable(s: State, ref: Ref, y: Session, finished: bool)
    requires TableInv(s) && ref in s.sessions
    requires y.id == s.sessions[ref].id && y.accepted == s.sessions[ref].accepted
    requires finished ==> y.endsReturned > 0 && y.accepted
    requires !finished ==> !y.accepted || y.endsReturned == s.sessions[ref].endsReturned
    ensures TableInv(Update(s, ref, y, finished))
  {
  }

  lemma AdmittedSession(id: StreamId, taken: bool, attached: bool, t: Task, spawned: Task)
    ensures SessionInv(Admit(id, taken, attached, t, spawned))
  {
    assert Sole(Admit(id, taken, attached, t, spawned), if taken || attached then t else spawned);
  }

  lemma AdmitKeepsTable(s: State, ref: Ref, x: Session, beginning: map<Task, bool>)
    requires TableInv(s) && ref !in s.sessions
    requires x.endsReturned == 0 && x.accepted == (x.id !in s.pending)
    ensures TableInv(State(if x.id in s.pending then s.pending else s.pending[x.id := ref],
                           s.sessions[ref := x], beginning))
  {
  }

  lemma UpdateKeepsInv(s: State, ref: Ref, y: Session, finished: bool)
    requires Inv(s) && ref in s.sessions && SessionInv(y)
    requires y.id == s.sessions[ref].id && y.accepted == s.sessions[ref].accepted
    requires finished ==> y.endsReturned > 0 && y.accepted
    requires !finished ==> !y.accepted || y.endsReturned == s.sessions[ref].endsReturned
    ensures Inv(Update(s, ref, y, finished))
  {
    UpdateKeepsTable(s, ref, y, finished);
    var s' := Update(s, ref, y, finished);
    forall q | q in s'.sessions ensures SessionInv(s'.sessions[q]) {
      if q == ref { } else { assert s'.sessions[q] == s.sessions[q]; }
    }
  }

  lemma AdmitKeepsInv(s: State, ref: Ref, x: Session, beginning: map<Task, bool>)
    requires Inv(s) && ref !in s.sessions && SessionInv(x)
    requires x.endsReturned == 0 && x.accepted == (x.id !in s.pending)
    ensures Inv(State(if x.id in s.pending then s.pending else s.pending[x.id := ref],
                      s.sessions[ref := x], beginning))
  {
    AdmitKeepsTable(s, ref, x, beginning);
    var sessions := s.sessions[ref := x];
    forall q | q in sessions ensures SessionInv(sessions[q]) {
      if q == ref { } else { assert sessions[q] == s.sessions[q]; }
    }
  }

  lemma StepKeepsInv(s: State, l: Label)
    requires Inv(s) && Enabled(s, l)
    ensures Inv(Apply(s, l))
  {
    match l
    case OnSession(ref, a) =>
      ActKeepsSession(s.sessions[ref], Reserved(s, ref), a);
      UpdateKeepsInv(s, ref, Act1(s.sessions[ref], Reserved(s, ref), a), a.EndReturns?);
    case BeginReturns(t, ref, id, spawned) =>
      AdmittedSession(id, id in s.pending, s.beginning[t], t, spawned);
      AdmitKeepsInv(s, ref, Admit(id, id in s.pending, s.beginning[t], t, spawned), s.beginning - {t});
    case _ =>
  }

  lemma RunsKeepInv(ls: seq<Label>)
    requires Feasible(ls)
    ensures Inv(After(ls))
  {
    forall s, l | Inv(s) && Step(s, l).Some? ensures Inv(Step(s, l).value) { StepKeepsInv(s, l); }
    Invariant(Step, Inv, Initial, ls);
  }

  // ---- What holds in every run ----

  /** No result callback overlaps `end_request`, no other handler call of the session does,
      and `end_request` itself is never entered twice. */
  lemma NothingOverlapsEnd(ls: seq<Label>, ref: Ref, t: Task)
    requires Feasible(ls) && ref in After(ls).sessions
    requires t in After(ls).sessions[ref].owners && InEnd(After(ls).sessions[ref].owners[t])
    ensures var x := After(ls).sessions[ref];
            && x.endsStarted == 1 && x.endsReturned == 0
            && (forall u :: u in x.results ==> x.results[u] != Handling)
            && (forall u :: u in x.owners ==> u == t)
  {
    RunsKeepInv(ls);
  }

  /** Every session whose `begin_request` succeeded has had exactly one `end_request`, or has
      exactly one future that still owes it; nothing else can lose or repeat the call. */
  lemma EndIsOwedOnce(ls: seq<Label>, ref: Ref)
    requires Feasible(ls) && ref in After(ls).sessions
    ensures var x := After(ls).sessions[ref];
            && x.endsReturned <= x.endsStarted <= 1
            && (x.endsReturned == 1 <==> x.owners == map[])
            && (x.endsReturned == 0 ==> exists t :: Sole(x, t))
  {
    RunsKeepInv(ls);
    var x := After(ls).sessions[ref];
    if x.endsReturned == 0 {
      var t :| Sole(x, t);
      assert OwnerInv(x, x.owners[t]);
    }
    if t :| t in x.owners {
      assert OwnerInv(x, x.owners[t]);
    }
  }

  /** An accepted session keeps its ID reserved until `end_request` has returned, and frees it
      then, so accepted sessions with one ID never overlap. */
  lemma ReservedUntilEnded(ls: seq<Label>, p: Ref, q: Ref)
    requires Feasible(ls)
    requires p in After(ls).sessions && After(ls).sessions[p].accepted
    ensures After(ls).sessions[p].endsReturned == 0 <==> Reserved(After(ls), p)
    ensures (q in After(ls).sessions && After(ls).sessions[q].accepted
             && After(ls).sessions[p].id == After(ls).sessions[q].id
             && After(ls).sessions[p].endsReturned == 0 && After(ls).sessions[q].endsReturned == 0)
            ==> p == q
  {
    RunsKeepInv(ls);
    EndIsOwedOnce(ls, p);
  }

  lemma StepAt(ls: seq<Label>, k: nat)
    requires Feasible(ls) && k < |ls|
    ensures Feasible(ls[..k]) && Feasible(ls[..k + 1]) && Enabled(After(ls[..k]), ls[k])
    ensures After(ls[..k + 1]) == Apply(After(ls[..k]), ls[k])
  {
    Prefix(Step, Initial, ls, k);
  }

  lemma StepGrowsEnds(s: State, l: Label, ref: Ref)
    requires Enabled(s, l) && ref in s.sessions
    ensures ref in Apply(s, l).sessions
    ensures s.sessions[ref].endsStarted <= Apply(s, l).sessions[ref].endsStarted
  {
    if l.OnSession? && l.ref == ref { ActGrowsEnds(s.sessions[ref], Reserved(s, ref), l.act); }
  }

  lemma ActGrowsEnds(x: Session, reserved: bool, a: Act)
    requires ActEnabled(x, reserved, a)
    ensures x.endsStarted <= Act1(x, reserved, a).endsStarted
  {
  }

  lemma {:induction false} EndsNeverForgotten(ls: seq<Label>, k: nat, ref: Ref)
    requires Feasible(ls) && k <= |ls| && Feasible(ls[..k]) && ref in After(ls[..k]).sessions
    ensures ref in After(ls).sessions
    ensures After(ls[..k]).sessions[ref].endsStarted <= After(ls).sessions[ref].endsStarted
  {
    if k < |ls| {
      assert ls[..|ls| - 1][..k] == ls[..k];
      EndsNeverForgotten(ls[..|ls| - 1], k, ref);
      StepGrowsEnds(After(ls[..|ls| - 1]), ls[|ls| - 1], ref);
    } else {
      assert ls[..k] == ls;
    }
  }

  /** Label `l` enters handler code of session `ref`. */
  ghost predicate EntersHandler(s: State, l: Label, ref: Ref)
    requires Enabled(s, l)
  {
    && l.OnSession? && l.ref == ref
    && match l.act {
      case HandlerCall(_, _) => true
      case Drain(_) => true
      case ResultRechecks(t) => !s.sessions[ref].closing && Reserved(s, ref)
      case _ => false
    }
  }

  lemma EndedIsSilent(s: State, l: Label, ref: Ref)
    requires Inv(s) && Enabled(s, l) && ref in s.sessions && s.sessions[ref].endsStarted > 0
    ensures !EntersHandler(s, l, ref)
  {
    var x := s.sessions[ref];
    assert SessionInv(x);
    assert forall t :: t in x.owners ==> OwnerInv(x, x.owners[t]);
  }

  /** Once `end_request` of a session has been entered, by its finalizer or by the rejection of a
      duplicate, no handler code of that session is ever entered again: no message, no EOF, no
      result callback, no second `end_request`. */
  lemma NothingFollowsEnd(ls: seq<Label>, i: nat, j: nat, ref: Ref)
    requires Feasible(ls) && i <= j < |ls| && Feasible(ls[..i])
    requires ref in After(ls[..i]).sessions && After(ls[..i]).sessions[ref].endsStarted > 0
    ensures Feasible(ls[..j]) && Enabled(After(ls[..j]), ls[j])
    ensures !EntersHandler(After(ls[..j]), ls[j], ref)
  {
    StepAt(ls, j);
    assert ls[..j][..i] == ls[..i];
    EndsNeverForgotten(ls[..j], i, ref);
    RunsKeepInv(ls[..j]);
    EndedIsSilent(After(ls[..j]), ls[j], ref);
  }

  // ---- The course of a session ----

  /** Whether the caller of a begin in progress was dropped. */
  ghost function BeginGone(ls: seq<Label>, t: Task): bool {
    if |ls| == 0 then false
    else
      var l := ls[|ls| - 1];
      if l == BeginCall(t) then false else if l == BeginDrops(t) then true else BeginGone(ls[..|ls| - 1], t)
  }

  /** Whether the caller of a session was dropped, while it began or later. */
  ghost function CallerGone(ls: seq<Label>, ref: Ref): bool {
    if |ls| == 0 then false
    else
      var (pre, l) := (ls[..|ls| - 1], ls[|ls| - 1]);
      if l.BeginReturns? && l.ref == ref then BeginGone(pre, l.t)
      else if l.OnSession? && l.ref == ref && l.act.CallerDrops? then true
      else CallerGone(pre, ref)
  }

  predicate IsCourse(ref: Ref, l: Label) {
    (l.BeginReturns? && l.ref == ref) || (l.OnSession? && l.ref == ref && !IsResultAct(l.act) && !l.act.CallerDrops?)
  }

  /** The last step on the course of a session, drops of the caller aside. */
  ghost function LastStep(ls: seq<Label>, ref: Ref): Option<Label> {
    if |ls| == 0 then None
    else if IsCourse(ref, ls[|ls| - 1]) then Some(ls[|ls| - 1]) else LastStep(ls[..|ls| - 1], ref)
  }

  /** The lifecycle is with its caller, or with a finalizer when the caller is gone. */
  ghost predicate WithCaller(x: Session, t: Task, gone: bool) {
    && x.closing == gone
    && if gone then exists u :: x.owners == map[u := Finishing(false, Created)] else x.owners == map[t := Holding(true)]
  }

  /** Who owns a session after its last step, told without the steps that led there. */
  ghost predicate Position(last: Label, gone: bool, x: Session) {
    match last
    case BeginReturns(t, _, _, _) =>
      && x.endsStarted == (if x.accepted then 0 else 1) && x.endsReturned == 0
      && if x.accepted then WithCaller(x, t, gone) else !x.closing && x.owners == map[t := Rejecting(!gone)]
    case OnSession(_, a) => (match a
      case HandlerCall(t, h) =>
        x.accepted && !x.closing && x.endsStarted == 0 && x.owners == map[t := Running(!gone, true, h)]
      case HandlerReturns(t, _) => x.accepted && x.endsStarted == 0 && WithCaller(x, t, gone)
      case FinishCall(t) =>
        x.accepted && !x.closing && x.endsStarted == 0 && x.owners == map[t := Finishing(!gone, Created)]
      case Close(t) =>
        x.accepted && x.closing && x.endsStarted == 0 && x.owners == map[t := Finishing(!gone, Draining)]
      case Drain(t) =>
        && x.accepted && x.closing && x.endsStarted == 1 && x.endsReturned == 0
        && x.owners == map[t := Finishing(!gone, Ending)]
      case EndReturns(_) => x.accepted && x.closing && x.endsReturned == 1 && x.owners == map[]
      case RejectReturns(_) => !x.accepted && x.endsReturned == 1 && x.owners == map[]
      case _ => false)
    case _ => false
  }

  lemma CourseActTells(x: Session, reserved: bool, ref: Ref, a: Act, last: Label, gone: bool)
    requires SessionInv(x) && ActEnabled(x, reserved, a) && Position(last, gone, x)
    requires !IsResultAct(a) && !a.CallerDrops?
    ensures Position(OnSession(ref, a), gone, Act1(x, reserved, a))
  {
    var y, t := Act1(x, reserved, a), a.t;
    assert t in x.owners && OwnerInv(x, x.owners[t]) && Sole(x, t);
    assert x.owners == map[t := x.owners[t]];
    if a.HandlerReturns? && gone { assert y.owners == map[a.spawned := Finishing(false, Created)]; }
  }

  lemma DropTells(x: Session, reserved: bool, a: Act, last: Label, gone: bool)
    requires SessionInv(x) && ActEnabled(x, reserved, a) && Position(last, gone, x) && a.CallerDrops?
    ensures Position(last, true, Act1(x, reserved, a))
  {
    var y, t := Act1(x, reserved, a), a.t;
    assert t in x.owners && OwnerInv(x, x.owners[t]) && Sole(x, t);
    assert x.owners == map[t := x.owners[t]];
    if x.owners[t].Holding? { assert y.owners == map[a.spawned := Finishing(false, Created)]; }
  }

  lemma ResultActTells(x: Session, reserved: bool, a: Act, last: Label, gone: bool)
    requires ActEnabled(x, reserved, a) && Position(last, gone, x) && IsResultAct(a)
    ensures Position(last, gone, Act1(x, reserved, a))
  {
    var y := Act1(x, reserved, a);
    assert y == x.(results := y.results);
  }

  lemma AdmitTells(id: StreamId, taken: bool, attached: bool, t: Task, ref: Ref, spawned: Task)
    ensures Position(BeginReturns(t, ref, id, spawned), !attached, Admit(id, taken, attached, t, spawned))
  {
    if !taken && !attached {
      assert Admit(id, taken, attached, t, spawned).owners == map[spawned := Finishing(false, Created)];
    }
  }

  lemma {:induction false} BeginsAreTold(ls: seq<Label>, t: Task)
    requires Feasible(ls) && t in After(ls).beginning
    ensures After(ls).beginning[t] == !BeginGone(ls, t)
  {
    var pre, l := ls[..|ls| - 1], ls[|ls| - 1];
    if l != BeginCall(t) && l != BeginDrops(t) {
      BeginStepKeeps(After(pre), l, t);
      BeginsAreTold(pre, t);
    }
  }

  lemma BeginStepKeeps(s: State, l: Label, t: Task)
    requires Enabled(s, l) && l != BeginCall(t) && l != BeginDrops(t) && t in Apply(s, l).beginning
    ensures t in s.beginning && Apply(s, l).beginning[t] == s.beginning[t]
  {
  }

  ghost predicate Told(ls: seq<Label>, ref: Ref)
    requires Feasible(ls)
  {
    if ref in After(ls).sessions
    then LastStep(ls, ref).Some? && Position(LastStep(ls, ref).value, CallerGone(ls, ref), After(ls).sessions[ref])
    else LastStep(ls, ref).None?
  }

  lemma SessionStepTells(pre: seq<Label>, l: Label, ref: Ref)
    requires Feasible(pre) && Told(pre, ref) && l.OnSession? && l.ref == ref && Enabled(After(pre), l)
    ensures var gone := CallerGone(pre, ref) || l.act.CallerDrops?;
            var last := if IsCourse(ref, l) then Some(l) else LastStep(pre, ref);
            last.Some? && Position(last.value, gone, Apply(After(pre), l).sessions[ref])
  {
    RunsKeepInv(pre);
    var x, reserved, a := After(pre).sessions[ref], Reserved(After(pre), ref), l.act;
    assert SessionInv(x);
    var last, gone := LastStep(pre, ref).value, CallerGone(pre, ref);
    if IsResultAct(a) {
      ResultActTells(x, reserved, a, last, gone);
    } else if a.CallerDrops? {
      DropTells(x, reserved, a, last, gone);
    } else {
      CourseActTells(x, reserved, ref, a, last, gone);
    }
  }

  /** In every run the last step of a session and the drop of its caller tell who owns it: a
      handler in progress and its name, the caller until it is dropped, a finalizer from then on,
      each step of the finalization, and whether the session is closing. */
  lemma {:induction false} SessionTakesItsCourse(ls: seq<Label>, ref: Ref)
    requires Feasible(ls)
    ensures Told(ls, ref)
  {
    if |ls| > 0 {
      var pre, l := ls[..|ls| - 1], ls[|ls| - 1];
      SessionTakesItsCourse(pre, ref);
      if l.OnSession? && l.ref == ref {
        SessionStepTells(pre, l, ref);
      } else if l.BeginReturns? && l.ref == ref {
        BeginsAreTold(pre, l.t);
        AdmitTells(l.id, l.id in After(pre).pending, After(pre).beginning[l.t], l.t, ref, l.spawned);
      } else {
        OtherStepKeeps(After(pre), l, ref);
      }
    }
  }

  lemma OtherStepKeeps(s: State, l: Label, ref: Ref)
    requires Enabled(s, l) && !(l.OnSession? && l.ref == ref) && !(l.BeginReturns? && l.ref == ref)
    ensures ref in s.sessions <==> ref in Apply(s, l).sessions
    ensures ref in s.sessions ==> Apply(s, l).sessions[ref] == s.sessions[ref]
  {
  }

  /** A session is never closed on a caller that is there and has not finished it. */
  lemma OpenUntilFinished(ls: seq<Label>, ref: Ref)
    requires Feasible(ls) && ref in After(ls).sessions && After(ls).sessions[ref].accepted
    requires !CallerGone(ls, ref) && forall t :: OnSession(ref, FinishCall(t)) !in ls
    ensures !After(ls).sessions[ref].closing && Reserved(After(ls), ref)
    ensures exists t :: t in After(ls).sessions[ref].owners
                        && (After(ls).sessions[ref].owners[t].Holding? || After(ls).sessions[ref].owners[t].Running?)
  {
    SessionTakesItsCourse(ls, ref);
    RunsKeepInv(ls);
    LastStepIsIn(ls, ref);
    FinishComesFirst(ls, ref);
    var x, last := After(ls).sessions[ref], LastStep(ls, ref).value;
    var t := if last.BeginReturns? then last.t else last.act.t;
    assert t in x.owners;
  }

  lemma {:induction false} LastStepIsIn(ls: seq<Label>, ref: Ref)
    ensures LastStep(ls, ref).Some? ==> LastStep(ls, ref).value in ls && IsCourse(ref, LastStep(ls, ref).value)
  {
    if |ls| > 0 && !IsCourse(ref, ls[|ls| - 1]) { LastStepIsIn(ls[..|ls| - 1], ref); }
  }

  /** The steps of a finalization follow a finish or the drop of the caller. */
  lemma {:induction false} FinishComesFirst(ls: seq<Label>, ref: Ref)
    requires Feasible(ls) && ref in After(ls).sessions && !CallerGone(ls, ref)
    requires forall t :: OnSession(ref, FinishCall(t)) !in ls
    ensures LastStep(ls, ref).Some?
    ensures var last := LastStep(ls, ref).value;
            || last.BeginReturns?
            || (last.OnSession? && (last.act.HandlerCall? || last.act.HandlerReturns? || last.act.RejectReturns?))
  {
    SessionTakesItsCourse(ls, ref);
    var pre, l := ls[..|ls| - 1], ls[|ls| - 1];
    if !(l.BeginReturns? && l.ref == ref) {
      SessionTakesItsCourse(pre, ref);
      assert ref in After(pre).sessions by { OtherStepKeepsIn(After(pre), l, ref); }
      FinishComesFirst(pre, ref);
    }
  }

  lemma OtherStepKeepsIn(s: State, l: Label, ref: Ref)
    requires Enabled(s, l) && !(l.BeginReturns? && l.ref == ref) && ref in Apply(s, l).sessions
    ensures ref in s.sessions
  {
  }

  // ---- The course of a result ----

  ghost function LastOfResult(ls: seq<Label>, ref: Ref, t: Task): Option<Act> {
    if |ls| == 0 then None
    else
      var l := ls[|ls| - 1];
      if l.OnSession? && l.ref == ref && IsResultAct(l.act) && l.act.t == t then Some(l.act)
      else LastOfResult(ls[..|ls| - 1], ref, t)
  }

  /** Where the last act of a delivery leaves it. */
  predicate ResultFits(last: Option<Act>, results: map<Task, ResultStage>, t: Task) {
    match last
    case Some(ResultArrives(_)) => t in results && results[t] == Waiting
    case Some(ResultLocks(_)) => t in results && results[t] == Locked
    case Some(ResultRechecks(_)) => t in results ==> results[t] == Handling
    case _ => t !in results
  }

  lemma ResultStepTells(x: Session, reserved: bool, a: Act, t: Task, last: Option<Act>)
    requires ActEnabled(x, reserved, a) && ResultFits(last, x.results, t)
    ensures ResultFits(if IsResultAct(a) && a.t == t then Some(a) else last, Act1(x, reserved, a).results, t)
  {
    assert !IsResultAct(a) ==> Act1(x, reserved, a).results == x.results;
  }

  /** In every run the last act of a delivery tells its stage. */
  lemma {:induction false} ResultTakesItsCourse(ls: seq<Label>, ref: Ref, t: Task)
    requires Feasible(ls)
    ensures if ref in After(ls).sessions then ResultFits(LastOfResult(ls, ref, t), After(ls).sessions[ref].results, t)
            else LastOfResult(ls, ref, t).None?
  {
    if |ls| > 0 {
      var pre, l := ls[..|ls| - 1], ls[|ls| - 1];
      ResultTakesItsCourse(pre, ref, t);
      if l.OnSession? && l.ref == ref {
        var s := After(pre);
        ResultStepTells(s.sessions[ref], Reserved(s, ref), l.act, t, LastOfResult(pre, ref, t));
      } else if !(l.BeginReturns? && l.ref == ref) {
        OtherStepKeeps(After(pre), l, ref);
      }
    }
  }

  /** The recheck lets a result into handler code exactly when the session is open and holds its
      ID; otherwise the delivery is over. */
  lemma ResultReachesOpenSession(ls: seq<Label>, ref: Ref, t: Task)
    requires Feasible(ls) && Enabled(After(ls), OnSession(ref, ResultRechecks(t)))
    ensures var (s, y) := (After(ls), Apply(After(ls), OnSession(ref, ResultRechecks(t))).sessions[ref]);
            if !s.sessions[ref].closing && Reserved(s, ref) then t in y.results && y.results[t] == Handling
            else t !in y.results
  {
  }

  // ---- Finalization always comes to an end ----

  function Readers(x: Session): set<Task> {
    set t | t in x.results && x.results[t] != Waiting
  }

  function OwnerWork(o: Owner): nat {
    match o
    case Finishing(_, Created) => 3
    case Finishing(_, Draining) => 2
    case _ => 1
  }

  /** Steps a closing session still needs: those of its finalizer and one for each guard. */
  ghost function Work(x: Session): nat {
    |Readers(x)| + if t: Task :| Sole(x, t) then OwnerWork(x.owners[t]) else 0
  }

  predicate Finalizes(x: Session, a: Act) {
    match a
    case Close(_) => true
    case Drain(_) => true
    case EndReturns(_) => true
    case ResultRechecks(_) => true
    case ResultLeaves(t) => t in x.results && x.results[t] == Handling
    case _ => false
  }

  lemma WorkOf(x: Session, t: Task)
    requires Sole(x, t)
    ensures Work(x) == |Readers(x)| + OwnerWork(x.owners[t])
  {
    forall u | Sole(x, u) ensures u == t { assert u in x.owners; }
  }

  lemma ResultActWork(x: Session, reserved: bool, a: Act)
    requires ActEnabled(x, reserved, a) && x.closing && IsResultAct(a)
    ensures Work(Act1(x, reserved, a)) <= Work(x)
    ensures Finalizes(x, a) ==> Work(Act1(x, reserved, a)) < Work(x)
  {
    var y := Act1(x, reserved, a);
    assert y.owners == x.owners;
    assert forall t :: Sole(y, t) <==> Sole(x, t);
    assert Readers(y) == Readers(x) - {a.t};
    if t: Task :| Sole(x, t) {
      WorkOf(x, t);
      WorkOf(y, t);
    }
  }

  lemma OwnerActWork(x: Session, reserved: bool, a: Act)
    requires SessionInv(x) && ActEnabled(x, reserved, a) && x.closing && !IsResultAct(a)
    ensures Work(Act1(x, reserved, a)) <= Work(x)
    ensures Finalizes(x, a) ==> Work(Act1(x, reserved, a)) < Work(x)
  {
    var y, t := Act1(x, reserved, a), a.t;
    assert t in x.owners && OwnerInv(x, x.owners[t]);
    assert Readers(y) == Readers(x);
    WorkOf(x, t);
    if t in y.owners {
      assert Sole(y, t);
      WorkOf(y, t);
    } else {
      assert forall u :: !Sole(y, u);
    }
  }

  /** A closing session never gets more work, and each finalizing step removes some. */
  lemma FinalizingShrinksWork(x: Session, reserved: bool, a: Act)
    requires SessionInv(x) && ActEnabled(x, reserved, a) && x.closing
    ensures Work(Act1(x, reserved, a)) <= Work(x)
    ensures Finalizes(x, a) ==> Work(Act1(x, reserved, a)) < Work(x)
  {
    if IsResultAct(a) { ResultActWork(x, reserved, a); } else { OwnerActWork(x, reserved, a); }
  }

  /** A closing session that has not ended can always take a finalizing step. */
  lemma FinalizingIsEnabled(x: Session, reserved: bool) returns (a: Act)
    requires SessionInv(x) && x.closing && x.endsReturned == 0
    ensures ActEnabled(x, reserved, a) && Finalizes(x, a)
  {
    var t: Task :| Sole(x, t);
    assert t in x.owners && OwnerInv(x, x.owners[t]);
    match x.owners[t].stage
    case Created => a := Close(t);
    case Ending => a := EndReturns(t);
    case Draining =>
      if u: Task :| u in x.results && x.results[u] != Waiting {
        a := if x.results[u] == Locked then ResultRechecks(u) else ResultLeaves(u);
      } else {
        assert !ReadHeld(x) && !WriteHeld(x);
        a := Drain(t);
      }
  }

  /** No session is stranded: in every run, a session that has not ended can take a step that
      brings it closer, whatever its caller has done. */
  lemma NoSessionIsStranded(ls: seq<Label>, ref: Ref) returns (a: Act)
    requires Feasible(ls) && ref in After(ls).sessions && After(ls).sessions[ref].endsReturned == 0
    ensures Enabled(After(ls), OnSession(ref, a))
    ensures var x := After(ls).sessions[ref];
            if x.closing then Work(Act1(x, Reserved(After(ls), ref), a)) < Work(x)
            else a.RejectReturns? || a.HandlerReturns? || a.FinishCall? || a.Close?
  {
    RunsKeepInv(ls);
    var x := After(ls).sessions[ref];
    var t: Task :| Sole(x, t);
    assert t in x.owners && OwnerInv(x, x.owners[t]);
    if x.closing {
      a := FinalizingIsEnabled(x, Reserved(After(ls), ref));
      FinalizingShrinksWork(x, Reserved(After(ls), ref), a);
    } else {
      match x.owners[t]
      case Rejecting(_) => a := RejectReturns(t);
      case Holding(_) => a := FinishCall(t);
      case Running(_, _, _) => a := HandlerReturns(t, t + 1);
      case Finishing(_, _) => a := Close(t);
    }
  }
}
