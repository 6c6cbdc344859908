/** One call of a SubStream: results are delivered by any number of concurrent tasks, a gate
    serializes the collector, and the caller drains it before it decides the outcome. */
module SubStream {
  import opened Runs

  type Task = nat

  datatype Delivery = WaitGate | Collecting

  // The caller: inside `emit`, in its select, waiting for the gate, returned, or its future
  // dropped.
  datatype Caller = Emitting | Waiting | WantsGate | Returned(ok: bool) | Dropped

  // `callback` is the slot, `cancelled` the caller's context; `outs` records what the
  // collector returned, call by call.
  datatype Call = Call(
    callback: bool, gate: Option<Task>, done: bool, completed: bool, cancelled: bool,
    caller: Caller, deliveries: map<Task, Delivery>, outs: seq<bool>)

  const Initial := Call(true, None, false, false, false, Emitting, map[], [])

  datatype Label =
    | Delivers(t: Task)
    | GateGiven(t: Task)
    | OutReturns(t: Task, out: bool)
    | DeliveryDropped(t: Task)
    | ContextCancelled
    | EmitReturns
    | WaitEnds
    | CallerDecides
    | CallerDropped

  // ---- Steps ----

  function Close(s: Call): Call {
    s.(done := true, callback := false)
  }

  function Gone(s: Call, t: Task): Call {
    s.(deliveries := s.deliveries - {t}, gate := if s.gate == Some(t) then None else s.gate)
  }

  predicate Enabled(s: Call, l: Label) {
    match l
    case Delivers(t) => t !in s.deliveries
    case GateGiven(t) => t in s.deliveries && s.deliveries[t] == WaitGate && s.gate == None
    case OutReturns(t, _) => t in s.deliveries && s.deliveries[t] == Collecting
    case DeliveryDropped(t) => t in s.deliveries
    case ContextCancelled => true
    case EmitReturns => s.caller == Emitting
    case WaitEnds => s.caller == Waiting && (s.cancelled || s.done)
    case CallerDecides => s.caller == WantsGate && s.gate == None
    case CallerDropped => s.caller == Emitting || s.caller == Waiting || s.caller == WantsGate
  }

  function Apply(s: Call, l: Label): Call
    requires Enabled(s, l)
  {
    match l
    case Delivers(t) => s.(deliveries := s.deliveries[t := WaitGate])
    case GateGiven(t) =>
      if s.done || !s.callback then Gone(s, t)
      else if s.cancelled then Close(Gone(s, t))
      else s.(gate := Some(t), deliveries := s.deliveries[t := Collecting])
    case OutReturns(t, out) =>
      var returned := Gone(s, t).(outs := s.outs + [out]);
      if out then Close(returned.(completed := true)) else returned
    case DeliveryDropped(t) => Gone(s, t)
    case ContextCancelled => s.(cancelled := true)
    case EmitReturns => s.(caller := Waiting)
    case WaitEnds => s.(caller := WantsGate)
    case CallerDecides => Close(s).(caller := Returned(s.completed))
    case CallerDropped => Close(s).(caller := Dropped)
  }

  // ---- Runs ----

  function Step(s: Call, l: Label): Option<Call> {
    if Enabled(s, l) then Some(Apply(s, l)) else None
  }

  ghost predicate Feasible(ls: seq<Label>) {
    Run(Step, Initial, ls).Some?
  }

  ghost function After(ls: seq<Label>): Call
    requires Feasible(ls)
  {
    Run(Step, Initial, ls).value
  }

  // ---- Invariant ----

  /** All results but possibly the last one are false. */
  predicate OnlyLastTrue(outs: seq<bool>) {
    forall i :: 0 <= i < |outs| - 1 ==> !outs[i]
  }

  ghost predicate Inv(s: Call) {
    && (forall t :: t in s.deliveries ==> (s.deliveries[t] == Collecting <==> s.gate == Some(t)))
    && (s.gate.Some? ==> s.gate.value in s.deliveries && !s.completed)
    && OnlyLastTrue(s.outs)
    && (s.completed <==> |s.outs| > 0 && s.outs[|s.outs| - 1])
    && (s.completed ==> s.done)
    && (s.done == !s.callback)
    && (s.done && !s.caller.Returned? && !s.caller.Dropped? ==> s.completed || s.cancelled)
    && (s.caller == WantsGate ==> s.done || s.cancelled)
    && (s.caller.Dropped? ==> s.done)
    && (s.caller.Returned? ==> s.done && s.gate == None && s.caller.ok == s.completed && (s.completed || s.cancelled))
  }

  lemma RunsKeepInv(ls: seq<Label>)
    requires Feasible(ls)
    ensures Inv(After(ls))
  {
    forall s, l | Inv(s) && Step(s, l).Some? ensures Inv(Step(s, l).value) { StepKeepsInv(s, l); }
    Invariant(Step, Inv, Initial, ls);
  }

  lemma StepKeepsInv(s: Call, l: Label)
    requires Inv(s) && Enabled(s, l)
    ensures Inv(Apply(s, l))
  {
  }

  // ---- What holds in every run ----

  /** Collector calls are serialized, and their results are false any number of times followed
      by at most one true. */
  lemma CollectorIsSerialized(ls: seq<Label>, t: Task, u: Task)
    requires Feasible(ls)
    ensures OnlyLastTrue(After(ls).outs)
    ensures (t in After(ls).deliveries && u in After(ls).deliveries
             && After(ls).deliveries[t] == After(ls).deliveries[u] == Collecting) ==> t == u
  {
    RunsKeepInv(ls);
  }

  /** The call returns Ok exactly when some collector call returned true, and an error only
      with the caller's context cancelled. */
  lemma OutcomeIsExact(ls: seq<Label>)
    requires Feasible(ls) && After(ls).caller.Returned?
    ensures After(ls).caller.ok <==> true in After(ls).outs
    ensures !After(ls).caller.ok ==> After(ls).cancelled
  {
    RunsKeepInv(ls);
    var outs := After(ls).outs;
    if true in outs {
      var i :| 0 <= i < |outs| && outs[i];
      assert i == |outs| - 1;
    }
  }

  lemma ReturnIsFinal(s: Call, l: Label)
    requires Inv(s) && Enabled(s, l) && s.caller.Returned?
    ensures Apply(s, l).caller == s.caller && Apply(s, l).outs == s.outs
    ensures !l.OutReturns?
  {
  }

  /** When the call has returned, no collector call runs, and none ever starts or returns. */
  lemma {:induction false} NothingCollectedAfterReturn(ls: seq<Label>, i: nat)
    requires Feasible(ls) && i <= |ls| && Feasible(ls[..i]) && After(ls[..i]).caller.Returned?
    ensures After(ls).caller == After(ls[..i]).caller && After(ls).outs == After(ls[..i]).outs
    ensures forall t :: t in After(ls).deliveries ==> After(ls).deliveries[t] == WaitGate
  {
    RunsKeepInv(ls);
    if i == |ls| {
      assert ls[..i] == ls;
    } else {
      var pre := ls[..|ls| - 1];
      assert pre[..i] == ls[..i];
      NothingCollectedAfterReturn(pre, i);
      RunsKeepInv(pre);
      ReturnIsFinal(After(pre), ls[|ls| - 1]);
    }
  }

  /** The caller is never stuck: once its select can end, it returns as soon as the collector
      call in progress, if any, has returned; and nothing new can get in its way for good. */
  lemma CallerCanDecide(ls: seq<Label>) returns (l: Label)
    requires Feasible(ls) && After(ls).caller == WantsGate
    ensures Enabled(After(ls), l)
    ensures l == CallerDecides || (l.OutReturns? && Apply(After(ls), l).gate == None)
  {
    RunsKeepInv(ls);
    var s := After(ls);
    l := if s.gate == None then CallerDecides else OutReturns(s.gate.value, false);
  }

  // ---- The course of a call ----

  ghost function OutsIn(ls: seq<Label>): seq<bool> {
    if |ls| == 0 then [] else OutsIn(ls[..|ls| - 1]) + if ls[|ls| - 1].OutReturns? then [ls[|ls| - 1].out] else []
  }

  predicate IsCallerStep(l: Label) {
    l.EmitReturns? || l.WaitEnds? || l.CallerDecides? || l.CallerDropped?
  }

  ghost function LastOfCaller(ls: seq<Label>): Option<Label> {
    if |ls| == 0 then None
    else if IsCallerStep(ls[|ls| - 1]) then Some(ls[|ls| - 1]) else LastOfCaller(ls[..|ls| - 1])
  }

  predicate IsStepOf(t: Task, l: Label) {
    match l
    case Delivers(u) => u == t
    case GateGiven(u) => u == t
    case OutReturns(u, _) => u == t
    case DeliveryDropped(u) => u == t
    case _ => false
  }

  ghost function LastOfDelivery(ls: seq<Label>, t: Task): Option<Label> {
    if |ls| == 0 then None
    else if IsStepOf(t, ls[|ls| - 1]) then Some(ls[|ls| - 1]) else LastOfDelivery(ls[..|ls| - 1], t)
  }

  /** Where the last steps of the caller and of a delivery leave them. */
  predicate Position(caller: Option<Label>, delivery: Option<Label>, t: Task, s: Call) {
    && (match caller
        case None => s.caller == Emitting
        case Some(EmitReturns) => s.caller == Waiting
        case Some(WaitEnds) => s.caller == WantsGate
        case Some(CallerDecides) => s.caller.Returned?
        case Some(CallerDropped) => s.caller == Dropped
        case _ => false)
    && (match delivery
        case Some(Delivers(_)) => t in s.deliveries && s.deliveries[t] == WaitGate
        case Some(GateGiven(_)) => t in s.deliveries ==> s.deliveries[t] == Collecting
        case _ => t !in s.deliveries)
  }

  lemma StepPositions(s: Call, l: Label, caller: Option<Label>, delivery: Option<Label>, t: Task)
    requires Enabled(s, l) && Position(caller, delivery, t, s)
    ensures Position(if IsCallerStep(l) then Some(l) else caller,
                     if IsStepOf(t, l) then Some(l) else delivery, t, Apply(s, l))
    ensures Apply(s, l).outs == s.outs + (if l.OutReturns? then [l.out] else [])
    ensures Apply(s, l).cancelled <==> s.cancelled || l == ContextCancelled
  {
  }

  /** In every run the steps tell where caller and deliveries are, what the collector returned and
      whether the context was cancelled. */
  lemma {:induction false} CallTakesItsCourse(ls: seq<Label>, t: Task)
    requires Feasible(ls)
    ensures Position(LastOfCaller(ls), LastOfDelivery(ls, t), t, After(ls))
    ensures After(ls).outs == OutsIn(ls) && (After(ls).cancelled <==> ContextCancelled in ls)
  {
    if |ls| > 0 {
      var n := |ls| - 1;
      var pre, l := ls[..n], ls[n];
      CallTakesItsCourse(pre, t);
      StepPositions(After(pre), l, LastOfCaller(pre), LastOfDelivery(pre, t), t);
      assert ls == pre + [l];
    }
  }

  /** A delivery that is given the gate is collected exactly when the call is open and its context
      not cancelled; otherwise it is over. */
  lemma GateLetsIn(ls: seq<Label>, t: Task)
    requires Feasible(ls) && Enabled(After(ls), GateGiven(t))
    ensures var (s, s') := (After(ls), Apply(After(ls), GateGiven(t)));
            && (t in s'.deliveries <==> !s.done && !s.cancelled)
            && (t in s'.deliveries ==> s'.deliveries[t] == Collecting && s'.gate == Some(t))
            && s'.done == (s.done || s.cancelled)
  {
    RunsKeepInv(ls);
  }
}
