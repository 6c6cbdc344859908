/** `Call::deliver`, `Call::close` and `SubStream::dispatch` in the form of their code, with other
    tasks running at every await. Every activation is a run of the call's step system. */
module SubStreamCall {
  import opened Runs
  import opened SubStream

  // Who is at an await: the caller of the SubStream, or a task that delivers a result.
  datatype Who = TheCaller | TheDelivery(t: Task)

  predicate Foreign(who: Who, l: Label) {
    match l
    case Delivers(t) => who != TheDelivery(t)
    case GateGiven(t) => who != TheDelivery(t)
    case OutReturns(t, _) => who != TheDelivery(t)
    case DeliveryDropped(t) => who != TheDelivery(t)
    case ContextCancelled => true
    case _ => who != TheCaller
  }

  ghost predicate AllForeign(who: Who, ls: seq<Label>) {
    forall i :: 0 <= i < |ls| ==> Foreign(who, ls[i])
  }

  /** What the waiting task can rely on. */
  predicate Kept(who: Who, s: Call, s': Call) {
    && s.outs <= s'.outs && (s.done ==> s'.done) && (s.cancelled ==> s'.cancelled)
    && match who {
      case TheCaller => s'.caller == s.caller
      case TheDelivery(t) =>
        && (t in s'.deliveries <==> t in s.deliveries) && (t in s.deliveries ==> s'.deliveries[t] == s.deliveries[t])
        && (s.gate == Some(t) ==> s'.gate == Some(t) && s'.outs == s.outs)
    }
  }

  lemma ForeignStepKeeps(who: Who, s: Call, l: Label)
    requires Inv(s) && Enabled(s, l) && Foreign(who, l)
    ensures Kept(who, s, Apply(s, l))
  {
  }

  lemma {:induction false} ForeignRunKeeps(who: Who, s: Call, ls: seq<Label>)
    requires Inv(s) && AllForeign(who, ls) && Run(Step, s, ls).Some?
    ensures Inv(Run(Step, s, ls).value) && Kept(who, s, Run(Step, s, ls).value)
  {
    if |ls| > 0 {
      var pre := ls[..|ls| - 1];
      ForeignRunKeeps(who, s, pre);
      ForeignStepKeeps(who, Run(Step, s, pre).value, ls[|ls| - 1]);
      StepKeepsInv(Run(Step, s, pre).value, ls[|ls| - 1]);
    }
  }

  // `Pending`: the future has not returned; `Gone`: it was dropped.
  datatype Outcome = Ok | ContextError | Pending | Gone

  // What became of a delivery: the gate was held, the task was dropped before or inside the
  // collector, the call took no more results, or the collector returned.
  datatype Delivery = Blocked | Abandoned | Interrupted | Ignored | Collected(out: bool)

  class CallState {
    var callback: bool
    var gate: Option<Task>
    var done: bool
    var completed: bool
    var cancelled: bool
    ghost var past: Call  // carries the programs' positions and the collector's results
    ghost var log: seq<Label>

    ghost function View(): Call
      reads this
    {
      past.(callback := callback, gate := gate, done := done, completed := completed, cancelled := cancelled)
    }

    ghost predicate Valid()
      reads this
    {
      Run(Step, Initial, log) == Some(View())
    }

    constructor ()
      ensures Valid() && View() == Initial
    {
      callback, gate, done, completed, cancelled := true, None, false, false, false;
      past, log := Initial, [];
    }

    ghost method Note(before: Call, l: Label)
      requires Run(Step, Initial, log) == Some(before) && Enabled(before, l)
      requires var after := Apply(before, l);
               && callback == after.callback && gate == after.gate && done == after.done
               && completed == after.completed && cancelled == after.cancelled
      modifies this`log, this`past
      ensures Valid() && View() == Apply(before, l) && log == old(log) + [l]
    {
      Extend(Step, Initial, log, l);
      log, past := log + [l], Apply(before, l);
    }

    /** Other tasks take any steps. */
    method Yield(ghost who: Who)
      requires Valid()
      modifies this
      ensures Valid() && old(log) <= log && AllForeign(who, log[|old(log)|..])
    {
    }

    /** An await of `who`. */
    method Await(ghost who: Who)
      requires Valid()
      modifies this
      ensures Valid() && old(log) <= log && AllForeign(who, log[|old(log)|..])
      ensures Kept(who, old(View()), View())
    {
      ghost var s, before := View(), log;
      Yield(who);
      assert log == before + log[|before|..];
      Append(Step, Initial, before, log[|before|..]);
      RunsKeepInv(before);
      ForeignRunKeeps(who, s, log[|before|..]);
    }

    method Close()
      modifies this`done, this`callback
      ensures done && !callback
    {
      done, callback := true, false;
    }

    /** The collector's call, which returns `result` unless the task is dropped inside it. */
    method Collect(t: Task, drop: bool, result: bool)
      requires Valid() && gate == Some(t) && t in past.deliveries && past.deliveries[t] == Collecting
      modifies this
      ensures Valid() && t !in past.deliveries
      ensures past.outs == old(past.outs) + if drop then [] else [result]
      ensures !drop && result ==> completed && done
    {
      Await(TheDelivery(t));
      ghost var before := View();
      gate := None;
      if drop {
        Note(before, DeliveryDropped(t));
        return;
      }
      if result {
        completed := true;
        Close();
      }
      Note(before, OutReturns(t, result));
    }

    /** The gate has been given: the collector is entered if the call is open and not cancelled. */
    method EnterGate(t: Task) returns (entered: bool)
      requires Valid() && gate == None && t in past.deliveries && past.deliveries[t] == WaitGate
      modifies this
      ensures Valid() && past.outs == old(past.outs)
      ensures entered == (!old(done) && old(callback) && !old(cancelled))
      ensures if entered then gate == Some(t) && t in past.deliveries && past.deliveries[t] == Collecting
              else done == (old(done) || (old(callback) && old(cancelled)))
    {
      ghost var before := View();
      if done || !callback {
        Note(before, GateGiven(t));
        return false;
      }
      if cancelled {
        Close();
        Note(before, GateGiven(t));
        return false;
      }
      gate := Some(t);
      Note(before, GateGiven(t));
      return true;
    }

    /** `deliver`, with what its task and the collector do. The collector is entered exactly when
        the task gets the gate with the call open and its context not cancelled. */
    method Deliver(t: Task, dropAtGate: bool, dropInside: bool, result: bool) returns (r: Delivery)
      requires Valid() && t !in past.deliveries
      modifies this
      ensures Valid() && old(past.outs) <= past.outs
      ensures match r {
                case Blocked => gate.Some?
                case Abandoned => dropAtGate
                case Interrupted => dropInside && !old(done)
                case Ignored => done
                case Collected(out) =>
                  && out == result && !dropInside && !old(done)
                  && |past.outs| > 0 && past.outs[|past.outs| - 1] == out && (out ==> completed && done)
              }
    {
      Note(View(), Delivers(t));
      Await(TheDelivery(t));
      if dropAtGate {
        RunsKeepInv(log);
        ghost var before := View();
        Note(before, DeliveryDropped(t));
        return Abandoned;
      }
      if gate.Some? { return Blocked; }
      RunsKeepInv(log);
      var entered := EnterGate(t);
      if !entered { return Ignored; }
      Collect(t, dropInside, result);
      return if dropInside then Interrupted else Collected(result);
    }

    ghost predicate Decided(out: Outcome)
      reads this
    {
      match out
      case Ok => past.caller == Returned(true) && true in past.outs && gate == None && done
      case ContextError => past.caller == Returned(false) && true !in past.outs && cancelled && gate == None && done
      case Pending => (past.caller == Waiting && !cancelled && !done) || (past.caller == WantsGate && gate.Some?)
      case Gone => past.caller == Dropped && done
    }

    method DropCaller()
      requires Valid() && past.caller in {Emitting, Waiting, WantsGate}
      modifies this
      ensures Valid() && Decided(Gone)
    {
      ghost var before := View();
      Close();
      Note(before, CallerDropped);
    }

    /** The last part of `dispatch`: the gate drains the collector before the outcome is read. */
    method Decide(drop: bool) returns (out: Outcome)
      requires Valid() && past.caller == WantsGate
      modifies this
      ensures Valid() && Decided(out) && (out == Gone ==> drop)
    {
      Await(TheCaller);
      var gone := Perhaps(drop);
      if gone { DropCaller(); return Gone; }
      if gate.Some? { return Pending; }
      ghost var before := View();
      Close();
      Note(before, CallerDecides);
      OutcomeIsExact(log);
      return if completed then Ok else ContextError;
    }

    /** `dispatch`: emit, wait for completion or cancellation, drain, decide. It has not returned
        only while there is neither, or while a collector call runs. */
    method Dispatch(drop: bool) returns (out: Outcome)
      requires Valid() && past.caller == Emitting
      modifies this
      ensures Valid() && Decided(out) && (out == Gone ==> drop)
    {
      Await(TheCaller);
      var gone := Perhaps(drop);
      if gone { DropCaller(); return Gone; }
      Note(View(), EmitReturns);
      Await(TheCaller);
      gone := Perhaps(drop);
      if gone { DropCaller(); return Gone; }
      if !cancelled && !done { return Pending; }
      Note(View(), WaitEnds);
      out := Decide(drop);
    }
  }
}
