/** `serve_http_request`, from the pending table on, and `consume_result` of the HTTP source in the
    form of their code, with other tasks running at every await. Every activation is a run of the
    step system. */
module HttpEndpoint {
  import opened Runs
  import opened HttpSource

  // Who is at an await: the request future, or a task that delivers a result.
  datatype Who = TheRequest(ref: Ref) | TheResult(ref: Ref, t: Task)

  predicate Foreign(who: Who, l: Label) {
    match l
    case BeginReturns(_, _) => true
    case DoneCalled(_) => true
    case ContextCancelled(_) => true
    case ResultArrives(t, _) => !(who.TheResult? && who.t == t)
    case ResultLocks(ref, t) => who != TheResult(ref, t)
    case ResultRechecks(ref, t) => who != TheResult(ref, t)
    case ResultLeaves(ref, t) => who != TheResult(ref, t)
    case _ => who != TheRequest(l.ref)
  }

  ghost predicate AllForeign(who: Who, ls: seq<Label>) {
    forall i :: 0 <= i < |ls| ==> Foreign(who, ls[i])
  }

  /** What the waiting task can rely on. */
  ghost predicate Kept(who: Who, s: State, s': State) {
    who.ref in s.sessions ==>
      && who.ref in s'.sessions
      && var (x, x') := (s.sessions[who.ref], s'.sessions[who.ref]);
      && x'.id == x.id && x'.inserted == x.inserted && x.endsStarted <= x'.endsStarted
      && (x.done ==> x'.done) && (x.cancelled ==> x'.cancelled)
      && match who {
        case TheRequest(_) =>
          && x'.stage == x.stage && x'.vars == x.vars
          && x'.endsStarted == x.endsStarted && x'.endsReturned == x.endsReturned
        case TheResult(_, t) => t in x.results ==> t in x'.results && x'.results[t] == x.results[t]
      }
  }

  lemma OwnStepKeeps(hasResult: bool, who: Who, s: State, l: Label)
    requires Enabled(s, l) && Foreign(who, l) && (l.Drains? || l.EndReturns? || l.Frees? || l.BeginReturns?)
    ensures Kept(who, s, Apply(hasResult, s, l))
  {
  }

  lemma OtherKeeps(hasResult: bool, who: Who, s: State, l: Label)
    requires Enabled(s, l) && Foreign(who, l) && !(l.Drains? || l.EndReturns? || l.Frees? || l.BeginReturns?)
    ensures Kept(who, s, Apply(hasResult, s, l))
  {
  }

  lemma ForeignStepKeeps(hasResult: bool, who: Who, s: State, l: Label)
    requires Enabled(s, l) && Foreign(who, l)
    ensures Kept(who, s, Apply(hasResult, s, l))
  {
    if l.Drains? || l.EndReturns? || l.Frees? || l.BeginReturns? {
      OwnStepKeeps(hasResult, who, s, l);
    } else {
      OtherKeeps(hasResult, who, s, l);
    }
  }

  lemma {:induction false} ForeignRunKeeps(hasResult: bool, who: Who, s: State, ls: seq<Label>)
    requires AllForeign(who, ls) && Run(Stepper(hasResult), s, ls).Some?
    ensures Kept(who, s, Run(Stepper(hasResult), s, ls).value)
  {
    if |ls| > 0 {
      var pre := ls[..|ls| - 1];
      ForeignRunKeeps(hasResult, who, s, pre);
      ForeignStepKeeps(hasResult, who, Run(Stepper(hasResult), s, pre).value, ls[|ls| - 1]);
    }
  }

  /** Label `k` of the run is the recheck of `t` on request `ref` while that holds its ID. */
  ghost predicate Enters(hasResult: bool, ls: seq<Label>, k: nat, ref: Ref, t: Task) {
    && k < |ls| && ls[k] == ResultRechecks(ref, t) && Feasible(hasResult, ls[..k])
    && ref in After(hasResult, ls[..k]).sessions && Reserved(After(hasResult, ls[..k]), ref)
  }

  lemma EntersLater(hasResult: bool, ls: seq<Label>, more: seq<Label>, k: nat, ref: Ref, t: Task)
    requires ls <= more && Enters(hasResult, ls, k, ref, t)
    ensures Enters(hasResult, more, k, ref, t)
  {
    assert more[..k] == ls[..k];
  }

  lemma DrainFacts(hasResult: bool, ls: seq<Label>, ref: Ref)
    requires Feasible(hasResult, ls) && ref in After(hasResult, ls).sessions
    requires After(hasResult, ls).sessions[ref].stage.Draining?
    ensures var x := After(hasResult, ls).sessions[ref];
            !x.writing && (Enabled(After(hasResult, ls), Drains(ref)) <==> !ReadHeld(x))
  {
    RunsKeepInv(hasResult, ls);
    assert SessionInv(ref, After(hasResult, ls).sessions[ref]);
  }

  lemma EndingFacts(hasResult: bool, ls: seq<Label>, ref: Ref)
    requires Feasible(hasResult, ls) && ref in After(hasResult, ls).sessions
    requires After(hasResult, ls).sessions[ref].stage.Ending?
    ensures var x := After(hasResult, ls).sessions[ref];
            && x.stage.removed == (if x.inserted then Some(ref) else None) && (x.stage.removed.None? ==> !x.writing)
            && x.endsStarted == 1 && x.endsReturned == 0 && !Reserved(After(hasResult, ls), ref)
  {
    RunsKeepInv(hasResult, ls);
    assert SessionInv(ref, After(hasResult, ls).sessions[ref]);
  }

  // Where a request is: ended with its result, waiting for `done` or cancellation, or waiting for
  // callbacks that hold their guards.
  datatype Served = Finished(result: bool) | AwaitsResult | AwaitsCallbacks

  // What became of a delivery.
  datatype Delivery = NoRequest | Abandoned | GuardHeld | NoLonger | Called

  class Endpoint {
    const hasResult: bool
    var pending: map<StreamId, Ref>
    var sessions: map<Ref, Session>
    ghost var log: seq<Label>

    ghost function View(): State
      reads this
    {
      State(pending, sessions)
    }

    ghost predicate Valid()
      reads this
    {
      Run(Stepper(hasResult), Initial, log) == Some(View())
    }

    ghost predicate IsAt(ref: Ref, stage: Stage)
      reads this
    {
      Valid() && At(View(), ref, stage)
    }

    constructor (hasResult: bool)
      ensures Valid() && View() == Initial && this.hasResult == hasResult
    {
      this.hasResult := hasResult;
      pending, sessions, log := map[], map[], [];
    }

    ghost method Note(before: State, l: Label)
      requires Run(Stepper(hasResult), Initial, log) == Some(before)
      requires Enabled(before, l) && Apply(hasResult, before, l) == View()
      modifies this`log
      ensures Valid() && log == old(log) + [l]
    {
      Extend(Stepper(hasResult), Initial, log, l);
      log := log + [l];
    }

    /** Other tasks take any steps. */
    method Yield(ghost who: Who)
      requires Valid()
      modifies this
      ensures Valid() && old(log) <= log && AllForeign(who, log[|old(log)|..])
    {
    }

    /** An await of `who`. */
    method Await(ghost who: Who)
      requires Valid()
      modifies this
      ensures Valid() && old(log) <= log && AllForeign(who, log[|old(log)|..])
      ensures Kept(who, old(View()), View())
    {
      ghost var s, before := View(), log;
      Yield(who);
      assert log == before + log[|before|..];
      Append(Stepper(hasResult), Initial, before, log[|before|..]);
      ForeignRunKeeps(hasResult, who, s, log[|before|..]);
    }

    // ---- The request ----

    /** Admission: the request enters the pending table unless its ID is taken. */
    method Insert(id: StreamId) returns (ref: Ref, accepted: bool)
      requires Valid()
      modifies this
      ensures accepted == !(hasResult && id in old(pending))
      ensures IsAt(ref, if accepted then Consuming else Ending(None)) && sessions[ref].id == id
      ensures sessions[ref].inserted == (hasResult && accepted) && sessions[ref].vars == Unset
      ensures accepted && hasResult ==> Reserved(View(), ref)
      ensures !accepted ==> pending == old(pending)
    {
      ghost var before := View();
      ref := Unused(sessions);
      accepted := true;
      if hasResult {
        if id in pending { accepted := false; } else { pending := pending[id := ref]; }
      }
      var x := Session(id, hasResult && accepted, if accepted then Consuming else Ending(None), false, map[],
                       if accepted then 0 else 1, 0, false, false, Unset);
      sessions := sessions[ref := x];
      Note(before, BeginReturns(ref, id));
    }

    /** consume_message has returned `ok`. */
    method Consumed(ref: Ref, ok: bool)
      requires IsAt(ref, Consuming)
      modifies this
      ensures IsAt(ref, if ok && hasResult then WaitDone else Freeing) && sessions[ref].vars == Vars(ok, false, ok)
      ensures sessions[ref].inserted == old(sessions)[ref].inserted
    {
      ghost var before := View();
      var x := sessions[ref];
      if ok && hasResult {
        x := x.(stage := WaitDone);
      } else {
        x := x.(stage := Freeing);
      }
      sessions := sessions[ref := x.(vars := Vars(ok, false, ok))];
      Note(before, ConsumeReturns(ref, ok));
    }

    /** The select between `done` and cancellation; false while there is neither. */
    method WaitForResult(ref: Ref) returns (ended: bool)
      requires IsAt(ref, WaitDone)
      modifies this
      ensures ended == (old(sessions)[ref].done || old(sessions)[ref].cancelled)
      ensures if ended then IsAt(ref, Freeing) && sessions[ref].vars.consumed else View() == old(View()) && Valid()
      ensures ref in sessions && sessions[ref].inserted == old(sessions)[ref].inserted
    {
      var x := sessions[ref];
      if !x.done && !x.cancelled { return false; }
      var byCancel: bool := *;
      if !x.cancelled { byCancel := false; }
      if !x.done { byCancel := true; }
      ghost var before := View();
      sessions := sessions[ref := x.(stage := Freeing, vars := Vars(true, byCancel, !byCancel))];
      Note(before, WaitEnds(ref, byCancel));
      return true;
    }

    /** consume_message and, when a result is expected, the wait for `done` or cancellation. */
    method ConsumeAndWait(ref: Ref, ok: bool) returns (ready: bool)
      requires IsAt(ref, Consuming)
      modifies this
      ensures if ready then IsAt(ref, Freeing)
              else IsAt(ref, WaitDone) && hasResult && ok && !sessions[ref].done && !sessions[ref].cancelled
      ensures sessions[ref].vars.consumed == ok && sessions[ref].inserted == old(sessions)[ref].inserted
    {
      Await(TheRequest(ref));
      Consumed(ref, ok);
      if !ok || !hasResult { return true; }
      Await(TheRequest(ref));
      RequestTakesItsCourse(hasResult, log, ref);
      ready := WaitForResult(ref);
    }

    /** `pop`: the ID is free from here on. What it removes is the request's own entry. */
    method Free(ref: Ref) returns (removed: Option<Ref>)
      requires IsAt(ref, Freeing)
      modifies this
      ensures IsAt(ref, Draining(removed)) && removed == (if hasResult then Some(ref) else None)
      ensures hasResult ==> sessions[ref].id !in pending
      ensures sessions[ref].vars == old(sessions)[ref].vars && sessions[ref].inserted == old(sessions)[ref].inserted
    {
      PopRemovesOwnEntry(hasResult, log, ref);
      ghost var before := View();
      removed := None;
      var id := sessions[ref].id;
      if hasResult {
        if id in pending { removed := Some(pending[id]); }
        pending := pending - {id};
      }
      sessions := sessions[ref := sessions[ref].(stage := Draining(removed))];
      Note(before, Frees(ref));
    }

    /** The write guard has been given: the result is settled and `end_request` entered. */
    method EnterEnd(ref: Ref, removed: Option<Ref>)
      requires IsAt(ref, Draining(removed)) && removed == (if hasResult then Some(ref) else None)
      requires !sessions[ref].writing && !ReadHeld(sessions[ref])
      modifies this
      ensures IsAt(ref, Ending(removed)) && log == old(log) + [Drains(ref)]
      ensures sessions[ref] == HttpSource.Next(hasResult, old(View()), Drains(ref), ref)
    {
      ghost var before := View();
      var x := sessions[ref];
      if removed.Some? { x := x.(writing := true); }
      if x.vars.waitCancelled && x.done { x := x.(vars := x.vars.(result := true)); }
      sessions := sessions[ref := x.(stage := Ending(removed), endsStarted := x.endsStarted + 1)];
      Note(before, Drains(ref));
    }

    /** The write guard of the removed entry; false while a callback holds a read guard. */
    method Drain(ref: Ref, removed: Option<Ref>) returns (drained: bool)
      requires IsAt(ref, Draining(removed)) && removed == (if hasResult then Some(ref) else None)
      modifies this
      ensures drained <==> !ReadHeld(old(sessions)[ref])
      ensures if drained then IsAt(ref, Ending(removed)) else Valid() && View() == old(View())
      ensures drained ==> (sessions[ref].vars.result <==>
                ConsumeReturns(ref, true) in old(log) && (!hasResult || DoneCalled(ref) in old(log)))
      ensures ref in sessions && sessions[ref].vars.consumed == old(sessions)[ref].vars.consumed
      ensures sessions[ref].inserted == old(sessions)[ref].inserted
    {
      DrainFacts(hasResult, log, ref);
      if ReadHeld(sessions[ref]) { return false; }
      EndGetsOutcome(hasResult, log, ref);
      EnterEnd(ref, removed);
      return true;
    }

    /** `end_request`, which is given the result, and after which the guard is released. */
    method End(ref: Ref) returns (result: bool)
      requires Valid() && ref in sessions && sessions[ref].stage.Ending?
      modifies this
      ensures IsAt(ref, Ended) && sessions[ref].endsStarted == sessions[ref].endsReturned == 1
      ensures !Reserved(View(), ref) && result == old(sessions)[ref].vars.result
      ensures sessions[ref].vars == old(sessions)[ref].vars && sessions[ref].inserted == old(sessions)[ref].inserted
    {
      result := sessions[ref].vars.result;
      Await(TheRequest(ref));
      Release(ref);
    }

    method Release(ref: Ref)
      requires Valid() && ref in sessions && sessions[ref].stage.Ending?
      modifies this
      ensures IsAt(ref, Ended) && sessions[ref].endsStarted == sessions[ref].endsReturned == 1
      ensures !Reserved(View(), ref)
      ensures sessions[ref].vars == old(sessions)[ref].vars && sessions[ref].inserted == old(sessions)[ref].inserted
    {
      EndingFacts(hasResult, log, ref);
      ghost var before := View();
      var x := sessions[ref];
      if x.stage.removed.Some? { x := x.(writing := false); }
      sessions := sessions[ref := x.(stage := Ended, endsReturned := x.endsReturned + 1)];
      Note(before, EndReturns(ref));
    }

    /** The steps of the request in the log. */
    ghost function Steps(ref: Ref): seq<Label>
      reads this
    {
      Filter((l: Label) => IsOwn(ref, l), log)
    }

    /** What the outcome says: the request ended with its result, waits for a result that has neither
        come nor been cancelled, or for callbacks that hold their guards. */
    ghost predicate Shows(out: Served, ref: Ref, ok: bool)
      requires ref in sessions
      reads this
    {
      match out
      case Finished(result) => IsAt(ref, Ended) && !Reserved(View(), ref) && result == sessions[ref].vars.result
      case AwaitsResult =>
        IsAt(ref, WaitDone) && hasResult && ok && !sessions[ref].done && !sessions[ref].cancelled
      case AwaitsCallbacks => sessions[ref].stage.Draining? && ReadHeld(sessions[ref])
    }

    /** An accepted request, whose consume_message returns `ok`. */
    method ServeAccepted(ref: Ref, ok: bool) returns (out: Served)
      requires IsAt(ref, Consuming)
      modifies this
      ensures Valid() && ref in sessions && sessions[ref].inserted == old(sessions)[ref].inserted
      ensures sessions[ref].vars.consumed == ok
      ensures Shows(out, ref, ok)
    {
      var ready := ConsumeAndWait(ref, ok);
      if !ready { return AwaitsResult; }
      var removed := Free(ref);
      Await(TheRequest(ref));
      var drained := Drain(ref, removed);
      if !drained { return AwaitsCallbacks; }
      var result := End(ref);
      return Finished(result);
    }

    /** The whole request, whose consume_message returns `ok`. It ends through all its steps, or is
        seen waiting for a result that is not there or for callbacks that have not left. */
    method Serve(id: StreamId, ok: bool) returns (ref: Ref, out: Served)
      requires Valid()
      modifies this
      ensures Valid() && ref in sessions && Steps(ref) == Story(hasResult, ref, sessions[ref])
      ensures hasResult && id in old(pending) ==> out == Finished(false) && !sessions[ref].inserted
      ensures !(hasResult && id in old(pending)) ==>
                sessions[ref].vars.consumed == ok && sessions[ref].inserted == hasResult
      ensures Shows(out, ref, ok)
    {
      var accepted: bool;
      ref, accepted := Insert(id);
      if accepted {
        out := ServeAccepted(ref, ok);
      } else {
        RunsKeepInv(hasResult, log);
        var result := End(ref);
        out := Finished(result);
      }
      RequestTakesItsCourse(hasResult, log, ref);
    }

    // ---- Results ----

    method SetResult(ref: Ref, t: Task, stage: ResultStage, ghost l: Label)
      requires Valid() && ref in sessions && Enabled(View(), l)
      requires Apply(hasResult, View(), l) == PutResult(View(), ref, t, stage)
      modifies this`sessions, this`log
      ensures Valid() && log == old(log) + [l] && pending == old(pending)
      ensures sessions == old(sessions)[ref := old(sessions)[ref].(results := old(sessions)[ref].results[t := stage])]
    {
      ghost var before := View();
      sessions := sessions[ref := sessions[ref].(results := sessions[ref].results[t := stage])];
      Note(before, l);
    }

    method LeaveResult(ref: Ref, t: Task, ghost l: Label)
      requires Valid() && ref in sessions && Enabled(View(), l)
      requires Apply(hasResult, View(), l) == DropResult(View(), ref, t)
      modifies this`sessions, this`log
      ensures Valid() && log == old(log) + [l] && ref in sessions && t !in sessions[ref].results
    {
      ghost var before := View();
      sessions := sessions[ref := sessions[ref].(results := sessions[ref].results - {t})];
      Note(before, l);
    }

    /** Under the read guard: the entry must still be the one in the table. */
    method Recheck(ref: Ref, t: Task) returns (ok: bool)
      requires Valid() && HasResult(View(), ref, t) && sessions[ref].results[t] == Locked
      modifies this
      ensures Valid() && old(log) <= log && ref in sessions && ok == old(Reserved(View(), ref)) == Reserved(View(), ref)
      ensures ok ==> Enters(hasResult, log, |old(log)|, ref, t)
      ensures ok ==> HasResult(View(), ref, t) && sessions[ref].results[t] == Handling && sessions[ref].endsStarted == 0
      ensures !ok ==> t !in sessions[ref].results
    {
      ResultReachesHolder(hasResult, log, ref, t);
      var id := sessions[ref].id;
      ok := id in pending && pending[id] == ref;
      if ok {
        SetResult(ref, t, Handling, ResultRechecks(ref, t));
        RunsKeepInv(hasResult, log);
        assert SessionInv(ref, sessions[ref]);
      } else {
        LeaveResult(ref, t, ResultRechecks(ref, t));
      }
      assert log[..|old(log)|] == old(log);
    }

    /** `consume_result`. A result is called back exactly when its request is found on arrival, the
        read guard is obtained and the request still holds the ID then. */
    method ConsumeResult(id: StreamId, t: Task, drop: bool) returns (out: Delivery)
      requires Valid() && forall ref :: ref in sessions ==> t !in sessions[ref].results
      modifies this
      ensures Valid() && old(log) <= log && (out == NoRequest <==> id !in old(pending))
      ensures out != NoRequest ==> old(pending)[id] in sessions && Delivered(out, old(pending)[id], t, drop, |old(log)|)
    {
      if id !in pending { return NoRequest; }
      var ref := pending[id];
      RunsKeepInv(hasResult, log);
      SetResult(ref, t, Waiting, ResultArrives(t, id));
      out := DeliverTo(ref, t, drop);
    }

    /** What the outcome of a delivery to request `ref` says. */
    ghost predicate Delivered(out: Delivery, ref: Ref, t: Task, drop: bool, from: nat)
      requires ref in sessions
      reads this
    {
      match out
      case NoRequest => false
      case Abandoned => drop && t !in sessions[ref].results
      case GuardHeld => sessions[ref].writing
      case NoLonger => t !in sessions[ref].results && !Reserved(View(), ref)
      case Called =>
        t !in sessions[ref].results && exists k: nat :: from <= k && Enters(hasResult, log, k, ref, t)
    }

    /** The read guard, unless the task is dropped first or a writer holds the lock. */
    method TakeReadGuard(ref: Ref, t: Task, drop: bool) returns (taken: bool)
      requires Valid() && HasResult(View(), ref, t) && sessions[ref].results[t] == Waiting
      modifies this
      ensures Valid() && old(log) <= log && ref in sessions && taken == (!drop && !old(sessions)[ref].writing)
      ensures taken ==> HasResult(View(), ref, t) && sessions[ref].results[t] == Locked
      ensures drop ==> t !in sessions[ref].results
      ensures !drop && !taken ==> View() == old(View())
    {
      if drop { LeaveResult(ref, t, ResultLeaves(ref, t)); return false; }
      if sessions[ref].writing { return false; }
      SetResult(ref, t, Locked, ResultLocks(ref, t));
      return true;
    }

    /** The handler's callback, under the guard. */
    method CallBack(ref: Ref, t: Task)
      requires Valid() && HasResult(View(), ref, t) && sessions[ref].results[t] == Handling
      modifies this
      ensures Valid() && old(log) <= log && ref in sessions && t !in sessions[ref].results
    {
      Await(TheResult(ref, t));
      LeaveResult(ref, t, ResultLeaves(ref, t));
    }

    /** The guarded part of `consume_result`. */
    method DeliverTo(ref: Ref, t: Task, drop: bool) returns (out: Delivery)
      requires Valid() && HasResult(View(), ref, t) && sessions[ref].results[t] == Waiting
      modifies this
      ensures Valid() && old(log) <= log && ref in sessions && Delivered(out, ref, t, drop, |old(log)|)
    {
      Await(TheResult(ref, t));
      var taken := TakeReadGuard(ref, t, drop);
      if drop { return Abandoned; }
      if !taken { return GuardHeld; }
      Await(TheResult(ref, t));
      ghost var k := |log|;
      var ok := Recheck(ref, t);
      if !ok { return NoLonger; }
      ghost var entered := log;
      CallBack(ref, t);
      EntersLater(hasResult, entered, log, k, ref, t);
      return Called;
    }
  }
}
