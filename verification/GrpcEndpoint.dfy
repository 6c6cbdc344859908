/** The gRPC source's operations in the form of their code: `begin_owned`, `consume_owned`,
    `eof_owned`, `finish_owned`, `finish` and `consume_result`, with other futures running at every
    await. Every activation is a run of the session step system. */
module GrpcEndpoint {
  import opened Runs
  import opened GrpcSource

  // Who is at an await: a future inside begin_request, the future that owns a session, or one
  // that delivers a result to it.
  datatype Who = Beginner(t: Task) | Owning(ref: Ref, t: Task) | Delivering(ref: Ref, t: Task)

  /** Steps of other futures. The drop of the own caller is one of them. */
  predicate Foreign(who: Who, l: Label) {
    match l
    case BeginCall(t) => who != Beginner(t)
    case BeginDrops(_) => true
    case BeginFails(t) => who != Beginner(t)
    case BeginReturns(t, _, _, _) => who != Beginner(t)
    case OnSession(ref, a) =>
      if IsResultAct(a) then who != Delivering(ref, a.t)
      else a.CallerDrops? || who != Owning(ref, a.t)
  }

  ghost predicate AllForeign(who: Who, ls: seq<Label>) {
    forall i :: 0 <= i < |ls| ==> Foreign(who, ls[i])
  }

  /** The same owner, except that its caller may have gone. */
  predicate SameOwner(o: Owner, o': Owner) {
    match o
    case Rejecting(_) => o'.Rejecting?
    case Holding(_) => o' == o
    case Running(_, cleanup, handler) => o'.Running? && o'.cleanup == cleanup && o'.handler == handler
    case Finishing(_, stage) => o'.Finishing? && o'.stage == stage
  }

  predicate SessionKept(x: Session, x': Session) {
    && x'.id == x.id && x'.accepted == x.accepted && (x.closing ==> x'.closing)
    && x.endsStarted <= x'.endsStarted && x.endsReturned <= x'.endsReturned
  }

  /** What the waiting future can rely on; the owner of a session is not `Holding` at an await. */
  ghost predicate Kept(who: Who, s: State, s': State) {
    && (forall ref :: ref in s.sessions ==> ref in s'.sessions && SessionKept(s.sessions[ref], s'.sessions[ref]))
    && match who {
      case Beginner(t) => t in s.beginning ==> t in s'.beginning
      case Owning(ref, t) =>
        (ref in s.sessions && t in s.sessions[ref].owners && !s.sessions[ref].owners[t].Holding?) ==>
          && ref in s'.sessions && t in s'.sessions[ref].owners
          && SameOwner(s.sessions[ref].owners[t], s'.sessions[ref].owners[t])
      case Delivering(ref, t) =>
        (ref in s.sessions && t in s.sessions[ref].results) ==>
          && ref in s'.sessions && t in s'.sessions[ref].results
          && s'.sessions[ref].results[t] == s.sessions[ref].results[t]
    }
  }

  lemma ActKeeps(x: Session, reserved: bool, a: Act)
    requires ActEnabled(x, reserved, a)
    ensures SessionKept(x, Act1(x, reserved, a))
  {
  }

  lemma ActKeepsOwner(x: Session, reserved: bool, a: Act, t: Task)
    requires ActEnabled(x, reserved, a) && t in x.owners && !x.owners[t].Holding?
    requires IsResultAct(a) || a.CallerDrops? || a.t != t
    ensures var x' := Act1(x, reserved, a); t in x'.owners && SameOwner(x.owners[t], x'.owners[t])
  {
  }

  lemma ActKeepsResult(x: Session, reserved: bool, a: Act, t: Task)
    requires ActEnabled(x, reserved, a) && t in x.results && (!IsResultAct(a) || a.t != t)
    ensures var x' := Act1(x, reserved, a); t in x'.results && x'.results[t] == x.results[t]
  {
  }

  lemma ForeignStepKeeps(who: Who, s: State, l: Label)
    requires Enabled(s, l) && Foreign(who, l)
    ensures Kept(who, s, Apply(s, l))
  {
    if l.OnSession? {
      var x, reserved, a := s.sessions[l.ref], Reserved(s, l.ref), l.act;
      ActKeeps(x, reserved, a);
      match who
      case Owning(ref, t) =>
        if ref == l.ref && t in x.owners && !x.owners[t].Holding? { ActKeepsOwner(x, reserved, a, t); }
      case Delivering(ref, t) =>
        if ref == l.ref && t in x.results { ActKeepsResult(x, reserved, a, t); }
      case _ =>
    }
  }

  lemma KeptJoins(who: Who, a: State, b: State, c: State)
    requires Kept(who, a, b) && Kept(who, b, c)
    ensures Kept(who, a, c)
  {
  }

  lemma {:induction false} ForeignRunKeeps(who: Who, s: State, ls: seq<Label>)
    requires AllForeign(who, ls) && Run(Step, s, ls).Some?
    ensures Kept(who, s, Run(Step, s, ls).value)
  {
    if |ls| > 0 {
      var pre := ls[..|ls| - 1];
      var mid := Run(Step, s, pre).value;
      ForeignRunKeeps(who, s, pre);
      ForeignStepKeeps(who, mid, ls[|ls| - 1]);
      KeptJoins(who, s, mid, Apply(mid, ls[|ls| - 1]));
    }
  }

  lemma OwnerFacts(ls: seq<Label>, ref: Ref, t: Task)
    requires Feasible(ls) && ref in After(ls).sessions && t in After(ls).sessions[ref].owners
    ensures var x := After(ls).sessions[ref]; Sole(x, t) && OwnerInv(x, x.owners[t])
  {
    RunsKeepInv(ls);
    assert SessionInv(After(ls).sessions[ref]);
  }

  lemma HandlingFacts(ls: seq<Label>, ref: Ref, t: Task)
    requires Feasible(ls) && ref in After(ls).sessions && t in After(ls).sessions[ref].results
    requires After(ls).sessions[ref].results[t] == Handling
    ensures After(ls).sessions[ref].accepted && After(ls).sessions[ref].endsStarted == 0
  {
    RunsKeepInv(ls);
    assert SessionInv(After(ls).sessions[ref]);
  }

  // What `begin_owned` gives its caller. `Gone`: the caller was dropped meanwhile.
  // `HandlerError`: begin_request failed.
  datatype Begun = Accepted(ref: Ref) | HandlerError | Duplicate(ref: Ref) | Gone(ref: Ref)

  /** Label `k` of the run is the recheck of `t` on session `ref`, and enters handler code. */
  ghost predicate Enters(ls: seq<Label>, k: nat, ref: Ref, t: Task) {
    && k < |ls| && ls[k] == OnSession(ref, ResultRechecks(t)) && Feasible(ls[..k])
    && Enabled(After(ls[..k]), ls[k]) && EntersHandler(After(ls[..k]), ls[k], ref)
  }

  lemma EntersLater(ls: seq<Label>, more: seq<Label>, k: nat, ref: Ref, t: Task)
    requires ls <= more && Enters(ls, k, ref, t)
    ensures Enters(more, k, ref, t)
  {
    assert more[..k] == ls[..k];
  }

  /** Right after a begin or a handler, the caller holds the lifecycle exactly if it is there. */
  lemma CallerHolds(ls: seq<Label>, ref: Ref, t: Task)
    requires Feasible(ls) && |ls| > 0 && ref in After(ls).sessions && After(ls).sessions[ref].accepted
    requires var l := ls[|ls| - 1];
             || (l.BeginReturns? && l.t == t && l.ref == ref)
             || (l.OnSession? && l.ref == ref && l.act.HandlerReturns? && l.act.t == t)
    ensures var owners := After(ls).sessions[ref].owners;
            CallerGone(ls, ref) <==> !(t in owners && owners[t].Holding?)
  {
    SessionTakesItsCourse(ls, ref);
    assert LastStep(ls, ref) == Some(ls[|ls| - 1]);
  }

  // What became of a delivery.
  datatype Delivery = NoSession | Late | Abandoned | GuardHeld | NoLonger | Called

  class Endpoint {
    var pending: map<StreamId, Ref>
    var sessions: map<Ref, Session>
    var beginning: map<Task, bool>
    ghost var log: seq<Label>

    ghost function View(): State
      reads this
    {
      State(pending, sessions, beginning)
    }

    ghost predicate Valid()
      reads this
    {
      Run(Step, Initial, log) == Some(View())
    }

    ghost predicate Owns(ref: Ref, t: Task)
      reads this
    {
      Valid() && ref in sessions && t in sessions[ref].owners
    }

    constructor ()
      ensures Valid() && View() == Initial
    {
      pending, sessions, beginning, log := map[], map[], map[], [];
    }

    ghost method Note(before: State, l: Label)
      requires Run(Step, Initial, log) == Some(before) && Step(before, l) == Some(View())
      modifies this`log
      ensures Valid() && log == old(log) + [l]
    {
      Extend(Step, Initial, log, l);
      log := log + [l];
    }

    /** Other futures take any steps. */
    method Yield(ghost who: Who)
      requires Valid()
      modifies this
      ensures Valid() && old(log) <= log && AllForeign(who, log[|old(log)|..])
    {
    }

    /** An await of `who`. */
    method Await(ghost who: Who)
      requires Valid()
      modifies this
      ensures Valid() && old(log) <= log && AllForeign(who, log[|old(log)|..])
      ensures Kept(who, old(View()), View())
    {
      ghost var s, before := View(), log;
      Yield(who);
      assert log == before + log[|before|..];
      Append(Step, Initial, before, log[|before|..]);
      ForeignRunKeeps(who, s, log[|before|..]);
    }

    /** Session `ref` becomes `x`, by its act `a`. */
    method Update(ref: Ref, x: Session, ghost a: Act)
      requires Valid() && ref in sessions && !a.EndReturns?
      requires ActEnabled(sessions[ref], Reserved(View(), ref), a)
      requires x == Act1(sessions[ref], Reserved(View(), ref), a)
      modifies this`sessions, this`log
      ensures Valid() && log == old(log) + [OnSession(ref, a)] && sessions == old(sessions)[ref := x]
    {
      ghost var before := View();
      sessions := sessions[ref := x];
      Note(before, OnSession(ref, a));
    }

    // ---- Finalization ----

    /** After `end_request` has returned: `pop_if` on the own allocation. */
    method Release(ref: Ref, t: Task)
      requires Owns(ref, t) && sessions[ref].owners[t].Finishing? && sessions[ref].owners[t].stage == Ending
      modifies this
      ensures Valid() && ref in sessions && Ended(ref)
    {
      ghost var before := View();
      OwnerFacts(log, ref, t);
      var x := sessions[ref];
      sessions := sessions[ref := x.(owners := x.owners - {t}, endsReturned := x.endsReturned + 1)];
      if x.id in pending && pending[x.id] == ref { pending := pending - {x.id}; }
      Note(before, OnSession(ref, EndReturns(t)));
    }

    /** The session is over: one `end_request`, no owner, its ID free. */
    ghost predicate Ended(ref: Ref)
      requires ref in sessions
      reads this
    {
      var x := sessions[ref];
      x.closing && x.endsStarted == x.endsReturned == 1 && x.owners == map[] && !Reserved(View(), ref)
    }

    /** `closing.cancel()`. */
    method CloseAdmission(ref: Ref, t: Task)
      requires Owns(ref, t) && sessions[ref].owners[t].Finishing? && sessions[ref].owners[t].stage == Created
      modifies this
      ensures Owns(ref, t) && sessions[ref].owners[t].Finishing? && sessions[ref].owners[t].stage == Draining
      ensures sessions[ref].closing
    {
      var x := sessions[ref];
      Update(ref, x.(closing := true, owners := x.owners[t := x.owners[t].(stage := Draining)]), Close(t));
    }

    /** The write guard, if no callback holds a read guard, and the call of `end_request`. */
    method EnterEnd(ref: Ref, t: Task) returns (entered: bool)
      requires Owns(ref, t) && sessions[ref].owners[t].Finishing? && sessions[ref].owners[t].stage == Draining
      modifies this
      ensures Owns(ref, t) && entered == !ReadHeld(old(sessions)[ref])
      ensures sessions[ref].closing == old(sessions)[ref].closing
      ensures entered ==> sessions[ref].owners[t].Finishing? && sessions[ref].owners[t].stage == Ending
      ensures !entered ==> View() == old(View())
    {
      var x := sessions[ref];
      OwnerFacts(log, ref, t);
      if ReadHeld(x) { return false; }
      assert !WriteHeld(x);
      var owners := x.owners[t := x.owners[t].(stage := Ending)];
      Update(ref, x.(endsStarted := x.endsStarted + 1, owners := owners), Drain(t));
      return true;
    }

    /** `finish`: close admission, drain the result callbacks, end, free the ID. False while some
        callback has not left. */
    method Finish(ref: Ref, t: Task) returns (done: bool)
      requires Owns(ref, t) && sessions[ref].owners[t].Finishing? && sessions[ref].owners[t].stage == Created
      modifies this
      ensures Valid() && ref in sessions && (done ==> Ended(ref))
      ensures !done ==> Owns(ref, t) && sessions[ref].closing && ReadHeld(sessions[ref])
    {
      CloseAdmission(ref, t);
      Await(Owning(ref, t));
      var entered := EnterEnd(ref, t);
      if !entered { return false; }
      Await(Owning(ref, t));
      Release(ref, t);
      return true;
    }

    /** `finish_owned`: the cleanup slot is disarmed and the finalization wrapped. */
    method FinishOwned(ref: Ref, t: Task) returns (done: bool)
      requires Owns(ref, t) && sessions[ref].owners[t].Holding?
      modifies this
      ensures Valid() && ref in sessions && (done ==> Ended(ref))
      ensures !done ==> Owns(ref, t) && sessions[ref].closing && ReadHeld(sessions[ref])
    {
      var x := sessions[ref];
      Update(ref, x.(owners := x.owners[t := Finishing(true, Created)]), FinishCall(t));
      done := Finish(ref, t);
    }

    /** A finalizer has a task of its own, and nobody else owns the session. */
    ghost predicate HandedOver(ref: Ref)
      requires ref in sessions
      reads this
    {
      sessions[ref].closing && exists u :: sessions[ref].owners == map[u := Finishing(false, Created)]
    }

    /** Drop of a `RequestLifecycle` held by `t`: admission closes and a task for `finish` is spawned. */
    method DropLifecycle(ref: Ref, t: Task)
      requires Owns(ref, t) && sessions[ref].owners[t].Holding?
      modifies this
      ensures Valid() && ref in sessions && HandedOver(ref) && pending == old(pending)
    {
      OwnerFacts(log, ref, t);
      var x := sessions[ref];
      var spawned := Unused(x.owners);
      var owners := (x.owners - {t})[spawned := Finishing(false, Created)];
      Update(ref, if x.owners[t].held then x.(closing := true, owners := owners) else x.(owners := x.owners - {t}),
             CallerDrops(t, spawned));
      assert owners == map[spawned := Finishing(false, Created)];
    }

    // ---- Requests ----

    /** The handler has returned: its owner gets the lifecycle back, or, when the caller has gone,
        a finalizer takes it over. */
    method HandBack(ref: Ref, t: Task) returns (back: bool)
      requires Owns(ref, t) && sessions[ref].owners[t].Running?
      modifies this
      ensures Valid() && ref in sessions && back == old(sessions)[ref].owners[t].runAttached
      ensures |log| == |old(log)| + 1 && old(log) <= log && log[|old(log)|].OnSession? && log[|old(log)|].ref == ref
      ensures log[|old(log)|].act.HandlerReturns? && log[|old(log)|].act.t == t
      ensures back ==> Owns(ref, t) && sessions[ref].owners[t] == Holding(true)
      ensures !back ==> HandedOver(ref) && !(t in sessions[ref].owners && sessions[ref].owners[t].Holding?)
      ensures sessions[ref].accepted
    {
      OwnerFacts(log, ref, t);
      var x := sessions[ref];
      var spawned := Unused(x.owners);
      back := x.owners[t].runAttached;
      if back {
        Update(ref, x.(owners := x.owners[t := Holding(x.owners[t].cleanup)]), HandlerReturns(t, spawned));
      } else {
        var owners := (x.owners - {t})[spawned := Finishing(false, Created)];
        Update(ref, x.(closing := true, owners := owners), HandlerReturns(t, spawned));
        assert owners == map[spawned := Finishing(false, Created)];
      }
    }

    /** `consume_owned` and `eof_owned`: the handler runs on the lifecycle. */
    method RunHandler(ref: Ref, t: Task, handler: RequestHandler) returns (back: bool)
      requires Owns(ref, t) && sessions[ref].owners[t].Holding?
      modifies this
      ensures Valid() && ref in sessions
      ensures old(log) + [OnSession(ref, HandlerCall(t, handler))] <= log && log[|log| - 1].OnSession?
      ensures log[|log| - 1].act.HandlerReturns? && log[|log| - 1].act.t == t && log[|log| - 1].ref == ref
      ensures back == !CallerGone(log, ref)
      ensures back ==> Owns(ref, t) && sessions[ref].owners[t] == Holding(true)
      ensures !back ==> HandedOver(ref)
    {
      var x := sessions[ref];
      Update(ref, x.(owners := x.owners[t := Running(true, x.owners[t].held, handler)]), HandlerCall(t, handler));
      Await(Owning(ref, t));
      back := HandBack(ref, t);
      CallerHolds(log, ref, t);
    }

    /** The part of `begin` after `begin_request` succeeded, up to admission: the allocation is
        entered under its ID unless the ID is taken. */
    method Admission(t: Task, id: StreamId) returns (ref: Ref, begun: Begun)
      requires Valid() && t in beginning
      modifies this
      ensures Valid() && ref in sessions && sessions[ref].id == id
      ensures begun == (if id in old(pending) then Duplicate(ref)
                        else if old(beginning)[t] then Accepted(ref) else Gone(ref))
      ensures sessions[ref].accepted == !begun.Duplicate?
      ensures |log| == |old(log)| + 1 && log[|old(log)|].BeginReturns? && log[|old(log)|].t == t
      ensures log[|old(log)|].ref == ref
      ensures begun.Duplicate? ==>
                pending == old(pending) && sessions[ref].owners == map[t := Rejecting(old(beginning)[t])]
      ensures begun.Accepted? ==> Reserved(View(), ref) && sessions[ref].owners == map[t := Holding(true)]
      ensures begun.Gone? ==> Reserved(View(), ref) && HandedOver(ref)
    {
      ghost var before := View();
      ref := Unused(sessions);
      var spawned, attached, taken := t + 1, beginning[t], id in pending;
      var x := Session(id, !taken, !taken && !attached, map[], map[], if taken then 1 else 0, 0);
      x := x.(owners := if taken then map[t := Rejecting(attached)]
                        else if attached then map[t := Holding(true)]
                        else map[spawned := Finishing(false, Created)]);
      if !taken { pending := pending[id := ref]; }
      sessions, beginning := sessions[ref := x], beginning - {t};
      Note(before, BeginReturns(t, ref, id, spawned));
      begun := if taken then Duplicate(ref) else if attached then Accepted(ref) else Gone(ref);
    }

    /** A duplicate is told through its own `end_request` and never gets the ID. */
    method Reject(ref: Ref, t: Task)
      requires Owns(ref, t) && sessions[ref].owners[t].Rejecting?
      modifies this
      ensures Valid() && ref in sessions && sessions[ref].endsReturned == 1 && sessions[ref].owners == map[]
      ensures sessions[ref].id == old(sessions)[ref].id && sessions[ref].accepted == old(sessions)[ref].accepted
    {
      Await(Owning(ref, t));
      OwnerFacts(log, ref, t);
      var x := sessions[ref];
      Update(ref, x.(owners := x.owners - {t}, endsReturned := x.endsReturned + 1), RejectReturns(t));
    }

    /** `begin_owned`, whose begin_request fails or succeeds with a context of stream ID `id`:
        whatever happens to its caller, a success leaves exactly one owner of the session or has
        already been ended. */
    method BeginOwned(t: Task, id: StreamId, fails: bool) returns (begun: Begun)
      requires Valid() && t !in beginning
      modifies this
      ensures Valid() && begun.HandlerError? == fails
      ensures !fails ==> begun.ref in sessions && sessions[begun.ref].id == id
      ensures begun.Accepted? ==>
                && sessions[begun.ref].owners == map[t := Holding(true)] && Reserved(View(), begun.ref)
                && !CallerGone(log, begun.ref)
      ensures begun.Gone? ==> HandedOver(begun.ref) && Reserved(View(), begun.ref) && CallerGone(log, begun.ref)
      ensures begun.Duplicate? ==>
                var x := sessions[begun.ref]; !x.accepted && x.endsReturned == 1 && x.owners == map[]
    {
      ghost var before := View();
      beginning := beginning[t := true];
      Note(before, BeginCall(t));
      Await(Beginner(t));
      if fails {
        before := View();
        beginning := beginning - {t};
        Note(before, BeginFails(t));
        return HandlerError;
      }
      var ref: Ref;
      ref, begun := Admission(t, id);
      if !begun.Duplicate? { CallerHolds(log, ref, t); }
      if begun.Duplicate? { Reject(ref, t); }
    }

    // ---- Results ----

    method LeaveResult(ref: Ref, t: Task, ghost a: Act)
      requires Valid() && ref in sessions && t in sessions[ref].results
      requires (a == ResultLate(t) && sessions[ref].closing && sessions[ref].results[t] == Waiting)
               || (a == ResultLeaves(t) && sessions[ref].results[t] != Locked)
      modifies this
      ensures Valid() && old(log) <= log && ref in sessions && t !in sessions[ref].results
      ensures sessions[ref].accepted == old(sessions)[ref].accepted
      ensures sessions[ref].closing == old(sessions)[ref].closing
    {
      var x := sessions[ref];
      Update(ref, x.(results := x.results - {t}), a);
    }

    /** The recheck under the read guard: the callback runs only in a session that is open and
        still holds the ID. */
    method Recheck(ref: Ref, t: Task) returns (ok: bool)
      requires Valid() && ref in sessions && t in sessions[ref].results && sessions[ref].results[t] == Locked
      modifies this
      ensures Valid() && ref in sessions && ok == (!sessions[ref].closing && Reserved(View(), ref))
      ensures ok ==> t in sessions[ref].results && sessions[ref].results[t] == Handling
                     && sessions[ref].accepted && sessions[ref].endsStarted == 0
      ensures !ok ==> t !in sessions[ref].results
      ensures log == old(log) + [OnSession(ref, ResultRechecks(t))] && (ok <==> Enters(log, |old(log)|, ref, t))
    {
      var x := sessions[ref];
      ok := !x.closing && x.id in pending && pending[x.id] == ref;
      Update(ref, if ok then x.(results := x.results[t := Handling]) else x.(results := x.results - {t}),
             ResultRechecks(t));
      if ok { HandlingFacts(log, ref, t); }
      assert log[..|old(log)|] == old(log);
    }

    /** `consume_result`. A result is called back exactly when its session is found on arrival, is
        not closing, gives the read guard and is still open and in the table then. */
    method ConsumeResult(id: StreamId, t: Task, drop: bool) returns (out: Delivery)
      requires Valid() && forall ref :: ref in sessions ==> t !in sessions[ref].results
      modifies this
      ensures Valid() && old(log) <= log && (out == NoSession <==> id !in old(pending))
      ensures out != NoSession ==> old(pending)[id] in sessions && Delivered(out, old(pending)[id], t, drop, |old(log)|)
    {
      if id !in pending { return NoSession; }
      var ref := pending[id];
      RunsKeepInv(log);
      assert Reserved(View(), ref);
      var x := sessions[ref];
      Update(ref, x.(results := x.results[t := Waiting]), ResultArrives(t));
      out := DeliverTo(ref, t, drop);
    }

    /** What the outcome of a delivery to session `ref` says. */
    ghost predicate Delivered(out: Delivery, ref: Ref, t: Task, drop: bool, from: nat)
      requires ref in sessions
      reads this
    {
      match out
      case NoSession => false
      case Late => sessions[ref].closing && t !in sessions[ref].results
      case Abandoned => drop && t !in sessions[ref].results
      case GuardHeld => WriteHeld(sessions[ref])
      case NoLonger => t !in sessions[ref].results && (sessions[ref].closing || !Reserved(View(), ref))
      case Called =>
        && sessions[ref].accepted && t !in sessions[ref].results
        && exists k: nat :: from <= k && Enters(log, k, ref, t)
    }

    /** The biased select: late when the session is closing, otherwise the read guard, unless the
        task is dropped first or a writer holds the lock. */
    method TakeReadGuard(ref: Ref, t: Task, drop: bool) returns (out: Option<Delivery>)
      requires Valid() && ref in sessions && t in sessions[ref].results && sessions[ref].results[t] == Waiting
      modifies this
      ensures Valid() && old(log) <= log && ref in sessions && sessions[ref].accepted == old(sessions)[ref].accepted
      ensures out == (if old(sessions)[ref].closing then Some(Late) else if drop then Some(Abandoned)
                      else if WriteHeld(old(sessions)[ref]) then Some(GuardHeld) else None)
      ensures out.None? ==> t in sessions[ref].results && sessions[ref].results[t] == Locked
      ensures out.Some? ==> Delivered(out.value, ref, t, drop, 0)
    {
      if sessions[ref].closing { LeaveResult(ref, t, ResultLate(t)); return Some(Late); }
      if drop { LeaveResult(ref, t, ResultLeaves(t)); return Some(Abandoned); }
      var x := sessions[ref];
      if WriteHeld(x) { return Some(GuardHeld); }
      Update(ref, x.(results := x.results[t := Locked]), ResultLocks(t));
      return None;
    }

    /** The handler's callback, under the guard. */
    method CallBack(ref: Ref, t: Task)
      requires Valid() && ref in sessions && t in sessions[ref].results && sessions[ref].results[t] == Handling
      modifies this
      ensures Valid() && old(log) <= log && ref in sessions && t !in sessions[ref].results
      ensures sessions[ref].accepted == old(sessions)[ref].accepted
    {
      Await(Delivering(ref, t));
      LeaveResult(ref, t, ResultLeaves(t));
    }

    /** The guarded part of `consume_result`. */
    method DeliverTo(ref: Ref, t: Task, drop: bool) returns (out: Delivery)
      requires Valid() && ref in sessions && t in sessions[ref].results && sessions[ref].results[t] == Waiting
      modifies this
      ensures Valid() && old(log) <= log && ref in sessions && Delivered(out, ref, t, drop, |old(log)|)
    {
      Await(Delivering(ref, t));
      var refused := TakeReadGuard(ref, t, drop);
      if refused.Some? { return refused.value; }
      Await(Delivering(ref, t));
      ghost var k := |log|;
      var ok := Recheck(ref, t);
      if !ok { return NoLonger; }
      ghost var entered := log;
      CallBack(ref, t);
      EntersLater(entered, log, k, ref, t);
      return Called;
    }
  }
}
