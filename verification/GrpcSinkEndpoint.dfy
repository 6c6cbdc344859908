/** `consume`, `spawn_finalizer` and `spawn_stream_tasks` of the gRPC sinks in the form of their
    code, with other tasks running at every await. Every activation is a run of the step system. */
module GrpcSinkEndpoint {
  import opened Runs
  import opened GrpcSink

  // Who is at an await, on which cell.
  datatype Who = TheConsumer(ref: Ref, t: Task) | TheInitializer(ref: Ref) | TheFinalizer(ref: Ref)

  function ActorOf(ref: Ref, a: Act): Who {
    match a
    case InitStarts(t) => TheConsumer(ref, t)
    case SeesCell(t) => TheConsumer(ref, t)
    case DropsReservation(t) => TheConsumer(ref, t)
    case Rejected(t) => TheConsumer(ref, t)
    case Locks(t) => TheConsumer(ref, t)
    case Rechecks(t) => TheConsumer(ref, t)
    case Leaves(t) => TheConsumer(ref, t)
    case BeginReturns(_) => TheInitializer(ref)
    case CallReturns(_) => TheInitializer(ref)
    case FailEndReturns => TheInitializer(ref)
    case InitDropped => TheInitializer(ref)
    case _ => TheFinalizer(ref)
  }

  predicate Foreign(who: Who, l: Label) {
    l.OnCell? ==> ActorOf(l.ref, l.act) != who
  }

  ghost predicate AllForeign(who: Who, ls: seq<Label>) {
    forall i :: 0 <= i < |ls| ==> Foreign(who, ls[i])
  }

  /** What the actor keeps on its own cell: its stage, its initialization or its finalization. */
  predicate CellKept(who: Who, x: Cell, x': Cell) {
    && x'.id == x.id && (x.finished ==> x'.finished)
    && (x.init == Ready ==> x'.init == Ready) && (x.init == NoSession ==> x'.init == NoSession)
    && match who {
      case TheConsumer(_, t) => t in x.consumers ==> At(x', t, x.consumers[t])
      case TheInitializer(_) =>
        x.init.Initializing? && x.init.t !in x.consumers ==> x'.init == x.init && x.init.t !in x'.consumers
      case TheFinalizer(_) =>
        x.init == Ready ==> x'.finalizer == x.finalizer && x'.endsReturned == x.endsReturned
    }
  }

  ghost predicate Kept(who: Who, s: State, s': State) {
    who.ref in s.cells ==> who.ref in s'.cells && CellKept(who, s.cells[who.ref], s'.cells[who.ref])
  }

  lemma ActKeepsActor(kind: Kind, who: Who, x: Cell, a: Act)
    requires ActEnabled(kind, x, a) && ActorOf(who.ref, a) != who
    ensures CellKept(who, x, Act1(kind, x, a))
  {
  }

  lemma ForeignStepKeeps(kind: Kind, who: Who, s: State, l: Label)
    requires Enabled(kind, s, l) && Foreign(who, l)
    ensures Kept(who, s, Apply(kind, s, l))
  {
    if l.OnCell? && l.ref == who.ref { ActKeepsActor(kind, who, s.cells[l.ref], l.act); }
  }

  lemma {:induction false} ForeignRunKeeps(kind: Kind, who: Who, s: State, ls: seq<Label>)
    requires AllForeign(who, ls) && Run(Stepper(kind), s, ls).Some?
    ensures Kept(who, s, Run(Stepper(kind), s, ls).value)
  {
    if |ls| > 0 {
      var pre := ls[..|ls| - 1];
      ForeignRunKeeps(kind, who, s, pre);
      ForeignStepKeeps(kind, who, Run(Stepper(kind), s, pre).value, ls[|ls| - 1]);
    }
  }

  lemma {:induction false} ForeignKeepsFinals(ref: Ref, ls: seq<Label>, more: seq<Label>)
    requires AllForeign(TheFinalizer(ref), more)
    ensures FinalActs(ref, ls + more) == FinalActs(ref, ls)
  {
    if |more| == 0 {
      assert ls + more == ls;
    } else {
      var pre := more[..|more| - 1];
      ForeignKeepsFinals(ref, ls, pre);
      assert ls + more == (ls + pre) + [more[|more| - 1]];
      ActsSnoc(IsFinalAct, ref, ls + pre, more[|more| - 1]);
    }
  }

  /** The responses of a stream, each with what its handler returned. */
  function Replied(replies: seq<bool>): seq<Act> {
    if |replies| == 0 then []
    else Replied(replies[..|replies| - 1]) + [PeerResponds] + [ResponseHandled(replies[|replies| - 1])]
  }

  lemma RepliedSnoc(replies: seq<bool>, n: nat)
    requires n < |replies|
    ensures Replied(replies[..n + 1]) == Replied(replies[..n]) + [PeerResponds] + [ResponseHandled(replies[n])]
  {
    assert replies[..n + 1][..n] == replies[..n];
  }

  // How a consumer left: it delivered its message, was turned away from a closing session, found
  // no session, or has not finished.
  datatype Outcome = Consumed | RejectedClosing | NoPending | Unfinished

  /** The task neither consumes through the cell nor initializes it. */
  predicate Unknown(x: Cell, t: Task) {
    t !in x.consumers && !(x.init.Initializing? && x.init.t == t)
  }

  /** Label `k` of the run is the recheck of `t` on cell `ref`, and admits its message. */
  ghost predicate Admits(kind: Kind, ls: seq<Label>, k: nat, ref: Ref, t: Task) {
    && k < |ls| && ls[k] == OnCell(ref, Rechecks(t)) && Feasible(kind, ls[..k + 1])
    && ref in After(kind, ls[..k + 1]).cells && At(After(kind, ls[..k + 1]).cells[ref], t, Consuming)
  }

  lemma AdmitsLater(kind: Kind, ls: seq<Label>, more: seq<Label>, k: nat, ref: Ref, t: Task)
    requires ls <= more && Admits(kind, ls, k, ref, t)
    ensures Admits(kind, more, k, ref, t)
  {
    assert more[..k + 1] == ls[..k + 1];
  }

  class Sink {
    const kind: Kind
    var pending: map<StreamId, Ref>
    var cells: map<Ref, Cell>
    ghost var log: seq<Label>

    ghost function View(): State
      reads this
    {
      State(pending, cells)
    }

    ghost predicate Valid()
      reads this
    {
      Run(Stepper(kind), Initial, log) == Some(View())
    }

    ghost predicate IsAt(ref: Ref, t: Task, stage: Stage)
      reads this
    {
      Valid() && ref in cells && At(cells[ref], t, stage)
    }

    ghost predicate InitAt(ref: Ref, t: Task, stage: InitStage)
      reads this
    {
      Valid() && ref in cells && cells[ref].init == Initializing(t, stage) && t !in cells[ref].consumers
    }

    ghost predicate FinalizerAt(ref: Ref, f: Finalizer)
      reads this
    {
      Valid() && ref in cells && cells[ref].finalizer == f && cells[ref].init == Ready
    }

    constructor (kind: Kind)
      ensures Valid() && View() == Initial && this.kind == kind
    {
      this.kind := kind;
      pending, cells, log := map[], map[], [];
    }

    ghost method Note(before: State, l: Label)
      requires Run(Stepper(kind), Initial, log) == Some(before)
      requires Enabled(kind, before, l) && Apply(kind, before, l) == View()
      modifies this`log
      ensures Valid() && log == old(log) + [l]
    {
      Extend(Stepper(kind), Initial, log, l);
      log := log + [l];
    }

    /** Other tasks take any steps. */
    method Yield(ghost who: Who)
      requires Valid()
      modifies this
      ensures Valid() && old(log) <= log && AllForeign(who, log[|old(log)|..])
    {
    }

    /** An await of `who`. */
    method Await(ghost who: Who)
      requires Valid()
      modifies this
      ensures Valid() && old(log) <= log && AllForeign(who, log[|old(log)|..])
      ensures Kept(who, old(View()), View())
      ensures who.TheFinalizer? ==> FinalActs(who.ref, log) == FinalActs(who.ref, old(log))
    {
      ghost var s, before := View(), log;
      Yield(who);
      assert log == before + log[|before|..];
      Append(Stepper(kind), Initial, before, log[|before|..]);
      ForeignRunKeeps(kind, who, s, log[|before|..]);
      if who.TheFinalizer? { ForeignKeepsFinals(who.ref, before, log[|before|..]); }
    }

    /** Cell `ref` becomes `x`, by its act `a`. */
    method Update(ref: Ref, x: Cell, ghost a: Act)
      requires Valid() && ref in cells && !Pops(a)
      requires ActEnabled(kind, cells[ref], a) && x == Act1(kind, cells[ref], a)
      modifies this`cells, this`log
      ensures Valid() && log == old(log) + [OnCell(ref, a)] && cells == old(cells)[ref := x]
      ensures IsFinalAct(a) ==> FinalActs(ref, log) == FinalActs(ref, old(log)) + [a]
    {
      ActsSnoc(IsFinalAct, ref, log, OnCell(ref, a));
      ghost var before := View();
      cells := cells[ref := x];
      Note(before, OnCell(ref, a));
    }

    /** As `Update`, followed by `pop_if` on the cell itself: a newer cell under the ID stays. */
    method UpdateAndPop(ref: Ref, x: Cell, ghost a: Act)
      requires Valid() && ref in cells && Pops(a)
      requires ActEnabled(kind, cells[ref], a) && x == Act1(kind, cells[ref], a)
      modifies this
      ensures Valid() && log == old(log) + [OnCell(ref, a)] && cells == old(cells)[ref := x] && !Reserved(View(), ref)
      ensures IsFinalAct(a) ==> FinalActs(ref, log) == FinalActs(ref, old(log)) + [a]
      ensures forall id :: id in old(pending) && old(pending)[id] != ref ==>
                id in pending && pending[id] == old(pending)[id]
    {
      ActsSnoc(IsFinalAct, ref, log, OnCell(ref, a));
      ghost var before := View();
      RunsKeepInv(kind, log);
      cells := cells[ref := x];
      if x.id in pending && pending[x.id] == ref { pending := pending - {x.id}; }
      Note(before, OnCell(ref, a));
    }

    // ---- The consumer ----

    /** `get_or_create` of the cell. */
    method Reserve(t: Task, id: StreamId) returns (ref: Ref)
      requires Valid()
      requires forall r :: r in cells ==> Unknown(cells[r], t)
      modifies this
      ensures IsAt(ref, t, AtCell) && old(log) <= log && cells[ref].id == id && Reserved(View(), ref)
      ensures id in old(pending) ==> ref == old(pending)[id]
    {
      ghost var before := View();
      RunsKeepInv(kind, log);
      var created := Unused(cells);
      if id in pending {
        ref := pending[id];
        cells := cells[ref := cells[ref].(consumers := cells[ref].consumers[t := AtCell])];
      } else {
        ref := created;
        pending := pending[id := ref];
        cells := cells[ref := Cell(id, Uninit, map[t := AtCell], false, NotSpawned, 0, 0, 0)];
      }
      Note(before, Arrives(t, id, created));
    }

    /** The call failed: `end_request` tells so, and the cell is set to no session. */
    method FailInit(ref: Ref, t: Task)
      requires InitAt(ref, t, Call)
      modifies this
      ensures IsAt(ref, t, GotNone) && old(log) <= log && cells[ref].init == NoSession
    {
      var x := cells[ref];
      Update(ref, x.(init := Initializing(t, FailEnd)), CallReturns(false));
      Await(TheInitializer(ref));
      x := cells[ref];
      var consumers := x.consumers[t := GotNone];
      Update(ref, x.(init := NoSession, endsReturned := x.endsReturned + 1, consumers := consumers), FailEndReturns);
    }

    /** begin_request has succeeded: create the call, then publish the session and its finalizer. */
    method CreateCall(ref: Ref, t: Task, callOk: bool)
      requires InitAt(ref, t, Call)
      modifies this
      ensures old(log) <= log && IsAt(ref, t, if callOk then WaitLock else GotNone)
    {
      Await(TheInitializer(ref));
      if callOk {
        var x := cells[ref];
        var consumers := x.consumers[t := WaitLock];
        Update(ref, x.(init := Ready, finalizer := Waiting, consumers := consumers), CallReturns(true));
      } else {
        FailInit(ref, t);
      }
    }

    /** The initializer of `get_or_init`, not dropped, with what begin_request and the creation of
        the call return. */
    method Initialize(ref: Ref, t: Task, beginOk: bool, callOk: bool)
      requires IsAt(ref, t, AtCell) && cells[ref].init == Uninit
      modifies this
      ensures old(log) <= log && IsAt(ref, t, if beginOk && callOk then WaitLock else GotNone)
    {
      var x := cells[ref];
      Update(ref, x.(init := Initializing(t, Begin), consumers := x.consumers - {t}), InitStarts(t));
      Await(TheInitializer(ref));
      x := cells[ref];
      if beginOk {
        Update(ref, x.(init := Initializing(t, Call), begins := x.begins + 1), BeginReturns(true));
        CreateCall(ref, t, callOk);
      } else {
        Update(ref, x.(init := NoSession, consumers := x.consumers[t := GotNone]), BeginReturns(false));
      }
    }

    /** The outcome of `get_or_init`; false exactly while another task initializes the cell. */
    method AwaitCell(ref: Ref, t: Task, beginOk: bool, callOk: bool) returns (ready: bool)
      requires IsAt(ref, t, AtCell)
      modifies this
      ensures Valid() && old(log) <= log && ref in cells
      ensures if ready then IsAt(ref, t, GotNone) || IsAt(ref, t, WaitLock) else cells[ref].init.Initializing?
    {
      Await(TheConsumer(ref, t));
      var x := cells[ref];
      if x.init == Uninit { Initialize(ref, t, beginOk, callOk); return true; }
      if x.init.Initializing? { return false; }
      Update(ref, x.(consumers := x.consumers[t := if x.init == Ready then WaitLock else GotNone]), SeesCell(t));
      return true;
    }

    /** The biased select: a closing session rejects, otherwise the read guard is taken. */
    method TakeReadGuard(ref: Ref, t: Task) returns (taken: bool)
      requires IsAt(ref, t, WaitLock)
      modifies this
      ensures Valid() && old(log) <= log && ref in cells && taken == !old(cells)[ref].finished == !cells[ref].finished
      ensures if taken then IsAt(ref, t, Locked) else t !in cells[ref].consumers
    {
      var x := cells[ref];
      taken := !x.finished;
      if taken {
        Update(ref, x.(consumers := x.consumers[t := Locked]), Locks(t));
      } else {
        Update(ref, x.(consumers := x.consumers - {t}), Rejected(t));
      }
    }

    /** The recheck under the guard. */
    method Recheck(ref: Ref, t: Task) returns (ok: bool)
      requires IsAt(ref, t, Locked)
      modifies this
      ensures Valid() && old(log) <= log && ref in cells && ok == !cells[ref].finished
      ensures if ok then IsAt(ref, t, Consuming) else t !in cells[ref].consumers
      ensures ok ==> Admits(kind, log, |old(log)|, ref, t)
    {
      var x := cells[ref];
      ok := !x.finished;
      Update(ref, x.(consumers := if ok then x.consumers[t := Consuming] else x.consumers - {t}), Rechecks(t));
      assert log[..|old(log)| + 1] == log;
    }

    /** A message is admitted only while the session is open. */
    method Admit(ref: Ref, t: Task) returns (ok: bool, ghost k: nat)
      requires IsAt(ref, t, WaitLock)
      modifies this
      ensures Valid() && old(log) <= log && ref in cells
      ensures if ok then IsAt(ref, t, Consuming) else t !in cells[ref].consumers
      ensures ok == !cells[ref].finished
      ensures old(cells)[ref].finished ==> !ok
      ensures |old(log)| <= k && (ok ==> Admits(kind, log, k, ref, t))
    {
      Await(TheConsumer(ref, t));
      k := |log|;
      ok := TakeReadGuard(ref, t);
      if !ok { return; }
      Await(TheConsumer(ref, t));
      k := |log|;
      ok := Recheck(ref, t);
    }

    /** The handler's consume_message, under the guard. */
    method ConsumeMessage(ref: Ref, t: Task)
      requires IsAt(ref, t, Consuming)
      modifies this
      ensures Valid() && old(log) <= log && ref in cells && t !in cells[ref].consumers
    {
      Await(TheConsumer(ref, t));
      var x := cells[ref];
      Update(ref, x.(consumers := x.consumers - {t}), Leaves(t));
    }

    method DropReservation(ref: Ref, t: Task)
      requires IsAt(ref, t, GotNone)
      modifies this
      ensures Valid() && old(log) <= log && ref in cells && !Reserved(View(), ref)
      ensures cells[ref].init == NoSession
    {
      RunsKeepInv(kind, log);
      assert CellInv(kind, cells[ref]);
      var x := cells[ref];
      UpdateAndPop(ref, x.(consumers := x.consumers - {t}), DropsReservation(t));
    }

    /** `consume`: the message goes through the cell that stood for its ID on arrival, or that it
        created; without a session the cell no longer holds the ID. */
    method Consume(t: Task, id: StreamId, beginOk: bool, callOk: bool) returns (ref: Ref, out: Outcome)
      requires Valid()
      requires forall r :: r in cells ==> Unknown(cells[r], t)
      modifies this
      ensures Valid() && ref in cells && (id in old(pending) ==> ref == old(pending)[id])
      ensures out == Unfinished ==> cells[ref].init.Initializing?
      ensures out == NoPending ==> !Reserved(View(), ref) && cells[ref].init == NoSession
      ensures out == Consumed || out == RejectedClosing ==> t !in cells[ref].consumers
      ensures out == RejectedClosing ==> cells[ref].finished
      ensures out == Consumed ==> exists k: nat :: |old(log)| <= k && Admits(kind, log, k, ref, t)
    {
      ref := Reserve(t, id);
      var ready := AwaitCell(ref, t, beginOk, callOk);
      if !ready { return ref, Unfinished; }
      if cells[ref].consumers[t] == GotNone {
        DropReservation(ref, t);
        return ref, NoPending;
      }
      out := Deliver(ref, t);
    }

    /** The part of `consume` that has a session. */
    method Deliver(ref: Ref, t: Task) returns (out: Outcome)
      requires IsAt(ref, t, WaitLock)
      modifies this
      ensures Valid() && old(log) <= log && ref in cells && t !in cells[ref].consumers
      ensures out == Consumed || (out == RejectedClosing && cells[ref].finished)
      ensures out == Consumed ==> exists k: nat :: |old(log)| <= k && Admits(kind, log, k, ref, t)
    {
      var ok: bool;
      ghost var k: nat;
      ok, k := Admit(ref, t);
      if !ok { return RejectedClosing; }
      ghost var admitted := log;
      ConsumeMessage(ref, t);
      AdmitsLater(kind, admitted, log, k, ref, t);
      return Consumed;
    }

    // ---- The finalizer ----

    /** The acts of the cell's finalizer in the log. */
    ghost function Finals(ref: Ref): seq<Act>
      reads this
    {
      FinalActs(ref, log)
    }

    /** Closing admission. */
    method CloseAdmission(ref: Ref, cancelled: bool)
      requires FinalizerAt(ref, Waiting)
      modifies this
      ensures FinalizerAt(ref, if kind == Client && !cancelled then Receiving else Draining(false))
      ensures cells[ref].finished && Finals(ref) == old(Finals(ref)) + [Closes(cancelled)]
    {
      var x := cells[ref];
      var next := if kind == Client && !cancelled then Receiving else Draining(false);
      Update(ref, x.(finished := true, finalizer := next), Closes(cancelled));
    }

    /** The write guard, which waits for admitted messages; false exactly while one is running. */
    method DrainMessages(ref: Ref) returns (drained: bool)
      requires Valid() && ref in cells && cells[ref].finalizer.Draining? && cells[ref].init == Ready
      modifies this
      ensures Valid() && ref in cells
      ensures if drained then FinalizerAt(ref, if old(cells)[ref].finalizer.response then Responding else Ending)
              else FinalizerAt(ref, old(cells)[ref].finalizer) && ReadHeld(cells[ref])
      ensures drained ==> forall t :: !At(cells[ref], t, Consuming)
      ensures Finals(ref) == old(Finals(ref)) + if drained then [Drains] else []
    {
      Await(TheFinalizer(ref));
      var x := cells[ref];
      if ReadHeld(x) { return false; }
      if x.finalizer.response {
        Update(ref, x.(finalizer := Responding), Drains);
      } else {
        Update(ref, x.(finalizer := Ending), Drains);
      }
      return true;
    }

    /** `end_request`, then the ID is freed. */
    method EndRequest(ref: Ref)
      requires FinalizerAt(ref, Ending)
      modifies this
      ensures FinalizerAt(ref, Gone) && !Reserved(View(), ref)
      ensures cells[ref].begins == cells[ref].endsReturned + cells[ref].leaked
      ensures Finals(ref) == old(Finals(ref)) + [EndReturns]
    {
      Await(TheFinalizer(ref));
      var x := cells[ref];
      UpdateAndPop(ref, x.(finalizer := Gone, endsReturned := x.endsReturned + 1), EndReturns);
      OpenRequestsAreCounted(kind, log, ref);
    }

    /** `close_and_recv` returns a response or fails. */
    method ReceiveResponse(ref: Ref, received: bool)
      requires FinalizerAt(ref, Receiving) && kind == Client
      modifies this
      ensures FinalizerAt(ref, Draining(received)) && Finals(ref) == old(Finals(ref)) + [Received(received)]
    {
      Await(TheFinalizer(ref));
      Update(ref, cells[ref].(finalizer := Draining(received)), Received(received));
    }

    method HandleClientResponse(ref: Ref, handled: bool)
      requires FinalizerAt(ref, Responding) && kind == Client
      modifies this
      ensures FinalizerAt(ref, Ending) && Finals(ref) == old(Finals(ref)) + [ResponseHandled(handled)]
    {
      Await(TheFinalizer(ref));
      Update(ref, cells[ref].(finalizer := Ending), ResponseHandled(handled));
    }

    /** The end of both finalizers: drain, handle a response that was received, end the request. */
    method DrainAndEnd(ref: Ref, handled: bool) returns (done: bool)
      requires Valid() && ref in cells && cells[ref].finalizer.Draining? && cells[ref].init == Ready
      requires cells[ref].finalizer.response ==> kind == Client
      modifies this
      ensures Valid() && ref in cells
      ensures if done then FinalizerAt(ref, Gone) && !Reserved(View(), ref)
              else cells[ref].finalizer.Draining? && ReadHeld(cells[ref])
      ensures var handling := if old(cells)[ref].finalizer.response then [ResponseHandled(handled)] else [];
              Finals(ref) == old(Finals(ref)) + if done then [Drains] + handling + [EndReturns] else []
    {
      done := DrainMessages(ref);
      if !done { return; }
      if cells[ref].finalizer == Responding { HandleClientResponse(ref, handled); }
      EndRequest(ref);
    }

    /** The client-streaming finalizer, with the way it is woken, what `close_and_recv` returns and
        what the handler of the response does. A received response is handled once, after the
        drain and before `end_request`; it is not done only while an admitted message runs. */
    method FinalizeClient(ref: Ref, cancelled: bool, received: bool, handled: bool) returns (done: bool)
      requires FinalizerAt(ref, Waiting) && kind == Client
      modifies this
      ensures Valid() && ref in cells
      ensures if done then FinalizerAt(ref, Gone) && !Reserved(View(), ref)
              else cells[ref].finalizer.Draining? && ReadHeld(cells[ref])
      ensures done ==>
                Finals(ref) == (if cancelled then [Closes(true), Drains, EndReturns]
                                else if !received then [Closes(false), Received(false), Drains, EndReturns]
                                else [Closes(false), Received(true), Drains, ResponseHandled(handled), EndReturns])
    {
      CellTakesItsCourse(kind, log, ref);
      CloseAdmission(ref, cancelled);
      if !cancelled { ReceiveResponse(ref, received); }
      done := DrainAndEnd(ref, handled);
    }

    /** One response of the receive loop, with what its handler returns. */
    method ReceiveOne(ref: Ref, handled: bool)
      requires FinalizerAt(ref, Waiting) && kind == Bidi
      modifies this
      ensures FinalizerAt(ref, if handled then Waiting else Draining(false)) && (!handled ==> cells[ref].finished)
      ensures Finals(ref) == old(Finals(ref)) + [PeerResponds] + [ResponseHandled(handled)]
    {
      Await(TheFinalizer(ref));
      Update(ref, cells[ref].(finalizer := Responding), PeerResponds);
      Await(TheFinalizer(ref));
      var x := cells[ref];
      Update(ref, if handled then x.(finalizer := Waiting) else x.(finished := true, finalizer := Draining(false)),
             ResponseHandled(handled));
    }

    /** The receive loop over the responses of a stream, up to the first one handled badly. */
    method ReceiveAll(ref: Ref, replies: seq<bool>) returns (n: nat)
      requires FinalizerAt(ref, Waiting) && kind == Bidi
      modifies this
      ensures n <= |replies| && forall i :: 0 <= i < n - 1 ==> replies[i]
      ensures if 0 < n && !replies[n - 1] then FinalizerAt(ref, Draining(false))
              else n == |replies| && FinalizerAt(ref, Waiting)
      ensures Finals(ref) == old(Finals(ref)) + Replied(replies[..n])
    {
      n := 0;
      while n < |replies|
        invariant n <= |replies| && FinalizerAt(ref, Waiting) && forall i :: 0 <= i < n ==> replies[i]
        invariant Finals(ref) == old(Finals(ref)) + Replied(replies[..n])
      {
        ReceiveOne(ref, replies[n]);
        RepliedSnoc(replies, n);
        n := n + 1;
        if !replies[n - 1] { return; }
      }
    }

    /** The bidirectional receive task over a stream that ends after the given responses. Each one
        is handled, up to the first one handled badly; then admission closes, the messages drain
        and the request ends. */
    method FinalizeBidi(ref: Ref, replies: seq<bool>) returns (n: nat, done: bool)
      requires FinalizerAt(ref, Waiting) && kind == Bidi
      modifies this
      ensures Valid() && ref in cells && n <= |replies| && forall i :: 0 <= i < n - 1 ==> replies[i]
      ensures n < |replies| ==> 0 < n && !replies[n - 1]
      ensures if done then FinalizerAt(ref, Gone) && !Reserved(View(), ref)
              else cells[ref].finalizer.Draining? && ReadHeld(cells[ref])
      ensures Finals(ref) == old(Finals(ref)) + Replied(replies[..n])
                             + (if 0 < n && !replies[n - 1] then [] else [Closes(false)])
                             + (if done then [Drains, EndReturns] else [])
    {
      n := ReceiveAll(ref, replies);
      if cells[ref].finalizer == Waiting {
        Await(TheFinalizer(ref));
        CloseAdmission(ref, false);
      }
      done := DrainAndEnd(ref, true);
    }
  }
}
