/** `UnarySender` in the form of its code. Between the steps of `Send` and `Receive` other tasks
    run (`Await`); every activation is a run of the slot's step system. */
module UnarySlot {
  import opened Runs
  import opened UnarySender

  // Who is at an await: the receive future, or the sender of a value.
  datatype Who = TheReceiver | TheSender(t: Task)

  /** Labels that belong to somebody else. */
  predicate Foreign(who: Who, l: Label) {
    match who
    case TheReceiver => l.Stores? || l.Refused? || l.Notifies? || l.ContextCancelled?
    case TheSender(t) => l != Notifies(t)
  }

  ghost predicate AllForeign(who: Who, ls: seq<Label>) {
    forall i :: 0 <= i < |ls| ==> Foreign(who, ls[i])
  }

  /** What the waiting task can rely on. */
  predicate Kept(who: Who, s: State, s': State) {
    && (s.cancelled ==> s'.cancelled) && s.accepted <= s'.accepted && s.received <= s'.received
    && match who {
      case TheReceiver =>
        && s'.receiver == s.receiver && s'.received == s.received
        && (s.waiter == Notified ==> s'.waiter == Notified) && (s.slot.Some? ==> s'.slot == s.slot)
      case TheSender(t) => t in s.owing ==> t in s'.owing
    }
  }

  lemma ForeignStepKeeps(who: Who, s: State, l: Label)
    requires Enabled(s, l) && Foreign(who, l)
    ensures Kept(who, s, Apply(s, l))
  {
  }

  lemma {:induction false} ForeignRunKeeps(who: Who, s: State, ls: seq<Label>)
    requires AllForeign(who, ls) && Run(Step, s, ls).Some?
    ensures Kept(who, s, Run(Step, s, ls).value)
  {
    if |ls| > 0 {
      var pre := ls[..|ls| - 1];
      ForeignRunKeeps(who, s, pre);
      ForeignStepKeeps(who, Run(Step, s, pre).value, ls[|ls| - 1]);
    }
  }

  // `Woken` ends a sleep; `Pending`: the call has not returned; `Gone`: it was dropped.
  datatype Outcome = Got(value: Value) | ContextError | Woken | Pending | Gone

  class Slot {
    var slot: Option<Value>
    var permit: bool
    var waiter: Waiter
    var cancelled: bool
    ghost var past: State  // carries the recorded values and the programs' positions
    ghost var log: seq<Label>

    ghost function View(): State
      reads this
    {
      past.(slot := slot, permit := permit, waiter := waiter, cancelled := cancelled)
    }

    ghost predicate Valid()
      reads this
    {
      Run(Step, Initial, log) == Some(View())
    }

    constructor ()
      ensures Valid() && View() == Initial
    {
      slot, permit, waiter, cancelled := None, false, Absent, false;
      past, log := Initial, [];
    }

    ghost method Note(before: State, l: Label)
      requires Run(Step, Initial, log) == Some(before) && Enabled(before, l)
      requires var after := Apply(before, l);
               slot == after.slot && permit == after.permit && waiter == after.waiter && cancelled == after.cancelled
      modifies this`log, this`past
      ensures Valid() && View() == Apply(before, l) && log == old(log) + [l]
    {
      Extend(Step, Initial, log, l);
      log, past := log + [l], Apply(before, l);
    }

    /** Other tasks take any steps. */
    method Yield(ghost who: Who)
      requires Valid()
      modifies this
      ensures Valid() && old(log) <= log && AllForeign(who, log[|old(log)|..])
    {
    }

    /** An await of `who`. */
    method Await(ghost who: Who)
      requires Valid()
      modifies this
      ensures Valid() && old(log) <= log && AllForeign(who, log[|old(log)|..])
      ensures Kept(who, old(View()), View())
    {
      ghost var s, before := View(), log;
      Yield(who);
      assert log == before + log[|before|..];
      Append(Step, Initial, before, log[|before|..]);
      ForeignRunKeeps(who, s, log[|before|..]);
    }

    method NotifyOne()
      modifies this`permit, this`waiter
      ensures waiter == (if old(waiter) == Registered then Notified else old(waiter))
      ensures permit == (old(permit) || old(waiter) != Registered)
    {
      if waiter == Registered { waiter := Notified; } else { permit := true; }
    }

    method Take() returns (v: Option<Value>)
      modifies this`slot
      ensures v == old(slot) && slot == None
    {
      v, slot := slot, None;
    }

    /** The notified future is created and enabled. */
    method RegisterWaiter()
      modifies this`permit, this`waiter
      ensures waiter == (if old(permit) then Notified else Registered) && !permit
    {
      waiter, permit := if permit then Notified else Registered, false;
    }

    /** Drop of the future; whether an unused notification is passed on is left open. */
    method DropFuture(passOn: bool)
      modifies this`permit, this`waiter
      ensures waiter == Absent && permit == (old(permit) || (old(waiter) == Notified && passOn))
    {
      var unused := waiter == Notified && passOn;
      waiter := Absent;
      if unused { NotifyOne(); }
    }

    /** A value is accepted exactly when the slot is empty, and then the waiter is notified. */
    method Send(t: Task, value: Value) returns (ok: bool)
      requires Valid() && t !in past.owing
      modifies this
      ensures Valid() && ok == (old(slot) == None)
      ensures if ok then old(past.accepted) + [value] <= past.accepted && t !in past.owing
              else View() == old(View())
    {
      ghost var before := View();
      if slot.Some? {
        Note(before, Refused(value));
        return false;
      }
      slot := Some(value);
      Note(before, Stores(t, value));
      Await(TheSender(t));
      before := View();
      NotifyOne();
      Note(before, Notifies(t));
      return true;
    }

    /** Takes the value and returns, at the check or when cancellation is seen. */
    method TakeAndLeave(l: Label) returns (v: Option<Value>)
      requires Valid() && Enabled(View(), l) && slot.Some?
      requires l.Checks? || l.SeesCancellation?
      modifies this
      ensures Valid() && v == old(slot) && past.received == old(past.received) + [v.value]
      ensures past.receiver == Returned(v)
    {
      RunsKeepInv(log);
      ghost var before := View();
      v := Take();
      DropFuture(l.passOn);
      Note(before, l);
    }

    ghost predicate Delivered(out: Outcome, received: seq<Value>)
      reads this
    {
      match out
      case Got(v) => past.receiver == Returned(Some(v)) && past.received == received + [v]
      case ContextError => past.receiver == Returned(None) && cancelled && slot == None && past.received == received
      case Woken => past.receiver == Checking && past.received == received
      case Pending => past.receiver in {Asleep, Checking} && past.received == received
      case Gone => past.receiver == Idle && past.received == received
    }

    /** The select: woken, cancelled, dropped, or still asleep when neither has happened. */
    method Sleep(drop: bool) returns (out: Outcome)
      requires Valid() && past.receiver == Asleep
      modifies this
      ensures Valid() && Delivered(out, old(past.received)) && (out == Gone ==> drop)
      ensures out == Pending ==> past.receiver == Asleep && !cancelled && waiter != Notified
    {
      Await(TheReceiver);
      RunsKeepInv(log);
      ghost var before := View();
      var passOn: bool := *;
      var gone := Perhaps(drop);
      if gone {
        DropFuture(passOn);
        Note(before, ReceiveDropped(passOn));
        return Gone;
      }
      var first := Perhaps(waiter == Notified);
      if cancelled && !first {
        out := SeeCancellation(passOn);
        return;
      }
      if waiter != Notified { return Pending; }
      waiter := Absent;
      RegisterWaiter();
      Note(before, Wakes);
      return Woken;
    }

    /** Cancellation is seen: a value that is there is returned. */
    method SeeCancellation(passOn: bool) returns (out: Outcome)
      requires Valid() && past.receiver == Asleep && cancelled
      modifies this
      ensures Valid() && Delivered(out, old(past.received))
      ensures out == if old(slot).Some? then Got(old(slot).value) else ContextError
    {
      if slot.Some? {
        var v := TakeAndLeave(SeesCancellation(passOn));
        return Got(v.value);
      }
      RunsKeepInv(log);
      ghost var before := View();
      DropFuture(passOn);
      Note(before, SeesCancellation(passOn));
      return ContextError;
    }

    /** One turn of the loop: the slot is checked after the waiter was registered. */
    method Round(drop: bool) returns (out: Outcome)
      requires Valid() && past.receiver == Checking
      modifies this
      ensures Valid() && Delivered(out, old(past.received)) && (out == Gone ==> drop)
      ensures out == Pending ==> past.receiver == Asleep && !cancelled && waiter != Notified
    {
      Await(TheReceiver);
      if slot.Some? {
        var passOn: bool := *;
        var v := TakeAndLeave(Checks(passOn));
        return Got(v.value);
      }
      Note(View(), Checks(false));
      out := Sleep(drop);
    }

    /** `receive`, followed through at most `rounds` turns. It hands over the value of the slot,
        fails only with the context cancelled and every accepted value received, and after fewer
        turns it still waits only where it is neither woken nor cancelled; then a value in the
        slot has its notification owed. */
    method Receive(rounds: nat, drop: bool) returns (out: Outcome, n: nat)
      requires Valid() && past.receiver == Idle
      modifies this
      ensures Valid() && out != Woken && Delivered(out, old(past.received)) && (out == Gone ==> drop) && n <= rounds
      ensures out == ContextError ==> past.received == past.accepted
      ensures out == Pending && n < rounds ==> past.receiver == Asleep && !cancelled && waiter == Registered
      ensures out == Pending && n < rounds && slot.Some? ==> past.owing != {}
    {
      RunsKeepInv(log);
      ghost var before := View();
      RegisterWaiter();
      Note(before, Registers);
      n := 0;
      while n < rounds
        invariant Valid() && past.receiver == Checking && past.received == old(past.received) && n <= rounds
      {
        out := Round(drop);
        if out != Woken {
          RunsKeepInv(log);
          return;
        }
        n := n + 1;
      }
      out := Pending;
    }
  }
}
