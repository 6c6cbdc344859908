/** The unary response slot: senders store a value and notify, one receiver registers its
    waiter before it looks at the slot. Any number of senders; each is between storing its
    value and notifying for a while, and the receive future may be dropped at its await. */
module UnarySender {
  import opened Runs

  type Value = nat
  type Task = nat

  // The receiver: not in `receive`, registered but not yet checked, asleep in the select, or
  // returned. `Notified` futures are registered, already notified, or absent.
  datatype Waiter = Absent | Registered | Notified
  datatype Receiver = Idle | Checking | Asleep | Returned(value: Option<Value>)

  // `permit` is the stored notification of `Notify`; `owing` are the senders that stored a
  // value and have not notified yet. `accepted` and `received` record the values that moved.
  datatype State = State(
    slot: Option<Value>, permit: bool, waiter: Waiter, receiver: Receiver, cancelled: bool,
    owing: set<Task>, accepted: seq<Value>, received: seq<Value>)

  const Initial := State(None, false, Absent, Idle, false, {}, [], [])

  datatype Label =
    | Stores(t: Task, value: Value)
    | Refused(value: Value)
    | Notifies(t: Task)
    | Registers
    | Checks(passOn: bool)
    | Wakes
    | ContextCancelled
    | SeesCancellation(passOn: bool)
    | ReceiveDropped(passOn: bool)

  // ---- Steps ----

  predicate Enabled(s: State, l: Label) {
    match l
    case Stores(t, _) => s.slot == None && t !in s.owing
    case Refused(_) => s.slot.Some?
    case Notifies(t) => t in s.owing
    case Registers => s.receiver == Idle
    case Checks(_) => s.receiver == Checking
    case Wakes => s.receiver == Asleep && s.waiter == Notified
    case ContextCancelled => true
    case SeesCancellation(_) => s.receiver == Asleep && s.cancelled
    case ReceiveDropped(_) => s.receiver == Asleep
  }

  /** `notify_one`: wakes the registered waiter, or leaves a permit. */
  function NotifyOne(s: State): State {
    if s.waiter == Registered then s.(waiter := Notified) else s.(permit := true)
  }

  /** A new waiter that is enabled takes a stored permit at once. */
  function Register(s: State): State {
    s.(receiver := Checking, waiter := if s.permit then Notified else Registered, permit := false)
  }

  /** Drop of the `Notified` future. A notification it received while waiting is passed on, a
      permit it took when it was enabled is lost; either may happen. */
  function DropWaiter(s: State, passOn: bool): State {
    if s.waiter == Notified && passOn then NotifyOne(s.(waiter := Absent)) else s.(waiter := Absent)
  }

  function TakeAndReturn(s: State, passOn: bool): State
    requires s.slot.Some?
  {
    DropWaiter(s.(slot := None, received := s.received + [s.slot.value], receiver := Returned(s.slot)), passOn)
  }

  function Apply(s: State, l: Label): State
    requires Enabled(s, l)
  {
    match l
    case Stores(t, value) => s.(slot := Some(value), owing := s.owing + {t}, accepted := s.accepted + [value])
    case Refused(_) => s
    case Notifies(t) => NotifyOne(s).(owing := s.owing - {t})
    case Registers => Register(s)
    case Checks(passOn) => if s.slot.Some? then TakeAndReturn(s, passOn) else s.(receiver := Asleep)
    // The notification is consumed and the loop registers a new waiter.
    case Wakes => Register(s.(waiter := Absent))
    case ContextCancelled => s.(cancelled := true)
    case SeesCancellation(passOn) =>
      if s.slot.Some? then TakeAndReturn(s, passOn) else DropWaiter(s.(receiver := Returned(None)), passOn)
    case ReceiveDropped(passOn) => DropWaiter(s.(receiver := Idle), passOn)
  }

  // ---- Runs ----

  function Step(s: State, l: Label): Option<State> {
    if Enabled(s, l) then Some(Apply(s, l)) else None
  }

  ghost predicate Feasible(ls: seq<Label>) {
    Run(Step, Initial, ls).Some?
  }

  ghost function After(ls: seq<Label>): State
    requires Feasible(ls)
  {
    Run(Step, Initial, ls).value
  }

  // ---- Invariant ----

  ghost predicate Inv(s: State) {
    && (s.waiter == Absent <==> !(s.receiver == Checking || s.receiver == Asleep))
    && (s.waiter == Registered ==> !s.permit)
    && (s.slot.Some? && s.receiver == Asleep && s.waiter == Registered ==> s.owing != {})
    && s.accepted == s.received + (if s.slot.Some? then [s.slot.value] else [])
    && (s.receiver.Returned? && s.receiver.value.Some? ==> s.receiver.value.value in s.received)
    && (s.receiver == Returned(None) ==> s.cancelled)
  }

  lemma StepKeepsInv(s: State, l: Label)
    requires Inv(s) && Enabled(s, l)
    ensures Inv(Apply(s, l))
  {
  }

  lemma RunsKeepInv(ls: seq<Label>)
    requires Feasible(ls)
    ensures Inv(After(ls))
  {
    forall s, l | Inv(s) && Step(s, l).Some? ensures Inv(Step(s, l).value) { StepKeepsInv(s, l); }
    Invariant(Step, Inv, Initial, ls);
  }

  // ---- What holds in every run ----

  /** No lost wakeup: whenever a value is in the slot and the receiver sleeps, it is already
      notified or a sender still owes a notification, and that notification will wake it. */
  lemma NoLostWakeup(ls: seq<Label>)
    requires Feasible(ls) && After(ls).slot.Some? && After(ls).receiver == Asleep
    ensures After(ls).waiter == Notified || After(ls).owing != {}
    ensures forall t :: t in After(ls).owing ==> Enabled(Apply(After(ls), Notifies(t)), Wakes)
  {
    RunsKeepInv(ls);
  }

  /** Conservation: every accepted value was received once, in order, or is in the slot; a
      receive fails only under cancellation and never while a value is there to return. */
  lemma ValuesAreConserved(ls: seq<Label>)
    requires Feasible(ls)
    ensures var s := After(ls);
            && s.received <= s.accepted && |s.accepted| - |s.received| == (if s.slot.Some? then 1 else 0)
            && (s.slot.Some? ==> s.slot.value == s.accepted[|s.received|])
            && (s.receiver == Returned(None) ==> s.cancelled)
            && forall passOn :: Enabled(s, SeesCancellation(passOn)) && s.slot.Some? ==>
                  Apply(s, SeesCancellation(passOn)).receiver == Returned(s.slot)
  {
    RunsKeepInv(ls);
  }

  /** From a state with a value in the slot and the receiver asleep, at most one notification,
      the wakeup and the check hand the value over. */
  lemma ValueIsHandedOver(ls: seq<Label>) returns (ms: seq<Label>)
    requires Feasible(ls) && After(ls).slot.Some? && After(ls).receiver == Asleep
    ensures |ms| <= 3 && Feasible(ls + ms) && After(ls + ms).receiver == Returned(After(ls).slot)
    ensures After(ls + ms).received == After(ls).received + [After(ls).slot.value]
  {
    RunsKeepInv(ls);
    var s := After(ls);
    ms := [];
    var s1 := s;
    if s.waiter != Notified {
      var t: Task :| t in s.owing;
      ms := [Notifies(t)];
      s1 := Apply(s, Notifies(t));
      Then(Step, Initial, ls, s, Notifies(t), s1);
    } else {
      assert ls + ms == ls;
    }
    var s2 := Apply(s1, Wakes);
    Then(Step, Initial, ls + ms, s1, Wakes, s2);
    var s3 := Apply(s2, Checks(true));
    Then(Step, Initial, ls + ms + [Wakes], s2, Checks(true), s3);
    assert ls + ms + [Wakes] + [Checks(true)] == ls + (ms + [Wakes, Checks(true)]);
    ms := ms + [Wakes, Checks(true)];
  }

  // ---- The course of senders and receiver ----

  ghost function StoredIn(ls: seq<Label>): seq<Value> {
    if |ls| == 0 then [] else StoredIn(ls[..|ls| - 1]) + if ls[|ls| - 1].Stores? then [ls[|ls| - 1].value] else []
  }

  /** The step takes what is in the slot. */
  predicate Takes(s: State, l: Label) {
    (l.Checks? || l.SeesCancellation?) && s.slot.Some?
  }

  ghost function ReceivedIn(ls: seq<Label>): seq<Value>
    requires Feasible(ls)
  {
    if |ls| == 0 then []
    else
      var (pre, l) := (ls[..|ls| - 1], ls[|ls| - 1]);
      ReceivedIn(pre) + if Takes(After(pre), l) then [After(pre).slot.value] else []
  }

  /** Whether a sender has stored and not notified since. */
  ghost function OwesIn(ls: seq<Label>, t: Task): bool {
    if |ls| == 0 then false
    else
      var l := ls[|ls| - 1];
      if l.Stores? && l.t == t then true else if l == Notifies(t) then false else OwesIn(ls[..|ls| - 1], t)
  }

  predicate IsReceiverStep(l: Label) {
    l.Registers? || l.Checks? || l.Wakes? || l.SeesCancellation? || l.ReceiveDropped?
  }

  ghost function LastOfReceiver(ls: seq<Label>): Option<Label> {
    if |ls| == 0 then None
    else if IsReceiverStep(ls[|ls| - 1]) then Some(ls[|ls| - 1]) else LastOfReceiver(ls[..|ls| - 1])
  }

  /** Where its last step leaves the receiver. */
  predicate Position(last: Option<Label>, receiver: Receiver) {
    match last
    case None => receiver == Idle
    case Some(Registers) => receiver == Checking
    case Some(Checks(_)) => receiver == Asleep || (receiver.Returned? && receiver.value.Some?)
    case Some(Wakes) => receiver == Checking
    case Some(SeesCancellation(_)) => receiver.Returned?
    case Some(ReceiveDropped(_)) => receiver == Idle
    case _ => false
  }

  lemma StepTells(s: State, l: Label, t: Task, last: Option<Label>)
    requires Enabled(s, l) && Position(last, s.receiver)
    ensures var s' := Apply(s, l);
            && Position(if IsReceiverStep(l) then Some(l) else last, s'.receiver)
            && s'.accepted == s.accepted + (if l.Stores? then [l.value] else [])
            && s'.received == s.received + (if Takes(s, l) then [s.slot.value] else [])
            && (t in s'.owing <==> (if l.Stores? && l.t == t then true else t in s.owing && l != Notifies(t)))
            && (s'.cancelled <==> s.cancelled || l == ContextCancelled)
  {
  }

  /** In every run the steps tell what was stored and received, who owes a notification, and where
      the receiver is. */
  lemma {:induction false} SlotTakesItsCourse(ls: seq<Label>, t: Task)
    requires Feasible(ls)
    ensures After(ls).accepted == StoredIn(ls) && After(ls).received == ReceivedIn(ls)
    ensures (t in After(ls).owing <==> OwesIn(ls, t)) && (After(ls).cancelled <==> ContextCancelled in ls)
    ensures Position(LastOfReceiver(ls), After(ls).receiver)
  {
    if |ls| > 0 {
      var n := |ls| - 1;
      var pre, l := ls[..n], ls[n];
      SlotTakesItsCourse(pre, t);
      StepTells(After(pre), l, t, LastOfReceiver(pre));
      assert ls == pre + [l];
    }
  }
}
