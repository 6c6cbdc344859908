/** `Assignments` and `CheckpointContext` in the form of their code: a partition table behind a
    lock, a revision counter, an error slot and a failure token, changed in place. Every call
    is a run of the fencing step system; other threads run wherever the lock is not held. */
module KafkaCheckpoint {
  import opened Runs
  import opened KafkaAssignments

  predicate Foreign(l: Label) {
    l.Stamped? || l.Acknowledged? || l.ErrorTaken? || l.OwnerCancelled?
  }

  ghost predicate AllForeign(ls: seq<Label>) {
    forall i :: 0 <= i < |ls| ==> Foreign(ls[i])
  }

  /** What the rebalance thread can rely on where it does not hold the partition lock. */
  ghost predicate Kept(s: State, s': State) {
    && s' == s.(error := s'.error, ownerCancelled := s'.ownerCancelled, taken := s'.taken)
    && (s.ownerCancelled ==> s'.ownerCancelled)
    && (s.callback.Recorded? || s.callback.Fenced? ==> s'.error == s.error)
  }

  lemma {:induction false} ForeignRunKeeps(s: State, ls: seq<Label>)
    requires AllForeign(ls) && Run(Step, s, ls).Some?
    ensures Kept(s, Run(Step, s, ls).value)
  {
    if |ls| > 0 { ForeignRunKeeps(s, ls[..|ls| - 1]); }
  }

  /** The contexts created next. */
  function Numbered(first: Ctx, n: nat): seq<Ctx> {
    seq(n, i => first + i)
  }

  /** Since `from`, the callback ended in `fail`: recorded, cancelled, raised. */
  ghost predicate EndedInFail(log: seq<Label>, from: nat) {
    && from + 2 < |log| && log[|log| - 1].FailRaises?
    && exists i, j :: from <= i < j < |log| - 1 && log[i].FailRecords? && log[j].FailCancels?
  }

  datatype Event = Assigning(request: Request) | Revoking(ps: seq<Partition>) | Unexpected

  class Assignments {
    var partitions: map<Partition, Entry>
    var revision: nat
    var error: Option<Error>
    var failed: bool
    var ownerCancelled: bool
    var cancelled: set<Ctx>  // contexts whose own token is cancelled
    var nextCtx: Ctx
    ghost var callback: Callback
    ghost var past: State    // carries the recorded history of the run
    ghost var log: seq<Label>

    ghost function View(): State
      reads this
    {
      past.(partitions := partitions, revision := revision, error := error, failed := failed,
            ownerCancelled := ownerCancelled, cancelled := cancelled, callback := callback)
    }

    ghost predicate Valid()
      reads this
    {
      && Run(Step, Initial, log) == Some(View())
      && (forall c :: c in cancelled ==> c < nextCtx)
      && (forall x :: x in past.issued ==> x.1.ctx < nextCtx)
    }

    constructor ()
      ensures Valid() && View() == Initial && callback == Idle
    {
      partitions, revision, error, failed, ownerCancelled, cancelled := map[], 0, None, false, false, {};
      nextCtx, callback, past, log := 0, Idle, Initial, [];
    }

    ghost method Note(before: State, l: Label, after: State)
      requires Run(Step, Initial, log) == Some(before) && Step(before, l) == Some(after)
      requires after == after.(partitions := partitions, revision := revision, error := error, failed := failed,
                               ownerCancelled := ownerCancelled, cancelled := cancelled)
      modifies this`log, this`past, this`callback
      ensures log == old(log) + [l] && past == after && callback == after.callback
      ensures Run(Step, Initial, log) == Some(View()) && View() == after
    {
      Extend(Step, Initial, log, l);
      log, past, callback := log + [l], after, after.callback;
    }

    // ---- Calls of other threads ----

    /** `acknowledge`: `apply` runs under the lock exactly when the stamp is still in force. */
    method Acknowledge(p: Partition, generation: nat) returns (applied: bool)
      requires Valid()
      modifies this`log, this`past, this`callback
      ensures Valid() && View() == old(View())
      ensures applied <==> !failed && Current(View(), p, generation)
      ensures log == if applied then old(log) + [Acknowledged(p, generation)] else old(log)
    {
      if failed || p !in partitions || partitions[p].generation != generation
         || ownerCancelled || partitions[p].ctx in cancelled {
        return false;
      }
      Note(View(), Acknowledged(p, generation), View());
      return true;
    }

    /** `take_error`, once it has the error lock, which `fail` holds while it runs. */
    method TakeError() returns (e: Option<Error>)
      requires Valid() && !callback.Recorded? && !callback.Fenced?
      modifies this`error, this`log, this`past, this`callback
      ensures Valid() && log == old(log) + [ErrorTaken(e)] && e == old(error) && error == None
    {
      ghost var before := View();
      e := error;
      error := None;
      Note(before, ErrorTaken(e), Apply(before, ErrorTaken(e)));
    }

    /** Other threads take any steps; only the rebalance thread creates contexts. */
    method Yield()
      requires Valid()
      modifies this
      ensures Valid() && old(log) <= log && AllForeign(log[|old(log)|..]) && nextCtx == old(nextCtx)
    {
    }

    /** The rebalance thread does not hold the partition lock. */
    method Unlocked()
      requires Valid()
      modifies this
      ensures Valid() && old(log) <= log && AllForeign(log[|old(log)|..]) && nextCtx == old(nextCtx)
      ensures Kept(old(View()), View())
    {
      ghost var s, before := View(), log;
      Yield();
      assert log == before + log[|before|..];
      Append(Step, Initial, before, log[|before|..]);
      ForeignRunKeeps(s, log[|before|..]);
    }

    // ---- Locked sections ----

    method CancelContexts()
      modifies this`cancelled
      ensures cancelled == old(cancelled) + Contexts(partitions, partitions.Keys)
    {
      var left: set<Partition> := partitions.Keys;
      while left != {}
        invariant left <= partitions.Keys
        invariant cancelled == old(cancelled) + Contexts(partitions, partitions.Keys - left)
        decreases |left|
      {
        ghost var was := left;
        var p: Partition := Pick(left);
        cancelled := cancelled + {partitions[p].ctx};
        left := left - {p};
        assert partitions.Keys - left == (partitions.Keys - was) + {p};
        ContextsOfMore(partitions, partitions.Keys - was, p);
      }
      assert partitions.Keys - left == partitions.Keys;
    }

    method CancelAll()
      modifies this`partitions, this`cancelled
      ensures partitions == map[] && cancelled == old(cancelled) + Contexts(old(partitions), old(partitions).Keys)
    {
      CancelContexts();
      partitions := map[];
    }

    method CancelListed(ps: seq<Partition>)
      modifies this`partitions, this`cancelled
      ensures partitions == old(partitions) - AsSet(ps)
      ensures cancelled == old(cancelled) + Contexts(old(partitions), AsSet(ps))
    {
      for i := 0 to |ps|
        invariant partitions == old(partitions) - AsSet(ps[..i])
        invariant cancelled == old(cancelled) + Contexts(old(partitions), AsSet(ps[..i]))
      {
        var p := ps[i];
        assert ps[..i + 1] == ps[..i] + [p];
        assert AsSet(ps[..i + 1]) == AsSet(ps[..i]) + {p};
        if p in partitions {
          cancelled := cancelled + {partitions[p].ctx};
          partitions := partitions - {p};
        }
        ContextsOfMore(old(partitions), AsSet(ps[..i]), p);
      }
      assert ps[..|ps|] == ps;
    }

    method InsertListed(ps: seq<Partition>, generation: nat) returns (ghost created: seq<Ctx>)
      modifies this`partitions, this`nextCtx
      ensures |created| == |ps| && partitions == InsertAll(old(partitions), ps, generation, created)
      ensures forall i :: 0 <= i < |created| ==> created[i] == old(nextCtx) + i
      ensures nextCtx == old(nextCtx) + |ps|
    {
      created := [];
      for i := 0 to |ps|
        invariant |created| == i && nextCtx == old(nextCtx) + i
        invariant forall k :: 0 <= k < i ==> created[k] == old(nextCtx) + k
        invariant partitions == InsertAll(old(partitions), ps[..i], generation, created)
      {
        ghost var was := created;
        created := created + [nextCtx];
        partitions := partitions[ps[i] := Entry(generation, nextCtx)];
        nextCtx := nextCtx + 1;
        assert created[..i] == was;
        InsertSnoc(old(partitions), ps, i, generation, created);
      }
      assert ps[..|ps|] == ps;
    }

    // ---- The rebalance callback ----

    method DropReplaced(cooperative: bool, ps: seq<Partition>)
      modifies this`partitions, this`cancelled
      ensures partitions == Dropping(old(View()), cooperative, AsSet(ps)).partitions
      ensures cancelled == Dropping(old(View()), cooperative, AsSet(ps)).cancelled
    {
      if !cooperative { CancelAll(); }
      CancelListed(ps);
    }

    /** The contexts of the table have been issued, so they are older than `nextCtx`. */
    lemma OldContexts(cooperative: bool, ps: set<Partition>)
      requires Valid()
      ensures forall c :: c in Dropping(View(), cooperative, ps).cancelled ==> c < nextCtx
    {
      RunsKeepInv(log);
    }

    /** The locked part of an assign: drop what is replaced, assign natively, insert. */
    method AssignLocked(request: Request, cooperative: bool, nativeOk: bool, onError: Error)
      requires Valid() && callback == Planned(request) && !ownerCancelled
      modifies this
      ensures Valid() && callback == if nativeOk then Idle else Failing(onError)
      ensures var created := Numbered(old(nextCtx), |request.items|);
              log == old(log) + [AssignCommitted(cooperative, created, nativeOk, onError)]
      ensures ownerCancelled == old(ownerCancelled) && Assigned(old(View()), View(), request, cooperative, nativeOk)
    {
      ghost var before, first, was := View(), nextCtx, log;
      RunsKeepInv(log);
      CommitLocked(request, cooperative, nativeOk, onError);
      ghost var l := AssignCommitted(cooperative, Numbered(first, |request.items|), nativeOk, onError);
      Extend(Step, Initial, was, l);
      AssignRebuilds(before, l);
    }

    method CommitLocked(request: Request, cooperative: bool, nativeOk: bool, onError: Error)
      requires Valid() && callback == Planned(request) && !ownerCancelled
      modifies this
      ensures Valid() && callback == if nativeOk then Idle else Failing(onError)
      ensures var created := Numbered(old(nextCtx), |request.items|);
              log == old(log) + [AssignCommitted(cooperative, created, nativeOk, onError)]
      ensures ownerCancelled == old(ownerCancelled)
    {
      ghost var before := View();
      var targets := Targets(request);
      OldContexts(cooperative, AsSet(targets));
      DropReplaced(cooperative, targets);
      if nativeOk {
        InsertLocked(before, cooperative, targets, onError);
      } else {
        ghost var l := AssignCommitted(cooperative, Numbered(nextCtx, |targets|), false, onError);
        CommitEnabled(before, l, nextCtx);
        Note(before, l, Apply(before, l));
      }
    }

    method InsertLocked(ghost before: State, cooperative: bool, targets: seq<Partition>, onError: Error)
      requires Run(Step, Initial, log) == Some(before) && before.callback.Planned? && !before.ownerCancelled
      requires targets == Targets(before.callback.request)
      requires partitions == Dropping(before, cooperative, AsSet(targets)).partitions
      requires cancelled == Dropping(before, cooperative, AsSet(targets)).cancelled
      requires revision == before.revision && error == before.error && failed == before.failed && !ownerCancelled
      requires forall c :: c in cancelled ==> c < nextCtx
      requires forall x :: x in before.issued ==> x.1.ctx < nextCtx
      modifies this
      ensures Valid() && callback == Idle && !ownerCancelled
      ensures log == old(log) + [AssignCommitted(cooperative, Numbered(old(nextCtx), |targets|), true, onError)]
    {
      ghost var first := nextCtx;
      revision := (revision + 1) % U64;
      ghost var created := InsertListed(targets, revision);
      assert created == Numbered(first, |targets|);
      NoteInserted(before, AssignCommitted(cooperative, created, true, onError), first);
    }

    ghost method NoteInserted(before: State, l: Label, first: Ctx)
      requires Run(Step, Initial, log) == Some(before) && before.callback.Planned? && !before.ownerCancelled
      requires l.AssignCommitted? && l.nativeOk && l.created == Numbered(first, |before.callback.request.items|)
      requires forall c :: c in cancelled ==> c < first
      requires forall x :: x in before.issued ==> x.1.ctx < first
      requires var d := Dropping(before, l.cooperative, AsSet(Targets(before.callback.request)));
               && cancelled == d.cancelled && revision == (before.revision + 1) % U64
               && partitions == InsertAll(d.partitions, Targets(before.callback.request), revision, l.created)
      requires error == before.error && failed == before.failed && !ownerCancelled
      requires nextCtx == first + |l.created|
      modifies this`log, this`past, this`callback
      ensures Valid() && log == old(log) + [l] && callback == Idle
    {
      ghost var after := CommitOutcome(log, before, l, first);
      log, past, callback := log + [l], after, after.callback;
    }

    method DropRevoked(cooperative: bool, ps: seq<Partition>)
      modifies this`partitions, this`cancelled
      ensures partitions == Dropping(old(View()), cooperative, AsSet(ps)).partitions
      ensures cancelled == Dropping(old(View()), cooperative, AsSet(ps)).cancelled
    {
      if cooperative { CancelListed(ps); } else { CancelAll(); }
    }

    /** The locked part of a revoke. */
    method RevokeLocked(cooperative: bool, revoked: seq<Partition>, nativeOk: bool, onError: Error)
      requires Valid() && callback == Idle
      modifies this
      ensures Valid() && callback == if nativeOk then Idle else Failing(onError)
      ensures log == old(log) + [RevokeCommitted(cooperative, revoked, nativeOk, onError)]
      ensures Revoked(old(View()), View(), cooperative, revoked)
    {
      ghost var before, was := View(), log;
      CommitRevoke(cooperative, revoked, nativeOk, onError);
      ghost var l := RevokeCommitted(cooperative, revoked, nativeOk, onError);
      Extend(Step, Initial, was, l);
      RevokeTakesAway(before, l);
    }

    method CommitRevoke(cooperative: bool, revoked: seq<Partition>, nativeOk: bool, onError: Error)
      requires Valid() && callback == Idle
      modifies this
      ensures Valid() && callback == if nativeOk then Idle else Failing(onError)
      ensures log == old(log) + [RevokeCommitted(cooperative, revoked, nativeOk, onError)]
    {
      ghost var before := View();
      OldContexts(cooperative, AsSet(revoked));
      DropRevoked(cooperative, revoked);
      if nativeOk { revision := (revision + 1) % U64; }
      ghost var after := Revoke(before, cooperative, revoked, nativeOk, onError);
      Note(before, RevokeCommitted(cooperative, revoked, nativeOk, onError), after);
    }

    /** The error slot of `fail`, which keeps the first error. */
    method RecordFailure(e: Error)
      requires Valid() && callback == Failing(e)
      modifies this
      ensures Valid() && log == old(log) + [FailRecords(e)] && callback == Recorded
      ensures error == (if old(error).Some? then old(error) else Some(e)) && ownerCancelled == old(ownerCancelled)
    {
      ghost var before := View();
      if error.None? { error := Some(e); }
      Note(before, FailRecords(e), Apply(before, FailRecords(e)));
    }

    /** The loop of `fail`, under the partition lock. */
    method CancelForFailure()
      requires Valid() && callback == Recorded
      modifies this
      ensures Valid() && log == old(log) + [FailCancels] && callback == Fenced && error == old(error)
      ensures ownerCancelled == old(ownerCancelled)
    {
      ghost var before := View();
      OldContexts(false, {});
      CancelContexts();
      Note(before, FailCancels, Apply(before, FailCancels));
    }

    /** The failure token. */
    method RaiseFailure()
      requires Valid() && callback == Fenced
      modifies this
      ensures Valid() && log == old(log) + [FailRaises] && callback == Idle && failed && error == old(error)
      ensures ownerCancelled == old(ownerCancelled)
    {
      ghost var before := View();
      failed := true;
      Note(before, FailRaises, Apply(before, FailRaises));
    }

    /** `fail`. The error lock is held throughout, so nobody takes the error before the failure
        token is raised; acknowledgements run before and after the cancellation. */
    method Fail(e: Error)
      requires Valid() && callback == Failing(e)
      modifies this
      ensures Valid() && callback == Idle && failed && old(log) < log && EndedInFail(log, |old(log)|)
      ensures error == if old(error).Some? then old(error) else Some(e)
      ensures old(ownerCancelled) ==> ownerCancelled
    {
      RecordFailure(e);
      Unlocked();
      CancelForFailure();
      ghost var cancels := |log| - 1;
      Unlocked();
      RaiseFailure();
      assert log[|old(log)|].FailRecords? && log[cancels].FailCancels?;
    }

    /** The checks of an assign, made without the lock. */
    method CheckAssign(request: Request, onError: Error) returns (planned: bool)
      requires Valid() && callback == Idle
      modifies this`log, this`past, this`callback
      ensures Valid() && log == old(log) + [AssignChecked(request, onError)]
      ensures planned <==> !ownerCancelled && !failed && Restorable(request)
      ensures callback == (if planned then Planned(request) else Failing(onError))
      ensures View() == old(View()).(callback := callback)
    {
      var ok, _ := Plan(request);
      planned := ok && !ownerCancelled && !failed;
      ghost var l := AssignChecked(request, onError);
      Note(View(), l, Apply(View(), l));
    }

    /** An assign whose checks passed: the owner is checked once more, then the table is locked. */
    method CommitAssign(request: Request, cooperative: bool, nativeOk: bool, onError: Error) returns (ok: bool)
      requires Valid() && callback == Planned(request)
      modifies this
      ensures Valid() && old(log) < log && callback == if ok then Idle else Failing(onError)
      ensures ok == (nativeOk && !ownerCancelled)
      ensures ok ==> log[|log| - 1].AssignCommitted? && log[|log| - 1].nativeOk
      ensures ok ==> Assigned(old(View()), View(), request, cooperative, true)
    {
      ghost var before := View();
      Unlocked();
      ghost var s := View();
      ok := nativeOk && !ownerCancelled;
      if ownerCancelled {
        RefuseCommit(request, cooperative, nativeOk, onError);
      } else {
        AssignLocked(request, cooperative, nativeOk, onError);
        if ok { AssignedSince(before, s, View(), request, cooperative); }
      }
    }

    /** The owner was cancelled between the checks and the lock. */
    method RefuseCommit(request: Request, cooperative: bool, nativeOk: bool, onError: Error)
      requires Valid() && callback == Planned(request) && ownerCancelled
      modifies this
      ensures Valid() && old(log) < log && callback == Failing(onError) && ownerCancelled
    {
      ghost var l := AssignCommitted(cooperative, Numbered(nextCtx, |request.items|), nativeOk, onError);
      CommitEnabled(View(), l, nextCtx);
      Note(View(), l, Apply(View(), l));
    }

    /** An assign succeeds exactly when it is restorable, nothing has failed or been cancelled and
        the native call succeeds. */
    method Assign(request: Request, cooperative: bool, nativeOk: bool, onError: Error) returns (ok: bool)
      requires Valid() && callback == Idle
      modifies this
      ensures Valid() && old(log) < log && callback == if ok then Idle else Failing(onError)
      ensures ok == (nativeOk && Restorable(request) && !old(failed) && !ownerCancelled)
      ensures ok ==> log[|log| - 1].AssignCommitted? && log[|log| - 1].nativeOk
      ensures ok ==> Assigned(old(View()), View(), request, cooperative, true)
    {
      ghost var before := View();
      ok := CheckAssign(request, onError);
      if ok {
        ghost var s := View();
        ok := CommitAssign(request, cooperative, nativeOk, onError);
        if ok { AssignedSince(before, s, View(), request, cooperative); }
      }
    }

    /** The rebalance callback: a success has done to the table what its event says, and whatever
        goes wrong, for a reason there is, ends in `fail`. */
    method Rebalance(event: Event, cooperative: bool, nativeOk: bool, onError: Error) returns (ok: bool)
      requires Valid() && callback == Idle
      modifies this
      ensures Valid() && old(log) < log && callback == Idle
      ensures ok ==> match event {
                case Assigning(request) => Assigned(old(View()), View(), request, cooperative, true)
                case Revoking(ps) => Revoked(old(View()), View(), cooperative, ps)
                case Unexpected => false
              }
      ensures !ok ==> match event {
                case Assigning(request) => !nativeOk || !Restorable(request) || old(failed) || ownerCancelled
                case Revoking(_) => !nativeOk
                case Unexpected => true
              }
      ensures ok && !event.Unexpected? ==> nativeOk
      ensures ok && event.Assigning? ==> Restorable(event.request) && !old(failed)
      ensures !ok ==> failed && EndedInFail(log, |old(log)|)
    {
      ok := false;
      match event {
        case Assigning(request) => ok := Assign(request, cooperative, nativeOk, onError);
        case Revoking(ps) =>
          RevokeLocked(cooperative, ps, nativeOk, onError);
          ok := nativeOk;
        case Unexpected =>
          Note(View(), RebalanceError(onError), Apply(View(), RebalanceError(onError)));
      }
      if !ok { FailAfter(onError); }
    }

    method FailAfter(onError: Error)
      requires Valid() && callback == Failing(onError)
      modifies this
      ensures Valid() && old(log) < log && callback == Idle && failed && EndedInFail(log, |old(log)|)
      ensures old(ownerCancelled) ==> ownerCancelled
    {
      Unlocked();
      ghost var mid := |log|;
      Fail(onError);
      FailLater(log, |old(log)|, mid);
    }
  }

  predicate SameTable(s: State, t: State) {
    t.partitions == s.partitions && t.cancelled == s.cancelled && t.revision == s.revision && t.issued == s.issued
  }

  lemma AssignedSince(s: State, t: State, u: State, r: Request, cooperative: bool)
    requires SameTable(s, t) && Assigned(t, u, r, cooperative, true)
    ensures Assigned(s, u, r, cooperative, true)
  {
  }

  lemma FailLater(log: seq<Label>, from: nat, later: nat)
    requires from <= later && EndedInFail(log, later)
    ensures EndedInFail(log, from)
  {
  }

  lemma CommitEnabled(s: State, l: Label, first: Ctx)
    requires l.AssignCommitted? && s.callback.Planned? && l.created == Numbered(first, |s.callback.request.items|)
    requires forall c :: c in s.cancelled ==> c < first
    requires forall x :: x in s.issued ==> x.1.ctx < first
    ensures Enabled(s, l)
  {
  }

  lemma InsertSnoc(table: map<Partition, Entry>, ps: seq<Partition>, i: nat, generation: nat, created: seq<Ctx>)
    requires i < |ps| && |created| == i + 1
    ensures InsertAll(table, ps[..i + 1], generation, created) ==
            InsertAll(table, ps[..i], generation, created[..i])[ps[i] := Entry(generation, created[i])]
  {
    assert ps[..i + 1][..i] == ps[..i];
  }

  lemma IssuedBound(s: State, l: Label, first: Ctx)
    requires l.AssignCommitted? && l.nativeOk && s.callback.Planned? && !s.ownerCancelled && Enabled(s, l)
    requires l.created == Numbered(first, |s.callback.request.items|)
    requires forall x :: x in s.issued ==> x.1.ctx < first
    ensures forall x :: x in Apply(s, l).issued ==> x.1.ctx < first + |l.created|
  {
    forall x | x in Apply(s, l).issued ensures x.1.ctx < first + |l.created| {
      if x !in s.issued { CommitIssues(s, l, x); }
    }
  }

  lemma CommitOutcome(log: seq<Label>, s: State, l: Label, first: Ctx) returns (after: State)
    requires Run(Step, Initial, log) == Some(s)
    requires l.AssignCommitted? && l.nativeOk && s.callback.Planned? && !s.ownerCancelled
    requires l.created == Numbered(first, |s.callback.request.items|)
    requires forall c :: c in s.cancelled ==> c < first
    requires forall x :: x in s.issued ==> x.1.ctx < first
    ensures Run(Step, Initial, log + [l]) == Some(after)
    ensures var targets := Targets(s.callback.request);
            var d := Dropping(s, l.cooperative, AsSet(targets));
            && after.partitions == InsertAll(d.partitions, targets, (s.revision + 1) % U64, l.created)
            && after.cancelled == d.cancelled && after.revision == (s.revision + 1) % U64
    ensures after.error == s.error && after.failed == s.failed && !after.ownerCancelled && after.callback == Idle
    ensures forall x :: x in after.issued ==> x.1.ctx < first + |l.created|
  {
    CommitEnabled(s, l, first);
    after := Apply(s, l);
    Extend(Step, Initial, log, l);
    IssuedBound(s, l, first);
  }

  lemma ContextsOfMore(table: map<Partition, Entry>, ps: set<Partition>, p: Partition)
    ensures Contexts(table, ps + {p}) == Contexts(table, ps) + if p in table then {table[p].ctx} else {}
  {
  }
}
