/** Two limits of the fence, each by a run. 2^64 changes after an assignment was made its
    generation comes back, and an acknowledgement stamped under it takes effect under another one.
    And between recording an error and cancelling the contexts, `fail` lets acknowledgements pass. */
module KafkaCounterexamples {
  import opened Runs
  import opened KafkaAssignments

  const Single := Request([Item(0, 0)], 0, false, Some(None), map[])
  const Check := AssignChecked(Single, 0)
  const Nothing := RevokeCommitted(true, [], true, 0)

  function AssignOf(ctx: Ctx): Label {
    AssignCommitted(true, [ctx], true, 0)
  }

  lemma CheckPasses(s: State)
    requires s.callback == Idle && !s.ownerCancelled && !s.failed
    ensures Step(s, Check) == Some(s.(callback := Planned(Single)))
  {
  }

  lemma InsertsZero(g: nat, ctx: Ctx)
    ensures var (targets, table) := (Targets(Single), InsertAll(map[], Targets(Single), g, [ctx]));
            && table == map[0 := Entry(g, ctx)]
            && (set p | p in targets && p in table :: (p, table[p])) == {(0, Entry(g, ctx))}
  {
    var targets := Targets(Single);
    assert targets == [0];
    var table := InsertAll(map[], targets, g, [ctx]);
    assert table == map[0 := Entry(g, ctx)] by { assert InsertAll(map[], targets[..0], g, [ctx][..0]) == map[]; }
    assert 0 in targets && 0 in table;
    var entered := set p | p in targets && p in table :: (p, table[p]);
    assert (0, table[0]) in entered && entered == {(0, Entry(g, ctx))};
  }

  lemma ZeroIsEnabled(s: State, ctx: Ctx)
    requires s.callback == Planned(Single)
    requires ctx !in s.cancelled && forall x :: x in s.issued ==> x.1.ctx != ctx
    ensures Enabled(s, AssignOf(ctx))
  {
  }

  /** `t` follows `s` by the assignment of partition 0, which had no entry. */
  ghost predicate ZeroAssigned(s: State, ctx: Ctx, t: State) {
    var e := Entry((s.revision + 1) % U64, ctx);
    && t.partitions == map[0 := e] && t.revision == e.generation && t.cancelled == s.cancelled && t.callback == Idle
    && !t.ownerCancelled && t.failed == s.failed && t.bumps == s.bumps + 1 && t.issued == s.issued + {(0, e)}
    && ctx in t.made && t.made[ctx] == s.bumps + 1
  }

  lemma CommitsZero(s: State, ctx: Ctx)
    requires s.callback == Planned(Single) && !s.ownerCancelled && s.partitions == map[]
    ensures ZeroAssigned(s, ctx, Commit(s, true, [ctx], true, 0))
  {
    InsertsZero((s.revision + 1) % U64, ctx);
    assert Dropping(s, true, AsSet(Targets(Single))) == s;
  }

  /** A cooperative assignment of partition 0, which has no entry. */
  lemma AssignsZero(s: State, ctx: Ctx)
    requires s.callback == Planned(Single) && !s.ownerCancelled && s.partitions == map[]
    requires ctx !in s.cancelled && forall x :: x in s.issued ==> x.1.ctx != ctx
    ensures Step(s, AssignOf(ctx)).Some? && ZeroAssigned(s, ctx, Step(s, AssignOf(ctx)).value)
  {
    ZeroIsEnabled(s, ctx);
    CommitsZero(s, ctx);
  }

  lemma NothingBumps(s: State)
    requires s.callback == Idle && s.partitions == map[]
    ensures Step(s, Nothing) == Some(Bump(s))
  {
    assert Dropping(s, true, AsSet([])) == s;
  }

  /** The state after `n` changes that leave the empty table alone. */
  function Bumped(s: State, n: nat): State {
    s.(revision := (s.revision + n) % U64, bumps := s.bumps + n)
  }

  lemma BumpedOnce(s: State, n: nat)
    ensures Bump(Bumped(s, n)) == Bumped(s, n + 1)
  {
  }

  lemma BumpedNever(s: State)
    requires s.revision < U64
    ensures Bumped(s, 0) == s
  {
  }

  lemma OneMore(ls: seq<Label>, mid: State, n: nat)
    requires n > 0 && Run(Step, Initial, ls + seq(n - 1, _ => Nothing)) == Some(mid)
    requires mid.callback == Idle && mid.partitions == map[]
    ensures Run(Step, Initial, ls + seq(n, _ => Nothing)) == Some(Bump(mid))
  {
    NothingBumps(mid);
    Then(Step, Initial, ls + seq(n - 1, _ => Nothing), mid, Nothing, Bump(mid));
    assert ls + seq(n - 1, _ => Nothing) + [Nothing] == ls + seq(n, _ => Nothing);
  }

  /** Any number of revokes of nothing. */
  lemma {:induction false} NothingOften(ls: seq<Label>, s: State, n: nat)
    requires Run(Step, Initial, ls) == Some(s) && s.callback == Idle && s.partitions == map[] && s.revision < U64
    ensures Run(Step, Initial, ls + seq(n, _ => Nothing)) == Some(Bumped(s, n))
  {
    if n == 0 {
      assert ls + seq(n, _ => Nothing) == ls;
      BumpedNever(s);
    } else {
      NothingOften(ls, s, n - 1);
      OneMore(ls, Bumped(s, n - 1), n);
      BumpedOnce(s, n - 1);
    }
  }

  /** Partition 0 is assigned under generation 1 and revoked again. */
  lemma FirstAssignment() returns (ls: seq<Label>, revoke: Label, s: State, t: State)
    ensures Run(Step, Initial, ls) == Some(s) && Run(Step, Initial, ls + [revoke]) == Some(t)
    ensures s.partitions == map[0 := Entry(1, 0)] && !s.ownerCancelled && s.cancelled == {}
    ensures MadeBy(s, 0, 1) && s.callback == Idle && !s.failed
    ensures t.partitions == map[] && t.cancelled == {0} && t.issued == {(0, Entry(1, 0))}
    ensures t.callback == Idle && !t.ownerCancelled && !t.failed && t.revision == 2 && t.bumps == 2
  {
    ls, revoke := [] + [Check] + [AssignOf(0)], RevokeCommitted(true, [0], true, 0);
    CheckPasses(Initial);
    var planned := Initial.(callback := Planned(Single));
    Then(Step, Initial, [], Initial, Check, planned);
    AssignsZero(planned, 0);
    s := Step(planned, AssignOf(0)).value;
    Then(Step, Initial, [] + [Check], planned, AssignOf(0), s);
    assert AsSet([0]) == {0} && Contexts(s.partitions, {0}) == {0};
    assert s.partitions - {0} == map[];
    t := Step(s, revoke).value;
    Then(Step, Initial, ls, s, revoke, t);
  }

  /** An idle system with an empty table assigns partition 0 once more. */
  lemma NextAssignment(ls: seq<Label>, s: State, ctx: Ctx) returns (u: State)
    requires Run(Step, Initial, ls) == Some(s) && s.callback == Idle && s.partitions == map[]
    requires !s.ownerCancelled && !s.failed && ctx !in s.cancelled && forall x :: x in s.issued ==> x.1.ctx != ctx
    ensures Run(Step, Initial, ls + [Check] + [AssignOf(ctx)]) == Some(u)
    ensures u.partitions == map[0 := Entry((s.revision + 1) % U64, ctx)] && u.cancelled == s.cancelled
    ensures !u.ownerCancelled && !u.failed && u.bumps == s.bumps + 1
  {
    CheckPasses(s);
    var planned := s.(callback := Planned(Single));
    Then(Step, Initial, ls, s, Check, planned);
    AssignsZero(planned, ctx);
    u := Step(planned, AssignOf(ctx)).value;
    Then(Step, Initial, ls + [Check], planned, AssignOf(ctx), u);
  }

  /** From there the revision is brought round to zero. */
  lemma RevisionWraps(ls: seq<Label>, t: State, n: nat) returns (w: State)
    requires Run(Step, Initial, ls) == Some(t) && t.callback == Idle && t.partitions == map[]
    requires n + 2 == U64 && t.revision == t.bumps == 2
    ensures Run(Step, Initial, ls + seq(n, _ => Nothing)) == Some(w)
    ensures w == t.(revision := 0, bumps := U64)
  {
    NothingOften(ls, t, n);
    w := Bumped(t, n);
  }

  /** A stamp of `s` is accepted in `u`, although what it was stamped under is over. */
  ghost predicate Reused(s: State, u: State) {
    && Enabled(s, Stamped(0)) && Enabled(u, Acknowledged(0, s.partitions[0].generation))
    && !Untouched(s, u, 0) && IsCancelled(u, s.partitions[0].ctx)
  }

  /** Stamped under the first assignment, which was revoked and cancelled, an acknowledgement is
      accepted under another one, made exactly 2^64 changes after it. */
  lemma WrappedGenerationIsReused(n: nat) returns (stamped: seq<Label>, more: seq<Label>)
    requires n + 2 == U64
    ensures Feasible(stamped) && Feasible(stamped + more) && 0 in After(stamped).partitions
    ensures After(stamped + more).bumps == Made(stamped, 0) + U64
    ensures Reused(After(stamped), After(stamped + more))
  {
    var ls, revoke, s, t := FirstAssignment();
    var w := RevisionWraps(ls + [revoke], t, n);
    var quiet := seq(n, _ => Nothing);
    var u := NextAssignment(ls + [revoke] + quiet, w, 1);
    stamped, more := ls, [revoke] + quiet + [Check] + [AssignOf(1)];
    assert stamped + more == ls + [revoke] + quiet + [Check] + [AssignOf(1)];
    StampReused(s, u);
    assert After(stamped) == s && After(stamped + more) == u;
  }

  lemma StampReused(s: State, u: State)
    requires s.partitions == map[0 := Entry(1, 0)] && !s.ownerCancelled && s.cancelled == {}
    requires u.partitions == map[0 := Entry(1, 1)] && !u.ownerCancelled && !u.failed && u.cancelled == {0}
    ensures Reused(s, u)
  {
  }

  /** The error is recorded and an acknowledgement still succeeds: the contexts are not cancelled
      yet and the failure token is not raised. */
  lemma RecordedErrorStillAcknowledges() returns (ls: seq<Label>, i: nat, j: nat)
    ensures Feasible(ls) && i < j < |ls| && ls[i].FailRecords? && ls[j].Acknowledged?
  {
    var run, _, s, _ := FirstAssignment();
    var failing := s.(callback := Failing(7));
    Then(Step, Initial, run, s, RebalanceError(7), failing);
    var recorded := Apply(failing, FailRecords(7));
    Then(Step, Initial, run + [RebalanceError(7)], failing, FailRecords(7), recorded);
    Then(Step, Initial, run + [RebalanceError(7)] + [FailRecords(7)], recorded, Acknowledged(0, 1), recorded);
    ls := run + [RebalanceError(7)] + [FailRecords(7)] + [Acknowledged(0, 1)];
    i, j := |run| + 1, |run| + 2;
  }
}
