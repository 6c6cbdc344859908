/** Kafka assignment fencing: partitions are assigned and revoked by generation, an
    acknowledgement is admitted only for the generation it was stamped with, restoration is
    all or nothing, and a failure is absorbing.

    Rebalance callbacks come from one thread. Its unlocked parts interleave with stamping,
    acknowledging, cancellation and error reporting, so each section under the partition lock is
    one step. `fail` holds the error lock from its first write to its last, the partition lock
    only while it cancels. */
module KafkaAssignments {
  import opened Runs

  type Partition = int
  type Topic = nat
  type Ctx = nat  // identity of a partition context
  type Error = nat

  const U64: nat := 0x1_0000_0000_0000_0000

  // ---- Restoration ----

  datatype Item = Item(topic: Topic, partition: Partition)

  /** Inputs of one assign callback: the list, what `restore` returned, the recovery mode of
      the lifecycle, and the watermarks the broker would answer for each partition. */
  datatype Request = Request(
    items: seq<Item>, topic: Topic, restoring: bool,
    restored: Option<Option<map<Partition, int>>>, marks: map<Partition, (int, int)>)

  predicate ValidOffsets(offsets: Option<map<Partition, int>>) {
    offsets.Some? ==> forall p :: p in offsets.value ==> p >= 0 && offsets.value[p] >= 0
  }

  predicate ItemOk(r: Request, offsets: Option<map<Partition, int>>, item: Item) {
    && item.topic == r.topic
    && (offsets.Some? ==>
          && item.partition in offsets.value && item.partition in r.marks
          && 0 <= r.marks[item.partition].0 <= offsets.value[item.partition] <= r.marks[item.partition].1)
  }

  /** Every assigned partition can be restored. */
  predicate Restorable(r: Request) {
    && r.restored.Some? && ValidOffsets(r.restored.value) && r.restored.value.Some? == r.restoring
    && forall i :: 0 <= i < |r.items| ==> ItemOk(r, r.restored.value, r.items[i])
  }

  /** The checks of the assign callback, in its order. `plan` is the offset set on each item. */
  method Plan(r: Request) returns (ok: bool, plan: seq<Option<int>>)
    ensures ok <==> Restorable(r)
    ensures ok ==> |plan| == |r.items|
    ensures ok ==> forall i :: 0 <= i < |plan| ==>
              plan[i] == if r.restoring then Some(r.restored.value.value[r.items[i].partition]) else None
  {
    plan := [];
    if r.restored.None? { return false, plan; }
    var offsets := r.restored.value;
    if !ValidOffsets(offsets) || offsets.Some? != r.restoring { return false, plan; }
    while |plan| < |r.items|
      invariant |plan| <= |r.items|
      invariant forall i :: 0 <= i < |plan| ==> ItemOk(r, offsets, r.items[i])
      invariant forall i :: 0 <= i < |plan| ==>
                  plan[i] == if offsets.Some? then Some(offsets.value[r.items[i].partition]) else None
      decreases |r.items| - |plan|
    {
      var item := r.items[|plan|];
      if item.topic != r.topic { return false, plan; }
      if offsets.Some? {
        if item.partition !in offsets.value || item.partition !in r.marks { return false, plan; }
        var next := offsets.value[item.partition];
        var (low, high) := r.marks[item.partition];
        if low < 0 || next < low || next > high { return false, plan; }
        plan := plan + [Some(next)];
      } else {
        plan := plan + [None];
      }
    }
    return true, plan;
  }

  // ---- State ----

  datatype Entry = Entry(generation: nat, ctx: Ctx)

  // The rebalance thread: idle, between its checks and its locked section, about to record
  // an error, past the write of the error slot, or past the cancellation of the contexts.
  datatype Callback = Idle | Planned(request: Request) | Failing(error: Error) | Recorded | Fenced

  // `issued`, `made` and the sequences record what happened; no step reads them. `bumps` counts
  // increments of the 64-bit revision, `made` gives its value when a context was created.
  datatype State = State(
    partitions: map<Partition, Entry>, revision: nat, error: Option<Error>, failed: bool,
    ownerCancelled: bool, cancelled: set<Ctx>, callback: Callback,
    issued: set<(Partition, Entry)>, made: map<Ctx, nat>, bumps: nat, nativeAssigns: seq<Request>,
    recorded: seq<Error>, taken: seq<Error>)

  const Initial := State(map[], 0, None, false, false, {}, Idle, {}, map[], 0, [], [], [])

  datatype Label =
    | AssignChecked(request: Request, onError: Error)
    | AssignCommitted(cooperative: bool, created: seq<Ctx>, nativeOk: bool, onError: Error)
    | RevokeCommitted(cooperative: bool, revoked: seq<Partition>, nativeOk: bool, onError: Error)
    | RebalanceError(onError: Error)
    | FailRecords(recordedError: Error)
    | FailCancels
    | FailRaises
    | Stamped(partition: Partition)
    | Acknowledged(partition: Partition, generation: nat)
    | ErrorTaken(found: Option<Error>)
    | OwnerCancelled

  predicate IsCancelled(s: State, ctx: Ctx) {
    s.ownerCancelled || ctx in s.cancelled
  }

  /** `current`: the partition is assigned under this generation and not cancelled. */
  predicate Current(s: State, p: Partition, generation: nat) {
    p in s.partitions && s.partitions[p].generation == generation && !IsCancelled(s, s.partitions[p].ctx)
  }

  // ---- Steps ----

  function Contexts(table: map<Partition, Entry>, ps: set<Partition>): set<Ctx> {
    set p | p in table && p in ps :: table[p].ctx
  }

  function AsSet(ps: seq<Partition>): set<Partition> {
    set p | p in ps
  }

  function Targets(r: Request): seq<Partition> {
    seq(|r.items|, i requires 0 <= i < |r.items| => r.items[i].partition)
  }

  function InsertAll(table: map<Partition, Entry>, ps: seq<Partition>, generation: nat, created: seq<Ctx>)
      : map<Partition, Entry>
    requires |ps| == |created|
  {
    if |ps| == 0 then table
    else InsertAll(table, ps[..|ps| - 1], generation, created[..|ps| - 1])
           [ps[|ps| - 1] := Entry(generation, created[|ps| - 1])]
  }

  /** Cancel and drop the given partitions, or all of them under the eager protocol. */
  function Dropping(s: State, cooperative: bool, ps: set<Partition>): State {
    var out := if cooperative then ps else s.partitions.Keys;
    s.(cancelled := s.cancelled + Contexts(s.partitions, out), partitions := s.partitions - out)
  }

  function Bump(s: State): State {
    s.(revision := (s.revision + 1) % U64, bumps := s.bumps + 1)
  }

  predicate Enabled(s: State, l: Label) {
    match l
    case AssignChecked(_, _) => s.callback == Idle
    case AssignCommitted(_, created, _, _) =>
      && s.callback.Planned? && |created| == |s.callback.request.items|
      && (forall c :: c in created ==> c !in s.cancelled && forall x :: x in s.issued ==> x.1.ctx != c)
      && (forall i, j :: 0 <= i < j < |created| ==> created[i] != created[j])
    case RevokeCommitted(_, _, _, _) => s.callback == Idle
    case RebalanceError(_) => s.callback == Idle
    case FailRecords(e) => s.callback == Failing(e)
    case FailCancels => s.callback.Recorded?
    case FailRaises => s.callback.Fenced?
    case Stamped(p) => p in s.partitions && !IsCancelled(s, s.partitions[p].ctx)
    case Acknowledged(p, g) => !s.failed && Current(s, p, g)
    case ErrorTaken(found) => !s.callback.Recorded? && !s.callback.Fenced? && found == s.error
    case OwnerCancelled => true
  }

  function Commit(s: State, cooperative: bool, created: seq<Ctx>, nativeOk: bool, onError: Error): State
    requires s.callback.Planned? && |created| == |s.callback.request.items|
  {
    var targets := Targets(s.callback.request);
    var dropped := Dropping(s, cooperative, AsSet(targets))
                     .(nativeAssigns := s.nativeAssigns + [s.callback.request]);
    if !nativeOk then dropped.(callback := Failing(onError))
    else
      var table := InsertAll(dropped.partitions, targets, (s.revision + 1) % U64, created);
      Bump(dropped).(partitions := table, callback := Idle,
                     issued := s.issued + (set p | p in targets && p in table :: (p, table[p])),
                     made := s.made + map c | c in created :: s.bumps + 1)
  }

  function Revoke(s: State, cooperative: bool, revoked: seq<Partition>, nativeOk: bool, onError: Error): State {
    var dropped := Dropping(s, cooperative, AsSet(revoked));
    if nativeOk then Bump(dropped) else dropped.(callback := Failing(onError))
  }

  function Apply(s: State, l: Label): State
    requires Enabled(s, l)
  {
    match l
    case AssignChecked(request, onError) =>
      var refused := s.ownerCancelled || s.failed || !Restorable(request);
      s.(callback := if refused then Failing(onError) else Planned(request))
    case AssignCommitted(cooperative, created, nativeOk, onError) =>
      // The owner is checked once more before the table is locked.
      if s.ownerCancelled then s.(callback := Failing(onError))
      else Commit(s, cooperative, created, nativeOk, onError)
    case RevokeCommitted(cooperative, revoked, nativeOk, onError) => Revoke(s, cooperative, revoked, nativeOk, onError)
    case RebalanceError(onError) => s.(callback := Failing(onError))
    case FailRecords(e) =>
      s.(error := if s.error.None? then Some(e) else s.error, callback := Recorded, recorded := s.recorded + [e])
    case FailCancels =>
      s.(cancelled := s.cancelled + Contexts(s.partitions, s.partitions.Keys), callback := Fenced)
    case FailRaises => s.(failed := true, callback := Idle)
    case Stamped(_) => s
    case Acknowledged(_, _) => s
    case ErrorTaken(_) =>
      if s.error.Some? then s.(error := None, taken := s.taken + [s.error.value]) else s
    case OwnerCancelled => s.(ownerCancelled := true)
  }

  // ---- Runs ----

  function Step(s: State, l: Label): Option<State> {
    if Enabled(s, l) then Some(Apply(s, l)) else None
  }

  ghost predicate Feasible(ls: seq<Label>) {
    Run(Step, Initial, ls).Some?
  }

  ghost function After(ls: seq<Label>): State
    requires Feasible(ls)
  {
    Run(Step, Initial, ls).value
  }

  // ---- Invariant ----

  lemma {:induction false} InsertAllEntries(
    table: map<Partition, Entry>, ps: seq<Partition>, generation: nat, created: seq<Ctx>)
    requires |ps| == |created|
    ensures var out := InsertAll(table, ps, generation, created);
            && out.Keys == table.Keys + AsSet(ps)
            && (forall p :: p in table && p !in ps ==> out[p] == table[p])
            && (forall p :: p in ps ==> out[p].generation == generation && out[p].ctx in created)
  {
    if |ps| > 0 {
      var n := |ps| - 1;
      InsertAllEntries(table, ps[..n], generation, created[..n]);
      assert ps == ps[..n] + [ps[n]];
    }
  }

  /** Each context ever issued is the current entry of its partition or is cancelled. */
  ghost predicate TableInv(s: State) {
    && (forall x :: x in s.issued ==> x.1.ctx in s.cancelled || (x.0 in s.partitions && s.partitions[x.0] == x.1))
    && (forall p :: p in s.partitions ==> (p, s.partitions[p]) in s.issued)
  }

  /** The entry was made by a change that is counted, and carries its number modulo 2^64. */
  predicate Dated(s: State, e: Entry) {
    e.ctx in s.made && s.made[e.ctx] <= s.bumps && e.generation == s.made[e.ctx] % U64
  }

  ghost predicate GenerationInv(s: State) {
    s.revision == s.bumps % U64 && forall x :: x in s.issued ==> Dated(s, x.1)
  }

  ghost predicate FailureInv(s: State) {
    && (s.callback.Planned? ==> Restorable(s.callback.request))
    && (s.callback.Fenced? ==> forall p :: p in s.partitions ==> s.partitions[p].ctx in s.cancelled)
    && (forall i :: 0 <= i < |s.nativeAssigns| ==> Restorable(s.nativeAssigns[i]))
    && (|s.taken| == 0 ==> s.error == if |s.recorded| == 0 then None else Some(s.recorded[0]))
    && (|s.taken| > 0 ==> |s.recorded| > 0 && s.taken[0] == s.recorded[0])
  }

  ghost predicate Inv(s: State) {
    TableInv(s) && GenerationInv(s) && FailureInv(s)
  }

  lemma DroppingKeepsTable(s: State, cooperative: bool, ps: set<Partition>)
    requires TableInv(s)
    ensures TableInv(Dropping(s, cooperative, ps))
    ensures Dropping(s, cooperative, ps).partitions.Keys !! ps
  {
    var d := Dropping(s, cooperative, ps);
    var out := if cooperative then ps else s.partitions.Keys;
    assert forall p :: p in s.partitions && p in out ==> s.partitions[p].ctx in d.cancelled;
  }

  lemma CommitKeepsTable(s: State, cooperative: bool, created: seq<Ctx>, nativeOk: bool, onError: Error)
    requires TableInv(s) && s.callback.Planned? && |created| == |s.callback.request.items|
    ensures TableInv(Commit(s, cooperative, created, nativeOk, onError))
  {
    var targets := Targets(s.callback.request);
    var ps := AsSet(targets);
    DroppingKeepsTable(s, cooperative, ps);
    var d := Dropping(s, cooperative, ps);
    InsertAllEntries(d.partitions, targets, (s.revision + 1) % U64, created);
    var c := Commit(s, cooperative, created, nativeOk, onError);
    forall p | p in d.partitions ensures p in c.partitions && c.partitions[p] == d.partitions[p] {
      assert p !in ps;
    }
    forall x | x in c.issued && x.1.ctx !in c.cancelled
      ensures x.0 in c.partitions && c.partitions[x.0] == x.1
    {
      if x in s.issued {
        assert x in d.issued && x.0 in d.partitions;
      }
    }
  }

  lemma NextRevision(n: nat)
    ensures (n % U64 + 1) % U64 == (n + 1) % U64
  {
  }

  /** `s'` follows `s` by a commit that made the contexts `created`. */
  ghost predicate Committed(s: State, s': State, created: seq<Ctx>) {
    && s'.bumps == s.bumps + 1 && s'.revision == (s.revision + 1) % U64
    && s'.made == s.made + (map c | c in created :: s.bumps + 1)
    && s.issued <= s'.issued
    && (forall x :: x in s.issued ==> x.1.ctx !in created)
    && (forall x :: x in s'.issued && x !in s.issued ==> x.1.ctx in created && x.1.generation == s'.revision)
    && (forall p :: p in s'.partitions ==>
          s'.partitions[p].ctx in created || (p in s.partitions && s'.partitions[p] == s.partitions[p]))
  }

  lemma InsertedOrKept(table: map<Partition, Entry>, ps: seq<Partition>, g: nat, created: seq<Ctx>, p: Partition)
    requires |ps| == |created| && p in InsertAll(table, ps, g, created)
    ensures var e := InsertAll(table, ps, g, created)[p];
            if p in ps then e.generation == g && e.ctx in created else p in table && e == table[p]
  {
    InsertAllEntries(table, ps, g, created);
  }

  lemma CommitFills(s: State, l: Label, p: Partition)
    requires l.AssignCommitted? && Enabled(s, l) && !s.ownerCancelled && l.nativeOk && p in Apply(s, l).partitions
    ensures var (e, g) := (Apply(s, l).partitions[p], (s.revision + 1) % U64);
            if p in Targets(s.callback.request) then e.generation == g && e.ctx in l.created
            else p in s.partitions && e == s.partitions[p]
  {
    var targets := Targets(s.callback.request);
    var d := Dropping(s, l.cooperative, AsSet(targets));
    InsertedOrKept(d.partitions, targets, (s.revision + 1) % U64, l.created, p);
  }

  lemma CommitIssues(s: State, l: Label, x: (Partition, Entry))
    requires l.AssignCommitted? && Enabled(s, l) && !s.ownerCancelled && l.nativeOk
    requires x in Apply(s, l).issued && x !in s.issued
    ensures x.1.ctx in l.created && x.1.generation == (s.revision + 1) % U64
  {
    assert x.0 in Targets(s.callback.request) && x.0 in Apply(s, l).partitions;
    CommitFills(s, l, x.0);
  }

  lemma CommitIsCommitted(s: State, l: Label)
    requires l.AssignCommitted? && Enabled(s, l) && !s.ownerCancelled && l.nativeOk
    ensures Committed(s, Apply(s, l), l.created)
  {
    var s' := Apply(s, l);
    forall x | x in s'.issued && x !in s.issued ensures x.1.ctx in l.created && x.1.generation == s'.revision {
      CommitIssues(s, l, x);
    }
    forall p | p in s'.partitions
      ensures s'.partitions[p].ctx in l.created || (p in s.partitions && s'.partitions[p] == s.partitions[p])
    {
      CommitFills(s, l, p);
    }
  }

  lemma CommittedKeepsGenerations(s: State, s': State, created: seq<Ctx>)
    requires GenerationInv(s) && Committed(s, s', created)
    ensures GenerationInv(s')
  {
    NextRevision(s.bumps);
    forall x | x in s'.issued ensures Dated(s', x.1) {
      if x in s.issued { assert Dated(s, x.1); }
    }
  }

  lemma StepKeepsTable(s: State, l: Label)
    requires TableInv(s) && Enabled(s, l)
    ensures TableInv(Apply(s, l))
  {
    match l
    case AssignCommitted(cooperative, created, nativeOk, onError) =>
      CommitKeepsTable(s, cooperative, created, nativeOk, onError);
    case RevokeCommitted(cooperative, revoked, _, _) =>
      DroppingKeepsTable(s, cooperative, AsSet(revoked));
    case _ =>
  }

  lemma StepKeepsGenerations(s: State, l: Label)
    requires GenerationInv(s) && Enabled(s, l)
    ensures GenerationInv(Apply(s, l))
  {
    NextRevision(s.bumps);
    if l.AssignCommitted? && !s.ownerCancelled && l.nativeOk {
      CommitIsCommitted(s, l);
      CommittedKeepsGenerations(s, Apply(s, l), l.created);
    } else {
      assert forall x :: x in s.issued && Dated(s, x.1) ==> Dated(Apply(s, l), x.1);
    }
  }

  lemma StepKeepsFailure(s: State, l: Label)
    requires FailureInv(s) && Enabled(s, l)
    ensures FailureInv(Apply(s, l))
  {
    if l.FailCancels? {
      assert forall p :: p in s.partitions ==> s.partitions[p].ctx in Contexts(s.partitions, s.partitions.Keys);
    }
  }

  lemma StepKeepsInv(s: State, l: Label)
    requires Inv(s) && Enabled(s, l)
    ensures Inv(Apply(s, l))
  {
    StepKeepsTable(s, l);
    StepKeepsGenerations(s, l);
    StepKeepsFailure(s, l);
  }

  lemma RunsKeepInv(ls: seq<Label>)
    requires Feasible(ls)
    ensures Inv(After(ls))
  {
    forall s, l | Inv(s) && Step(s, l).Some? ensures Inv(Step(s, l).value) { StepKeepsInv(s, l); }
    Invariant(Step, Inv, Initial, ls);
  }

  // ---- What holds in every run ----

  /** In every reachable state a context ever issued is in force for its partition or cancelled. */
  lemma IssuedIsCurrentOrCancelled(ls: seq<Label>, p: Partition, e: Entry)
    requires Feasible(ls) && (p, e) in After(ls).issued
    ensures IsCancelled(After(ls), e.ctx) || (p in After(ls).partitions && After(ls).partitions[p] == e)
  {
    RunsKeepInv(ls);
  }

  // ---- Fencing ----

  ghost predicate Untouched(s: State, s': State, p: Partition)
    requires p in s.partitions
  {
    p in s'.partitions && s'.partitions[p] == s.partitions[p]
  }

  /** The entry of `p` was made by change number `m`. */
  ghost predicate MadeBy(s: State, p: Partition, m: nat) {
    p in s.partitions && s.partitions[p].ctx in s.made && s.made[s.partitions[p].ctx] == m
  }

  /** The assignment of `p` made by change `m` is over: an entry of `p` is of a later change. */
  ghost predicate Passed(s: State, p: Partition, m: nat) {
    m <= s.bumps && (p in s.partitions ==> s.partitions[p].ctx in s.made && s.made[s.partitions[p].ctx] > m)
  }

  /** What an entry keeps when its table entry and its date stay. */
  ghost predicate Stays(s: State, s': State, p: Partition, m: nat) {
    p in s.partitions && p in s'.partitions && s'.partitions[p] == s.partitions[p] && MadeBy(s', p, m)
  }

  lemma CommittedOutlives(s: State, s': State, created: seq<Ctx>, p: Partition, m: nat)
    requires TableInv(s) && GenerationInv(s) && Committed(s, s', created) && m <= s.bumps
    ensures Passed(s, p, m) ==> Passed(s', p, m)
    ensures MadeBy(s, p, m) ==> Passed(s', p, m) || Stays(s, s', p, m)
  {
    if p in s'.partitions && s'.partitions[p].ctx !in created {
      assert (p, s.partitions[p]) in s.issued && Dated(s, s.partitions[p]);
    }
  }

  /** A step leaves the entry of an assignment alone or ends the assignment for good. */
  lemma StepOutlives(s: State, l: Label, p: Partition, m: nat)
    requires TableInv(s) && GenerationInv(s) && Enabled(s, l) && m <= s.bumps
    ensures Passed(s, p, m) ==> Passed(Apply(s, l), p, m)
    ensures MadeBy(s, p, m) ==> Passed(Apply(s, l), p, m) || Stays(s, Apply(s, l), p, m)
    ensures s.bumps <= Apply(s, l).bumps
  {
    if l.AssignCommitted? && !s.ownerCancelled && l.nativeOk {
      CommitIsCommitted(s, l);
      CommittedOutlives(s, Apply(s, l), l.created, p, m);
    }
  }

  lemma StepKeepsDates(s: State, l: Label, x: (Partition, Entry))
    requires GenerationInv(s) && Enabled(s, l) && x in s.issued
    ensures x in Apply(s, l).issued && Dated(s, x.1)
    ensures x.1.ctx in Apply(s, l).made && Apply(s, l).made[x.1.ctx] == s.made[x.1.ctx]
  {
    assert Dated(s, x.1);
    if l.AssignCommitted? && !s.ownerCancelled && l.nativeOk { CommitIsCommitted(s, l); }
  }

  /** The date of an issued entry never changes. */
  lemma {:induction false} DatesStay(ls: seq<Label>, i: nat, x: (Partition, Entry))
    requires Feasible(ls) && i <= |ls| && Feasible(ls[..i]) && x in After(ls[..i]).issued
    ensures x in After(ls).issued && x.1.ctx in After(ls).made && x.1.ctx in After(ls[..i]).made
    ensures After(ls).made[x.1.ctx] == After(ls[..i]).made[x.1.ctx]
  {
    if i == |ls| {
      assert ls[..i] == ls;
      RunsKeepInv(ls);
      assert Dated(After(ls), x.1);
    } else {
      var pre := ls[..|ls| - 1];
      assert pre[..i] == ls[..i];
      DatesStay(pre, i, x);
      RunsKeepInv(pre);
      StepKeepsDates(After(pre), ls[|ls| - 1], x);
    }
  }

  /** The number of the change that made the entry of `p`. */
  ghost function Made(ls: seq<Label>, p: Partition): nat
    requires Feasible(ls) && p in After(ls).partitions
  {
    RunsKeepInv(ls);
    assert (p, After(ls).partitions[p]) in After(ls).issued && Dated(After(ls), After(ls).partitions[p]);
    After(ls).made[After(ls).partitions[p].ctx]
  }

  /** From any point of a run on, an assignment is still in force or passed for good. */
  lemma {:induction false} GenerationOutlives(ls: seq<Label>, i: nat, p: Partition)
    requires Feasible(ls) && i <= |ls| && Feasible(ls[..i]) && p in After(ls[..i]).partitions
    ensures Made(ls[..i], p) <= After(ls).bumps
    ensures || Passed(After(ls), p, Made(ls[..i], p))
            || (Untouched(After(ls[..i]), After(ls), p) && MadeBy(After(ls), p, Made(ls[..i], p)))
  {
    RunsKeepInv(ls[..i]);
    assert (p, After(ls[..i]).partitions[p]) in After(ls[..i]).issued;
    assert Dated(After(ls[..i]), After(ls[..i]).partitions[p]);
    if i == |ls| {
      assert ls[..i] == ls;
    } else {
      var pre := ls[..|ls| - 1];
      assert pre[..i] == ls[..i];
      GenerationOutlives(pre, i, p);
      RunsKeepInv(pre);
      StepOutlives(After(pre), ls[|ls| - 1], p, Made(ls[..i], p));
    }
  }

  lemma {:induction false} PassedStaysPassed(ls: seq<Label>, i: nat, p: Partition, m: nat)
    requires Feasible(ls) && i <= |ls| && Feasible(ls[..i]) && Passed(After(ls[..i]), p, m)
    ensures Passed(After(ls), p, m)
  {
    if i == |ls| {
      assert ls[..i] == ls;
    } else {
      var pre := ls[..|ls| - 1];
      assert pre[..i] == ls[..i];
      PassedStaysPassed(pre, i, p, m);
      RunsKeepInv(pre);
      StepOutlives(After(pre), ls[|ls| - 1], p, m);
    }
  }

  lemma StepKeepsCancelled(s: State, l: Label, c: Ctx)
    requires Enabled(s, l) && IsCancelled(s, c)
    ensures IsCancelled(Apply(s, l), c)
  {
  }

  lemma {:induction false} CancelledStaysCancelled(ls: seq<Label>, i: nat, c: Ctx)
    requires Feasible(ls) && i <= |ls| && Feasible(ls[..i]) && IsCancelled(After(ls[..i]), c)
    ensures IsCancelled(After(ls), c)
  {
    if i == |ls| {
      assert ls[..i] == ls;
    } else {
      var pre := ls[..|ls| - 1];
      assert pre[..i] == ls[..i];
      CancelledStaysCancelled(pre, i, c);
      StepKeepsCancelled(After(pre), ls[|ls| - 1], c);
    }
  }

  /** The entries of one partition at two points of a run are the same exactly when the same
      change made them, and the later one is never of an earlier change. */
  lemma SameChangeSameEntry(ls: seq<Label>, i: nat, p: Partition)
    requires Feasible(ls) && i <= |ls| && Feasible(ls[..i])
    requires p in After(ls[..i]).partitions && p in After(ls).partitions
    ensures Made(ls[..i], p) <= Made(ls, p)
    ensures Made(ls[..i], p) == Made(ls, p) <==> Untouched(After(ls[..i]), After(ls), p)
  {
    GenerationOutlives(ls, i, p);
    RunsKeepInv(ls[..i]);
    DatesStay(ls, i, (p, After(ls[..i]).partitions[p]));
  }

  lemma SameGeneration(a: nat, b: nat)
    requires a <= b
    ensures a % U64 == b % U64 <==> exists n: nat :: b == a + n * U64
  {
    if a % U64 == b % U64 {
      assert b == a + (b / U64 - a / U64) * U64;
    }
    forall n: nat | b == a + n * U64 ensures a % U64 == b % U64 {
      Turns(a, n);
    }
  }

  lemma {:induction false} Turns(a: nat, n: nat)
    ensures (a + n * U64) % U64 == a % U64
  {
    if n > 0 { Turns(a, n - 1); }
  }

  lemma MadeDates(ls: seq<Label>, p: Partition)
    requires Feasible(ls) && p in After(ls).partitions
    ensures After(ls).partitions[p].generation == Made(ls, p) % U64 && Made(ls, p) <= After(ls).bumps
  {
    RunsKeepInv(ls);
    assert (p, After(ls).partitions[p]) in After(ls).issued;
    assert Dated(After(ls), After(ls).partitions[p]);
  }

  /** Exactly which stamps are accepted: those of the entry in force and, when it is uncancelled
      and nothing has failed, those of entries made a multiple of 2^64 changes before it. */
  lemma AcknowledgedExactly(ls: seq<Label>, i: nat, p: Partition)
    requires Feasible(ls) && i <= |ls| && Feasible(ls[..i]) && p in After(ls[..i]).partitions
    ensures var g := After(ls[..i]).partitions[p].generation;
            Enabled(After(ls), Acknowledged(p, g)) <==>
              && p in After(ls).partitions && !After(ls).failed
              && !IsCancelled(After(ls), After(ls).partitions[p].ctx)
              && exists n: nat :: Made(ls, p) == Made(ls[..i], p) + n * U64
  {
    MadeDates(ls[..i], p);
    if p in After(ls).partitions {
      MadeDates(ls, p);
      SameChangeSameEntry(ls, i, p);
      SameGeneration(Made(ls[..i], p), Made(ls, p));
    }
  }

  /** A stamp is accepted under another assignment only when the changes that made the two are a
      positive multiple of 2^64 apart. */
  lemma StaleOnlyAfterWrap(ls: seq<Label>, i: nat, p: Partition) returns (n: nat)
    requires Feasible(ls) && i <= |ls| && Feasible(ls[..i]) && p in After(ls[..i]).partitions
    requires Enabled(After(ls), Acknowledged(p, After(ls[..i]).partitions[p].generation))
    requires !Untouched(After(ls[..i]), After(ls), p)
    ensures n > 0 && Made(ls, p) == Made(ls[..i], p) + n * U64 <= After(ls).bumps
  {
    AcknowledgedExactly(ls, i, p);
    n :| Made(ls, p) == Made(ls[..i], p) + n * U64;
    SameChangeSameEntry(ls, i, p);
    MadeDates(ls, p);
  }

  /** An acknowledgement stamped with a generation takes effect only if the assignment has
      been in force, uncancelled, at every moment since the stamp: for any mix of eager and
      cooperative assigns and revokes, as long as fewer than 2^64 changes have followed the one
      that made the assignment. */
  lemma AcknowledgedMeansUninterrupted(ls: seq<Label>, i: nat, k: nat, p: Partition)
    requires Feasible(ls) && i <= k <= |ls| && Feasible(ls[..i])
    requires Enabled(After(ls[..i]), Stamped(p)) && After(ls).bumps < Made(ls[..i], p) + U64
    requires Enabled(After(ls), Acknowledged(p, After(ls[..i]).partitions[p].generation))
    ensures Feasible(ls[..k]) && Untouched(After(ls[..i]), After(ls[..k]), p)
    ensures !IsCancelled(After(ls[..k]), After(ls[..i]).partitions[p].ctx)
  {
    var entry, m := After(ls[..i]).partitions[p], Made(ls[..i], p);
    if !Untouched(After(ls[..i]), After(ls), p) {
      var n := StaleOnlyAfterWrap(ls, i, p);
    }
    Prefix(Step, Initial, ls, k);
    assert ls[..k][..i] == ls[..i];
    GenerationOutlives(ls[..k], i, p);
    SameChangeSameEntry(ls, i, p);
    if Passed(After(ls[..k]), p, m) { PassedStaysPassed(ls, k, p, m); }
    if IsCancelled(After(ls[..k]), entry.ctx) { CancelledStaysCancelled(ls, k, entry.ctx); }
  }

  // ---- Failure ----

  /** A failure has cancelled the contexts and no acknowledgement can get through any more. */
  predicate Shut(s: State) {
    s.failed || (s.callback.Fenced? && forall p :: p in s.partitions ==> s.partitions[p].ctx in s.cancelled)
  }

  lemma StepKeepsShut(s: State, l: Label)
    requires Enabled(s, l) && Shut(s)
    ensures Shut(Apply(s, l)) && !l.Acknowledged?
  {
  }

  lemma {:induction false} ShutStaysShut(ls: seq<Label>, i: nat)
    requires Feasible(ls) && i <= |ls| && Feasible(ls[..i]) && Shut(After(ls[..i]))
    ensures Shut(After(ls))
  {
    if i == |ls| {
      assert ls[..i] == ls;
    } else {
      var pre := ls[..|ls| - 1];
      assert pre[..i] == ls[..i];
      ShutStaysShut(pre, i);
      StepKeepsShut(After(pre), ls[|ls| - 1]);
    }
  }

  lemma CancelShuts(s: State, l: Label)
    requires Enabled(s, l) && l.FailCancels?
    ensures Shut(Apply(s, l))
  {
    assert forall p :: p in s.partitions ==> s.partitions[p].ctx in Contexts(s.partitions, s.partitions.Keys);
  }

  /** Once `fail` has cancelled the contexts, no acknowledgement ever succeeds again, not even
      before the failure token is raised. */
  lemma FailureFencesEverything(ls: seq<Label>, i: nat, j: nat)
    requires Feasible(ls) && i < j < |ls| && ls[i].FailCancels?
    ensures !ls[j].Acknowledged?
  {
    Prefix(Step, Initial, ls, j);
    Prefix(Step, Initial, ls, i);
    CancelShuts(After(ls[..i]), ls[i]);
    assert ls[..j][..i + 1] == ls[..i + 1];
    ShutStaysShut(ls[..j], i + 1);
    StepKeepsShut(After(ls[..j]), ls[j]);
  }

  lemma OnlyOthersBeforeCancel(s: State, l: Label)
    requires s.callback.Recorded? && Enabled(s, l) && !l.FailCancels?
    ensures l.Stamped? || l.Acknowledged? || l.OwnerCancelled?
    ensures Apply(s, l) == s.(ownerCancelled := s.ownerCancelled || l.OwnerCancelled?)
  {
  }

  /** Recording the error alone fences nothing: until the contexts are cancelled, exactly the
      stamps that were accepted before the record still are, unless the owner is cancelled. */
  lemma {:induction false} RecordFencesNothing(ls: seq<Label>, i: nat, p: Partition, g: nat)
    requires Feasible(ls) && i < |ls| && ls[i].FailRecords? && Feasible(ls[..i])
    requires forall k :: i < k < |ls| ==> !ls[k].FailCancels?
    ensures After(ls).callback.Recorded? && (After(ls[..i]).ownerCancelled ==> After(ls).ownerCancelled)
    ensures Enabled(After(ls), Acknowledged(p, g)) <==>
              Enabled(After(ls[..i]), Acknowledged(p, g)) && !After(ls).ownerCancelled
  {
    var pre, last := ls[..|ls| - 1], ls[|ls| - 1];
    assert Step(After(pre), last) == Some(After(ls));
    if i < |ls| - 1 {
      assert pre[..i] == ls[..i];
      RecordFencesNothing(pre, i, p, g);
      OnlyOthersBeforeCancel(After(pre), last);
    } else {
      assert pre == ls[..i];
    }
  }

  // ---- What a rebalance does to the table ----

  predicate IsItem(r: Request, p: Partition) {
    exists i :: 0 <= i < |r.items| && r.items[i].partition == p
  }

  /** Exactly the entries of which `stays` is false are gone, and exactly their contexts have been
      cancelled; the others are untouched. */
  ghost predicate Took(s: State, s': State, stays: Partition -> bool) {
    && (forall p :: p in s.partitions && stays(p) ==> p in s'.partitions && s'.partitions[p] == s.partitions[p])
    && (forall p :: p in s.partitions && !stays(p) ==> s.partitions[p].ctx in s'.cancelled)
    && s.cancelled <= s'.cancelled
    && (forall c :: c in s'.cancelled && c !in s.cancelled ==>
          exists p :: p in s.partitions && !stays(p) && s.partitions[p].ctx == c)
  }

  /** A revoke leaves the partitions that are not listed under the cooperative protocol, and
      nothing under the eager one. */
  ghost predicate Revoked(s: State, s': State, cooperative: bool, ps: seq<Partition>) {
    && Took(s, s', (p: Partition) => cooperative && p !in ps)
    && forall p :: p in s'.partitions <==> p in s.partitions && cooperative && p !in ps
  }

  /** An assign replaces its items, all in one new generation with contexts never issued before;
      the cooperative protocol leaves the other entries, the eager one nothing. */
  ghost predicate Assigned(s: State, s': State, r: Request, cooperative: bool, nativeOk: bool) {
    && Took(s, s', (p: Partition) => cooperative && !IsItem(r, p))
    && (forall p :: p in s'.partitions <==>
          (nativeOk && IsItem(r, p)) || (p in s.partitions && cooperative && !IsItem(r, p)))
    && (nativeOk ==> forall p :: IsItem(r, p) ==>
          && s'.partitions[p].generation == (s.revision + 1) % U64
          && s'.partitions[p].ctx !in s'.cancelled && forall x :: x in s.issued ==> x.1.ctx != s'.partitions[p].ctx)
  }

  lemma DroppingTakes(s: State, cooperative: bool, ps: seq<Partition>)
    ensures Took(s, Dropping(s, cooperative, AsSet(ps)), (p: Partition) => cooperative && p !in ps)
    ensures forall p :: p in Dropping(s, cooperative, AsSet(ps)).partitions <==>
              p in s.partitions && cooperative && p !in ps
  {
    var d, out := Dropping(s, cooperative, AsSet(ps)), if cooperative then AsSet(ps) else s.partitions.Keys;
    assert forall p :: p in s.partitions && p in out ==> s.partitions[p].ctx in Contexts(s.partitions, out);
  }

  /** What a revoke does, whatever the native call answers. */
  lemma RevokeTakesAway(s: State, l: Label)
    requires Enabled(s, l) && l.RevokeCommitted?
    ensures Revoked(s, Apply(s, l), l.cooperative, l.revoked)
    ensures Apply(s, l).callback == if l.nativeOk then Idle else Failing(l.onError)
    ensures Apply(s, l).bumps == s.bumps + if l.nativeOk then 1 else 0
  {
    DroppingTakes(s, l.cooperative, l.revoked);
  }

  lemma TargetsAreItems(r: Request, p: Partition)
    ensures p in Targets(r) <==> IsItem(r, p)
  {
    var targets := Targets(r);
    if p in targets {
      var i :| 0 <= i < |targets| && targets[i] == p;
      assert r.items[i].partition == p;
    }
    if IsItem(r, p) {
      var i :| 0 <= i < |r.items| && r.items[i].partition == p;
      assert targets[i] == p;
    }
  }

  lemma ItemsTake(s: State, r: Request, cooperative: bool)
    ensures Took(s, Dropping(s, cooperative, AsSet(Targets(r))), (p: Partition) => cooperative && !IsItem(r, p))
  {
    var ps := Targets(r);
    DroppingTakes(s, cooperative, ps);
    forall p ensures p in ps <==> IsItem(r, p) { TargetsAreItems(r, p); }
    var d := Dropping(s, cooperative, AsSet(ps));
    forall c | c in d.cancelled && c !in s.cancelled
      ensures exists p :: p in s.partitions && !(cooperative && !IsItem(r, p)) && s.partitions[p].ctx == c
    {
      var p :| p in s.partitions && !(cooperative && p !in ps) && s.partitions[p].ctx == c;
    }
  }

  lemma TookMore(s: State, d: State, s': State, stays: Partition -> bool)
    requires Took(s, d, stays) && s'.cancelled == d.cancelled
    requires forall p :: p in d.partitions && stays(p) ==> p in s'.partitions && s'.partitions[p] == d.partitions[p]
    ensures Took(s, s', stays)
  {
  }

  lemma CommitHas(s: State, l: Label, p: Partition)
    requires l.AssignCommitted? && Enabled(s, l) && !s.ownerCancelled && l.nativeOk
    ensures p in Apply(s, l).partitions <==>
              IsItem(s.callback.request, p) || (p in s.partitions && l.cooperative && !IsItem(s.callback.request, p))
    ensures p in s.partitions && l.cooperative && !IsItem(s.callback.request, p) ==>
              p in Apply(s, l).partitions && Apply(s, l).partitions[p] == s.partitions[p]
    ensures IsItem(s.callback.request, p) ==>
              && p in Apply(s, l).partitions && Apply(s, l).partitions[p].generation == (s.revision + 1) % U64
              && Apply(s, l).partitions[p].ctx in l.created
  {
    var r := s.callback.request;
    var ps := Targets(r);
    TargetsAreItems(r, p);
    DropsOne(s, l.cooperative, ps, p);
    InsertsOne(Dropping(s, l.cooperative, AsSet(ps)).partitions, ps, (s.revision + 1) % U64, l.created, p);
  }

  lemma DropsOne(s: State, cooperative: bool, ps: seq<Partition>, p: Partition)
    ensures var d := Dropping(s, cooperative, AsSet(ps));
            && (p in d.partitions <==> p in s.partitions && cooperative && p !in ps)
            && (p in d.partitions ==> d.partitions[p] == s.partitions[p])
  {
  }

  lemma InsertsOne(table: map<Partition, Entry>, ps: seq<Partition>, g: nat, created: seq<Ctx>, p: Partition)
    requires |ps| == |created|
    ensures var out := InsertAll(table, ps, g, created);
            && (p in out <==> p in ps || p in table)
            && (p in ps ==> out[p].generation == g && out[p].ctx in created)
            && (p in table && p !in ps ==> out[p] == table[p])
  {
    InsertAllEntries(table, ps, g, created);
  }

  /** What an assign does when its checks passed and the owner is not cancelled. */
  lemma AssignRebuilds(s: State, l: Label)
    requires TableInv(s) && Enabled(s, l) && l.AssignCommitted? && !s.ownerCancelled
    ensures Assigned(s, Apply(s, l), s.callback.request, l.cooperative, l.nativeOk)
    ensures Apply(s, l).callback == if l.nativeOk then Idle else Failing(l.onError)
    ensures Apply(s, l).bumps == s.bumps + if l.nativeOk then 1 else 0
  {
    var r, s' := s.callback.request, Apply(s, l);
    var d := Dropping(s, l.cooperative, AsSet(Targets(r)));
    ItemsTake(s, r, l.cooperative);
    if l.nativeOk {
      forall p ensures p in s'.partitions <==> IsItem(r, p) || (p in s.partitions && l.cooperative && !IsItem(r, p)) {
        CommitHas(s, l, p);
      }
      forall p | p in d.partitions && l.cooperative && !IsItem(r, p)
        ensures p in s'.partitions && s'.partitions[p] == d.partitions[p]
      {
        CommitHas(s, l, p);
      }
      TookMore(s, d, s', (p: Partition) => l.cooperative && !IsItem(r, p));
      forall p | IsItem(r, p)
        ensures && s'.partitions[p].generation == (s.revision + 1) % U64
                && s'.partitions[p].ctx !in s'.cancelled
                && forall x :: x in s.issued ==> x.1.ctx != s'.partitions[p].ctx
      {
        CommitHas(s, l, p);
        NewContext(s, l, s'.partitions[p].ctx);
      }
    } else {
      forall p ensures p in d.partitions <==> p in s.partitions && l.cooperative && !IsItem(r, p) {
        TargetsAreItems(r, p);
      }
    }
  }

  lemma NewContext(s: State, l: Label, c: Ctx)
    requires TableInv(s) && Enabled(s, l) && l.AssignCommitted? && !s.ownerCancelled && c in l.created
    ensures c !in Apply(s, l).cancelled && forall x :: x in s.issued ==> x.1.ctx != c
  {
    var ps := AsSet(Targets(s.callback.request));
    forall p | p in s.partitions ensures s.partitions[p].ctx != c { assert (p, s.partitions[p]) in s.issued; }
  }

  /** A stamp is refused after its partition was revoked, for the next 2^64 changes, whatever is
      assigned meanwhile. */
  lemma RevokedStampIsRefused(ls: seq<Label>, i: nat, k: nat, p: Partition)
    requires Feasible(ls) && i <= k < |ls| && Feasible(ls[..i]) && Enabled(After(ls[..i]), Stamped(p))
    requires ls[k].RevokeCommitted? && (!ls[k].cooperative || p in ls[k].revoked)
    requires After(ls).bumps < Made(ls[..i], p) + U64
    ensures !Enabled(After(ls), Acknowledged(p, After(ls[..i]).partitions[p].generation))
  {
    if Enabled(After(ls), Acknowledged(p, After(ls[..i]).partitions[p].generation)) {
      AcknowledgedMeansUninterrupted(ls, i, k + 1, p);
      Prefix(Step, Initial, ls, k);
      RevokeTakesAway(After(ls[..k]), ls[k]);
    }
  }

  lemma OwnerStaysCancelled(s: State, l: Label)
    requires Enabled(s, l) && s.ownerCancelled
    ensures Apply(s, l).ownerCancelled && !l.Acknowledged? && !l.Stamped?
  {
  }

  lemma {:induction false} OwnerCancelledAlong(ls: seq<Label>, i: nat)
    requires Feasible(ls) && i < |ls| && ls[i].OwnerCancelled?
    ensures After(ls).ownerCancelled
  {
    var pre := ls[..|ls| - 1];
    if i < |ls| - 1 {
      OwnerCancelledAlong(pre, i);
      OwnerStaysCancelled(After(pre), ls[|ls| - 1]);
    }
  }

  /** Once the owner is cancelled, nothing is stamped and nothing acknowledged. */
  lemma OwnerCancellationFences(ls: seq<Label>, i: nat, j: nat)
    requires Feasible(ls) && i < j < |ls| && ls[i].OwnerCancelled?
    ensures !ls[j].Acknowledged? && !ls[j].Stamped?
  {
    Prefix(Step, Initial, ls, j);
    OwnerCancelledAlong(ls[..j], i);
    OwnerStaysCancelled(After(ls[..j]), ls[j]);
  }

  // ---- What the records tell ----

  /** The step changes the assignment: natively assigned or unassigned. */
  predicate Changes(s: State, l: Label) {
    (l.AssignCommitted? && l.nativeOk && !s.ownerCancelled) || (l.RevokeCommitted? && l.nativeOk)
  }

  ghost function ChangesOf(ls: seq<Label>): nat
    requires Feasible(ls)
  {
    if |ls| == 0 then 0
    else ChangesOf(ls[..|ls| - 1]) + if Changes(After(ls[..|ls| - 1]), ls[|ls| - 1]) then 1 else 0
  }

  ghost function RecordedIn(ls: seq<Label>): seq<Error> {
    if |ls| == 0 then []
    else RecordedIn(ls[..|ls| - 1]) + if ls[|ls| - 1].FailRecords? then [ls[|ls| - 1].recordedError] else []
  }

  ghost function TakenIn(ls: seq<Label>): seq<Error> {
    if |ls| == 0 then []
    else
      var l := ls[|ls| - 1];
      TakenIn(ls[..|ls| - 1]) + if l.ErrorTaken? && l.found.Some? then [l.found.value] else []
  }

  ghost function NativeAssignsIn(ls: seq<Label>): seq<Request>
    requires Feasible(ls)
  {
    if |ls| == 0 then []
    else
      var (s, l) := (After(ls[..|ls| - 1]), ls[|ls| - 1]);
      NativeAssignsIn(ls[..|ls| - 1])
      + if l.AssignCommitted? && s.callback.Planned? && !s.ownerCancelled then [s.callback.request] else []
  }

  lemma StepTells(s: State, l: Label)
    requires Enabled(s, l)
    ensures var s' := Apply(s, l);
            && s'.bumps == s.bumps + (if Changes(s, l) then 1 else 0)
            && s'.recorded == s.recorded + (if l.FailRecords? then [l.recordedError] else [])
            && s'.taken == s.taken + (if l.ErrorTaken? && l.found.Some? then [l.found.value] else [])
            && s'.nativeAssigns == s.nativeAssigns
                                   + (if l.AssignCommitted? && s.callback.Planned? && !s.ownerCancelled
                                      then [s.callback.request] else [])
  {
  }

  /** The records are what the run did: its changes, its errors and its native assigns. */
  lemma {:induction false} RecordsAreTold(ls: seq<Label>)
    requires Feasible(ls)
    ensures After(ls).bumps == ChangesOf(ls) && After(ls).nativeAssigns == NativeAssignsIn(ls)
    ensures After(ls).recorded == RecordedIn(ls) && After(ls).taken == TakenIn(ls)
  {
    if |ls| > 0 {
      RecordsAreTold(ls[..|ls| - 1]);
      StepTells(After(ls[..|ls| - 1]), ls[|ls| - 1]);
    }
  }

  /** A failed restore performs no native assign: every one of the run was fully restorable. */
  lemma NativeAssignIsRestorable(ls: seq<Label>, i: nat)
    requires Feasible(ls) && i < |NativeAssignsIn(ls)|
    ensures Restorable(NativeAssignsIn(ls)[i])
  {
    RecordsAreTold(ls);
    RunsKeepInv(ls);
  }

  /** The first error taken in a run is the first one recorded. */
  lemma FirstErrorIsTakenFirst(ls: seq<Label>)
    requires Feasible(ls) && |TakenIn(ls)| > 0
    ensures |RecordedIn(ls)| > 0 && TakenIn(ls)[0] == RecordedIn(ls)[0]
  {
    RecordsAreTold(ls);
    RunsKeepInv(ls);
  }
}
