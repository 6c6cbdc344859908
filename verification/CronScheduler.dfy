/** The local scheduler: one loop that sleeps until the earliest occurrence, reads the clock and
    catches every due job up, while the runs it started proceed on their own. */
module CronScheduler {
  import opened Runs
  import opened CronSchedule

  // `origin` is the first occurrence, computed when the source was started at `start`.
  datatype Job = Job(schedule: Schedule, skipOverlap: bool, fireOnce: bool, start: int, origin: int)

  datatype Config = Config(range: Range, jobs: seq<Job>)

  // One catch-up of a job. Occurrences `from`..`k` were due at the reading; `at` is number `k`.
  // `fired` tells that it was dispatched, and `run` that the dispatch accepted it.
  datatype Tick = Tick(from: nat, k: nat, at: int, reading: int, fired: bool, run: Option<nat>)

  datatype Task = Task(job: nat, ended: bool)

  datatype Mode = Looping | Draining | Returned | Failed

  // `tasks` is the join set; a task stays in it, ended or not, until it is joined.
  datatype State = State(
    next: seq<int>, running: seq<bool>, tasks: map<nat, Task>, issued: nat, ownerCancelled: bool, mode: Mode,
    ticks: seq<seq<Tick>>, ended: set<nat>, aborted: set<nat>)

  datatype Label =
    | Caught(j: nat, now: int)
    | OwnerCancels
    | Ended(id: nat)
    | Joined(id: nat)
    | Cancelled
    | Drained

  ghost predicate Starts(r: Range, job: Job) {
    Rising(job.schedule) && Next(r, job.schedule, job.start) == Some(job.origin)
  }

  ghost predicate WellFormed(c: Config) {
    forall j :: 0 <= j < |c.jobs| ==> Starts(c.range, c.jobs[j])
  }

  function Initial(c: Config): State {
    State(seq(|c.jobs|, j requires 0 <= j < |c.jobs| => c.jobs[j].origin), seq(|c.jobs|, _ => false),
          map[], 0, false, Looping, seq(|c.jobs|, _ => []), {}, {})
  }

  predicate Shaped(c: Config, s: State) {
    |s.next| == |c.jobs| && |s.running| == |c.jobs| && |s.ticks| == |c.jobs|
  }

  ghost predicate Enabled(c: Config, s: State, l: Label) {
    WellFormed(c) && Shaped(c, s) &&
    match l
    case Caught(j, now) => s.mode == Looping && j < |c.jobs| && s.next[j] <= now && InRange(c.range, now)
    case OwnerCancels => !s.ownerCancelled
    case Ended(id) => id in s.tasks && !s.tasks[id].ended && s.tasks[id].job < |c.jobs|
    case Joined(id) => s.mode in {Looping, Draining} && id in s.tasks && s.tasks[id].ended
    case Cancelled => s.mode == Looping
    case Drained => s.mode == Draining && s.tasks == map[]
  }

  function Live(tasks: map<nat, Task>): set<nat> {
    set id | id in tasks && !tasks[id].ended
  }

  function Count(ticks: seq<Tick>): nat {
    if |ticks| == 0 then 0 else ticks[|ticks| - 1].k + 1
  }

  /** The number of occurrences by which `latest` lies after `first`. */
  ghost function Skipped(r: Range, s: Schedule, first: int, now: int, due: Due): (k: nat)
    requires Rising(s) && first <= now && Stepped(r, s, first, now) == Some(due)
    ensures InForce(r, s, first, now, due.latest, due.next, k) && due.missed == (k > 0)
  {
    SteppedIsInForce(r, s, first, now, due);
    var k: nat :| InForce(r, s, first, now, due.latest, due.next, k) && due.missed == (k > 0);
    k
  }

  ghost function Catch(c: Config, s: State, j: nat, now: int): State
    requires Enabled(c, s, Caught(j, now))
  {
    var job := c.jobs[j];
    match Stepped(c.range, job.schedule, s.next[j], now)
    case None =>
      // The error leaves the loop; dropping the join set aborts what it holds.
      s.(mode := Failed, tasks := map[], aborted := s.aborted + Live(s.tasks), running := seq(|s.running|, _ => false))
    case Some(due) =>
      var fired := !due.missed || job.fireOnce;
      var accepted := fired && !s.ownerCancelled && !(job.skipOverlap && s.running[j]);
      var from := Count(s.ticks[j]);
      var tick := Tick(from, from + Skipped(c.range, job.schedule, s.next[j], now, due), due.latest, now, fired,
                       if accepted then Some(s.issued) else None);
      var t := s.(next := s.next[j := due.next], ticks := s.ticks[j := s.ticks[j] + [tick]]);
      if !accepted then t
      else t.(tasks := s.tasks[s.issued := Task(j, false)], issued := s.issued + 1,
              running := if job.skipOverlap then s.running[j := true] else s.running)
  }

  ghost function Apply(c: Config, s: State, l: Label): State
    requires Enabled(c, s, l)
  {
    match l
    case Caught(j, now) => Catch(c, s, j, now)
    case OwnerCancels => s.(ownerCancelled := true)
    case Ended(id) =>
      var j := s.tasks[id].job;
      s.(tasks := s.tasks[id := Task(j, true)], ended := s.ended + {id},
         running := if c.jobs[j].skipOverlap then s.running[j := false] else s.running)
    case Joined(id) => s.(tasks := s.tasks - {id})
    case Cancelled => s.(mode := if |c.jobs| == 0 then Returned else Draining)
    case Drained => s.(mode := Returned)
  }

  ghost function Stepper(c: Config): (State, Label) -> Option<State> {
    (s, l) => if Enabled(c, s, l) then Some(Apply(c, s, l)) else None
  }

  ghost predicate Feasible(c: Config, ls: seq<Label>) {
    Run(Stepper(c), Initial(c), ls).Some?
  }

  ghost function After(c: Config, ls: seq<Label>): State
    requires Feasible(c, ls)
  {
    Run(Stepper(c), Initial(c), ls).value
  }

  // ---- One job's occurrences ----

  lemma {:induction false} NthFrom(r: Range, s: Schedule, first: int, i: nat, k: nat)
    requires Nth(r, s, first, i).Some?
    ensures Nth(r, s, first, i + k) == Nth(r, s, Nth(r, s, first, i).value, k)
    decreases i
  {
    if i > 0 { NthFrom(r, s, Next(r, s, first).value, i - 1, k); }
  }

  /** The tick is at occurrence `k`, the last one not later than its reading. */
  ghost predicate AtLatest(r: Range, job: Job, t: Tick) {
    exists n :: InForce(r, job.schedule, job.origin, t.reading, t.at, n, t.k)
  }

  /** The catch-up numbered `i` continues where the one before it ended, answers with the
      occurrence in force at its reading, and fires by the missed-run policy. */
  ghost predicate TickFits(r: Range, job: Job, ticks: seq<Tick>, i: nat)
    requires i < |ticks|
  {
    var t := ticks[i];
    t.from == Count(ticks[..i]) && t.from <= t.k
    && AtLatest(r, job, t)
    && (t.fired <==> t.k == t.from || job.fireOnce)
    && (t.run.Some? ==> t.fired)
  }

  ghost predicate JobInv(r: Range, job: Job, next: int, ticks: seq<Tick>) {
    Nth(r, job.schedule, job.origin, Count(ticks)) == Some(next)
    && (job.schedule.Interval? ==> Aligned(next) && InRange(r, next))
    && forall i :: 0 <= i < |ticks| ==> TickFits(r, job, ticks, i)
  }

  lemma IntervalNext(r: Range, s: Schedule, t: int)
    requires s.Interval? && Next(r, s, t).Some?
    ensures Aligned(Next(r, s, t).value) && InRange(r, Next(r, s, t).value)
  {
    FloorLaws(FloorMs(t) + s.ms, 0);
  }

  lemma TickKeepsJob(r: Range, job: Job, next: int, ticks: seq<Tick>, now: int, due: Due, tick: Tick)
    requires Starts(r, job) && JobInv(r, job, next, ticks) && next <= now
    requires Stepped(r, job.schedule, next, now) == Some(due)
    requires tick.from == Count(ticks) && tick.k == tick.from + Skipped(r, job.schedule, next, now, due)
    requires tick.at == due.latest && tick.reading == now && tick.fired == (!due.missed || job.fireOnce)
    requires tick.run.Some? ==> tick.fired
    ensures JobInv(r, job, due.next, ticks + [tick])
  {
    var s := job.schedule;
    var from, k := Count(ticks), Skipped(r, s, next, now, due);
    NthFrom(r, s, job.origin, from, k);
    NthFrom(r, s, job.origin, from, k + 1);
    assert InForce(r, s, job.origin, now, tick.at, due.next, tick.k);
    NthFrom(r, s, next, k, 1);
    assert Next(r, s, due.latest) == Some(due.next) by {
      assert Nth(r, s, due.latest, 1) == Some(due.next);
    }
    if s.Interval? { IntervalNext(r, s, due.latest); }
    var all := ticks + [tick];
    forall i | 0 <= i < |all| ensures TickFits(r, job, all, i) {
      assert all[..i] == ticks[..i];
      if i < |ticks| {
        assert TickFits(r, job, ticks, i);
      } else {
        assert all[..i] == ticks;
      }
    }
  }

  // ---- Invariant ----

  ghost predicate Jobs(c: Config, s: State) {
    Shaped(c, s) && forall j :: 0 <= j < |c.jobs| ==> JobInv(c.range, c.jobs[j], s.next[j], s.ticks[j])
  }

  predicate IsLive(s: State, id: nat) {
    id in s.tasks && !s.tasks[id].ended
  }

  /** The overlap flag of a job says exactly that a run of it is live, and then it is the only one. */
  ghost predicate Flag(c: Config, s: State, j: nat)
    requires j < |c.jobs| && Shaped(c, s)
  {
    c.jobs[j].skipOverlap ==>
      (forall id :: IsLive(s, id) && s.tasks[id].job == j ==> s.running[j])
      && (s.running[j] ==> exists id :: IsLive(s, id) && s.tasks[id].job == j)
      && (forall a, b :: IsLive(s, a) && IsLive(s, b) && s.tasks[a].job == j && s.tasks[b].job == j ==> a == b)
  }

  ghost predicate Flags(c: Config, s: State) {
    Shaped(c, s) && forall j: nat :: j < |c.jobs| ==> Flag(c, s, j)
  }

  /** Every accepted run is live, ended or aborted, and only one of these. */
  ghost predicate Owned(c: Config, s: State) {
    (forall id :: id in s.tasks ==> id < s.issued && s.tasks[id].job < |c.jobs|)
    && (forall id :: id in s.tasks && s.tasks[id].ended ==> id in s.ended)
    && (forall id :: IsLive(s, id) ==> id !in s.ended && id !in s.aborted)
    && (forall id :: id in s.ended ==> id !in s.aborted && id < s.issued)
    && (forall id :: id in s.aborted ==> id < s.issued)
    && (forall id: nat :: id < s.issued ==> IsLive(s, id) || id in s.ended || id in s.aborted)
    && (s.mode != Failed ==> s.aborted == {})
    && (s.mode == Returned || s.mode == Failed ==> s.tasks == map[])
    && (|c.jobs| == 0 ==> s.issued == 0)
  }

  ghost predicate Inv(c: Config, s: State) {
    Jobs(c, s) && Flags(c, s) && Owned(c, s)
  }

  lemma StepKeepsJobs(c: Config, s: State, l: Label)
    requires Jobs(c, s) && Enabled(c, s, l)
    ensures Jobs(c, Apply(c, s, l))
  {
    if l.Caught? {
      var job, next := c.jobs[l.j], s.next[l.j];
      match Stepped(c.range, job.schedule, next, l.now)
      case None =>
      case Some(due) =>
        var t := Catch(c, s, l.j, l.now);
        var n := |s.ticks[l.j]|;
        var tick := t.ticks[l.j][n];
        TickKeepsJob(c.range, job, next, s.ticks[l.j], l.now, due, tick);
    }
  }

  lemma CatchKeepsFlag(c: Config, s: State, l: Label, j: nat)
    requires l.Caught? && Flags(c, s) && Owned(c, s) && Enabled(c, s, l) && j < |c.jobs|
    ensures Shaped(c, Apply(c, s, l)) && Flag(c, Apply(c, s, l), j)
  {
    var t := Apply(c, s, l);
    assert Flag(c, s, j);
    if c.jobs[j].skipOverlap && t.running[j] {
      if s.running[j] {
        var id :| IsLive(s, id) && s.tasks[id].job == j;
        assert IsLive(t, id);
      } else {
        assert IsLive(t, s.issued);
      }
    }
  }

  lemma StepKeepsFlag(c: Config, s: State, l: Label, j: nat)
    requires Flags(c, s) && Owned(c, s) && Enabled(c, s, l) && j < |c.jobs|
    ensures Shaped(c, Apply(c, s, l)) && Flag(c, Apply(c, s, l), j)
  {
    if l.Caught? {
      CatchKeepsFlag(c, s, l, j);
    } else {
      var t := Apply(c, s, l);
      assert Flag(c, s, j);
      if c.jobs[j].skipOverlap && t.running[j] {
        var id :| IsLive(s, id) && s.tasks[id].job == j;
        assert IsLive(t, id);
      }
    }
  }

  lemma StepKeepsRuns(c: Config, s: State, l: Label)
    requires Owned(c, s) && Enabled(c, s, l)
    ensures Owned(c, Apply(c, s, l))
  {
    var t := Apply(c, s, l);
    forall id: nat | id < t.issued ensures IsLive(t, id) || id in t.ended || id in t.aborted {
      assert id < s.issued ==> IsLive(s, id) || id in s.ended || id in s.aborted;
    }
  }

  lemma StepKeepsInv(c: Config, s: State, l: Label)
    requires Inv(c, s) && Enabled(c, s, l)
    ensures Inv(c, Apply(c, s, l))
  {
    StepKeepsJobs(c, s, l);
    StepKeepsRuns(c, s, l);
    forall j: nat | j < |c.jobs| ensures Flag(c, Apply(c, s, l), j) {
      StepKeepsFlag(c, s, l, j);
    }
  }

  lemma InitialInv(c: Config)
    requires WellFormed(c)
    ensures Inv(c, Initial(c))
  {
    forall j | 0 <= j < |c.jobs| ensures JobInv(c.range, c.jobs[j], c.jobs[j].origin, []) {
      assert Starts(c.range, c.jobs[j]);
      if c.jobs[j].schedule.Interval? { IntervalNext(c.range, c.jobs[j].schedule, c.jobs[j].start); }
    }
  }

  lemma RunsKeepInv(c: Config, ls: seq<Label>)
    requires WellFormed(c) && Feasible(c, ls)
    ensures Inv(c, After(c, ls))
  {
    InitialInv(c);
    forall s, l | Inv(c, s) && Stepper(c)(s, l).Some? ensures Inv(c, Stepper(c)(s, l).value) {
      StepKeepsInv(c, s, l);
    }
    Invariant(Stepper(c), s => Inv(c, s), Initial(c), ls);
  }

  // ---- Theorems ----

  ghost function Ticks(c: Config, ls: seq<Label>, j: nat): seq<Tick>
    requires WellFormed(c) && Feasible(c, ls) && j < |c.jobs|
  {
    RunsKeepInv(c, ls);
    After(c, ls).ticks[j]
  }

  lemma {:induction false} NumbersRise(r: Range, job: Job, next: int, ticks: seq<Tick>, a: nat, b: nat)
    requires JobInv(r, job, next, ticks) && a < b < |ticks|
    ensures ticks[a].k < ticks[b].from <= ticks[b].k
    decreases b
  {
    assert TickFits(r, job, ticks, b);
    if a < b - 1 { NumbersRise(r, job, next, ticks, a, b - 1); }
  }

  /** Whatever the clock does, each attempt of a job, the first one included, is at the last
      occurrence not later than its reading, and is dispatched exactly when it is the only one due
      or the policy is to fire once. */
  lemma AttemptIsLatest(c: Config, ls: seq<Label>, j: nat, b: nat)
    requires WellFormed(c) && Feasible(c, ls) && j < |c.jobs| && b < |Ticks(c, ls, j)|
    ensures
      var (job, t) := (c.jobs[j], Ticks(c, ls, j)[b]);
      && AtLatest(c.range, job, t)
      && t.from <= t.k && (t.fired <==> t.from == t.k || job.fireOnce) && (t.run.Some? ==> t.fired)
  {
    RunsKeepInv(c, ls);
    var job, ticks := c.jobs[j], After(c, ls).ticks[j];
    assert JobInv(c.range, job, After(c, ls).next[j], ticks);
    assert TickFits(c.range, job, ticks, b);
  }

  /** The attempted times of a job strictly increase, and no occurrence is due twice. */
  lemma AttemptsRise(c: Config, ls: seq<Label>, j: nat, a: nat, b: nat)
    requires WellFormed(c) && Feasible(c, ls) && j < |c.jobs| && a < b < |Ticks(c, ls, j)|
    ensures var ticks := Ticks(c, ls, j); ticks[a].at < ticks[b].at && ticks[a].k < ticks[b].from
  {
    RunsKeepInv(c, ls);
    var s := After(c, ls);
    var job, ticks := c.jobs[j], s.ticks[j];
    assert JobInv(c.range, job, s.next[j], ticks) && Starts(c.range, job);
    assert TickFits(c.range, job, ticks, a) && TickFits(c.range, job, ticks, b);
    NumbersRise(c.range, job, s.next[j], ticks, a, b);
    NthRises(c.range, job.schedule, job.origin, ticks[a].k, ticks[b].k);
  }

  predicate Covers(t: Tick, n: nat) {
    t.from <= n <= t.k
  }

  lemma {:induction false} SomeTickCovers(r: Range, job: Job, ticks: seq<Tick>, n: nat)
    requires (forall i :: 0 <= i < |ticks| ==> TickFits(r, job, ticks, i)) && n < Count(ticks)
    ensures exists i :: 0 <= i < |ticks| && Covers(ticks[i], n)
  {
    var last := |ticks| - 1;
    assert TickFits(r, job, ticks, last);
    if n < ticks[last].from {
      var pre := ticks[..last];
      forall i | 0 <= i < |pre| ensures TickFits(r, job, pre, i) {
        assert TickFits(r, job, ticks, i) && pre[..i] == ticks[..i];
      }
      SomeTickCovers(r, job, pre, n);
      var i :| 0 <= i < |pre| && Covers(pre[i], n);
      assert Covers(ticks[i], n);
    } else {
      assert Covers(ticks[last], n);
    }
  }

  /** Every occurrence before the pending one was due in exactly one catch-up: none is lost and
      none is considered twice, whichever way the clock jumped. */
  lemma OccurrencesArePartitioned(c: Config, ls: seq<Label>, j: nat, n: nat)
    requires WellFormed(c) && Feasible(c, ls) && j < |c.jobs|
    ensures
      var ticks := Ticks(c, ls, j);
      (n < Count(ticks) <==> exists i :: 0 <= i < |ticks| && Covers(ticks[i], n))
      && forall a, b :: 0 <= a < |ticks| && 0 <= b < |ticks| && Covers(ticks[a], n) && Covers(ticks[b], n) ==> a == b
  {
    RunsKeepInv(c, ls);
    var s := After(c, ls);
    var job, ticks := c.jobs[j], s.ticks[j];
    assert JobInv(c.range, job, s.next[j], ticks);
    if n < Count(ticks) { SomeTickCovers(c.range, job, ticks, n); }
    var last := |ticks| - 1;
    forall i | 0 <= i < |ticks| && Covers(ticks[i], n) ensures n < Count(ticks) {
      if i < last { NumbersRise(c.range, job, s.next[j], ticks, i, last); }
    }
    forall a, b | 0 <= a < |ticks| && 0 <= b < |ticks| && Covers(ticks[a], n) && Covers(ticks[b], n) ensures a == b {
      if a < b { NumbersRise(c.range, job, s.next[j], ticks, a, b); }
      if b < a { NumbersRise(c.range, job, s.next[j], ticks, b, a); }
    }
  }

  /** A job that skips overlaps has at most one live run. */
  lemma OverlapIsSkipped(c: Config, ls: seq<Label>, a: nat, b: nat)
    requires WellFormed(c) && Feasible(c, ls)
    requires IsLive(After(c, ls), a) && IsLive(After(c, ls), b)
    requires After(c, ls).tasks[a].job == After(c, ls).tasks[b].job < |c.jobs|
    requires c.jobs[After(c, ls).tasks[a].job].skipOverlap
    ensures a == b
  {
    RunsKeepInv(c, ls);
    assert Flag(c, After(c, ls), After(c, ls).tasks[a].job);
  }

  ghost predicate HasLiveRun(s: State, j: nat) {
    exists id :: IsLive(s, id) && s.tasks[id].job == j
  }

  /** A catch-up that does not fail adds one tick, and its dispatch is accepted exactly when the
      policy fires it, the owner is not cancelled and no run of a non-overlapping job is live. */
  lemma AcceptedExactly(c: Config, ls: seq<Label>, l: Label)
    requires WellFormed(c) && Feasible(c, ls) && l.Caught? && Enabled(c, After(c, ls), l)
    requires Apply(c, After(c, ls), l).mode != Failed
    ensures
      var (s, t, job) := (After(c, ls), Apply(c, After(c, ls), l), c.jobs[l.j]);
      && |t.ticks[l.j]| == |s.ticks[l.j]| + 1
      && var tick := t.ticks[l.j][|s.ticks[l.j]|];
      && tick.reading == l.now < t.next[l.j]
      && (tick.run.Some? <==> tick.fired && !s.ownerCancelled && !(job.skipOverlap && HasLiveRun(s, l.j)))
      && (tick.run.Some? ==>
            !IsLive(s, tick.run.value) && IsLive(t, tick.run.value) && t.tasks[tick.run.value].job == l.j)
  {
    RunsKeepInv(c, ls);
    assert Flag(c, After(c, ls), l.j);
  }

  /** Leaving by cancellation waits for every accepted run; leaving by a schedule error is the
      only way a run is aborted. */
  lemma CancelledExitWaits(c: Config, ls: seq<Label>, id: nat)
    requires WellFormed(c) && Feasible(c, ls) && id < After(c, ls).issued
    ensures After(c, ls).mode == Returned ==> id in After(c, ls).ended
    ensures id in After(c, ls).aborted ==> After(c, ls).mode == Failed && id !in After(c, ls).ended
    ensures IsLive(After(c, ls), id) || id in After(c, ls).ended || id in After(c, ls).aborted
    ensures After(c, ls).mode == Failed ==> !IsLive(After(c, ls), id)
  {
    RunsKeepInv(c, ls);
  }

  /** Once the loop is left, nothing more is caught up or accepted. */
  lemma {:induction false} AdmissionStops(c: Config, ls: seq<Label>, more: seq<Label>)
    requires Feasible(c, ls) && Feasible(c, ls + more) && After(c, ls).mode != Looping
    ensures var (s, t) := (After(c, ls), After(c, ls + more));
            t.mode != Looping && t.ticks == s.ticks && t.issued == s.issued
  {
    if |more| == 0 {
      assert ls + more == ls;
    } else {
      var pre := more[..|more| - 1];
      assert (ls + more)[..|ls + more| - 1] == ls + pre;
      AdmissionStops(c, ls, pre);
    }
  }

  // ---- What the records tell ----

  function Readings(ticks: seq<Tick>): seq<int> {
    if |ticks| == 0 then [] else Readings(ticks[..|ticks| - 1]) + [ticks[|ticks| - 1].reading]
  }

  ghost function CaughtAt(ls: seq<Label>, j: nat): seq<int> {
    if |ls| == 0 then []
    else
      var l := ls[|ls| - 1];
      CaughtAt(ls[..|ls| - 1], j) + if l.Caught? && l.j == j then [l.now] else []
  }

  lemma ReadingsSnoc(ticks: seq<Tick>, t: Tick)
    ensures Readings(ticks + [t]) == Readings(ticks) + [t.reading]
  {
    assert (ticks + [t])[..|ticks|] == ticks;
  }

  lemma StepReads(c: Config, s: State, l: Label, j: nat)
    requires Enabled(c, s, l) && j < |c.jobs| && Apply(c, s, l).mode != Failed
    ensures |Apply(c, s, l).ticks| == |c.jobs| && s.mode != Failed
    ensures Readings(Apply(c, s, l).ticks[j]) == Readings(s.ticks[j]) + if l.Caught? && l.j == j then [l.now] else []
  {
    assert Readings(s.ticks[j]) + [] == Readings(s.ticks[j]);
    if l.Caught? && l.j == j {
      var t := Apply(c, s, l).ticks[j];
      assert t == s.ticks[j] + [t[|s.ticks[j]|]];
      ReadingsSnoc(s.ticks[j], t[|s.ticks[j]|]);
    }
  }

  /** The ticks of a job are its catch-ups in the run, with their clock readings. */
  lemma {:induction false} TicksAreTold(c: Config, ls: seq<Label>, j: nat)
    requires WellFormed(c) && Feasible(c, ls) && j < |c.jobs| && After(c, ls).mode != Failed
    ensures Readings(Ticks(c, ls, j)) == CaughtAt(ls, j)
  {
    if |ls| > 0 {
      var pre := ls[..|ls| - 1];
      StepReads(c, After(c, pre), ls[|ls| - 1], j);
      TicksAreTold(c, pre, j);
    }
  }

  /** A run has ended exactly when the run of labels says so, and the owner is cancelled exactly
      when it was. */
  lemma {:induction false} EndsAreTold(c: Config, ls: seq<Label>, id: nat)
    requires Feasible(c, ls)
    ensures id in After(c, ls).ended <==> Ended(id) in ls
    ensures After(c, ls).ownerCancelled <==> OwnerCancels in ls
  {
    if |ls| > 0 {
      var n := |ls| - 1;
      EndsAreTold(c, ls[..n], id);
      assert ls == ls[..n] + [ls[n]];
      StepEnds(c, After(c, ls[..n]), ls[n], id);
    }
  }

  lemma StepEnds(c: Config, s: State, l: Label, id: nat)
    requires Enabled(c, s, l)
    ensures id in Apply(c, s, l).ended <==> id in s.ended || l == Ended(id)
    ensures Apply(c, s, l).ownerCancelled <==> s.ownerCancelled || l == OwnerCancels
  {
  }

  ghost predicate IsRunOf(c: Config, ls: seq<Label>, id: nat, j: nat, i: nat)
    requires WellFormed(c) && Feasible(c, ls)
  {
    j < |c.jobs| && i < |Ticks(c, ls, j)| && Ticks(c, ls, j)[i].run == Some(id)
  }

  lemma StepRuns(c: Config, s: State, l: Label, id: nat)
    requires Enabled(c, s, l)
    ensures Shaped(c, Apply(c, s, l)) && s.issued <= Apply(c, s, l).issued <= s.issued + 1
    ensures forall j: nat, i: nat :: j < |c.jobs| && i < |s.ticks[j]| ==>
              i < |Apply(c, s, l).ticks[j]| && Apply(c, s, l).ticks[j][i] == s.ticks[j][i]
    ensures s.issued < Apply(c, s, l).issued ==>
              && l.Caught? && l.j < |c.jobs| && |s.ticks[l.j]| < |Apply(c, s, l).ticks[l.j]|
              && Apply(c, s, l).ticks[l.j][|s.ticks[l.j]|].run == Some(s.issued)
  {
  }

  /** Every accepted run was accepted by a tick of its job. */
  lemma {:induction false} RunsComeFromTicks(c: Config, ls: seq<Label>, id: nat) returns (j: nat, i: nat)
    requires WellFormed(c) && Feasible(c, ls) && id < After(c, ls).issued
    ensures IsRunOf(c, ls, id, j, i)
  {
    var pre, l := ls[..|ls| - 1], ls[|ls| - 1];
    StepRuns(c, After(c, pre), l, id);
    RunsKeepInv(c, ls);
    RunsKeepInv(c, pre);
    if id < After(c, pre).issued {
      j, i := RunsComeFromTicks(c, pre, id);
    } else {
      j, i := l.j, |After(c, pre).ticks[l.j]|;
    }
  }
}
