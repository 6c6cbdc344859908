/** `run_scheduler` in the form of its code, with the join set and the overlap flags in place.
    Runs end whenever the loop is at an await or between two jobs of a pass; clock readings and
    cancellations are nondeterministic. Everything it does is a run of the scheduler system. */
module CronLoop {
  import opened Runs
  import opened CronSchedule
  import opened CronScheduler

  // What ends a wait of the loop.
  datatype Wake = ScopeCancelled | Slept(now: int) | TaskJoined

  datatype Exit = ByCancellation | ByError | StillLooping

  predicate IsCaught(l: Label) {
    l.Caught?
  }

  /** The catch-ups of the first `n` jobs at a reading: one for each job that is due, in order. */
  function DueJobs(next: seq<int>, now: int, n: nat): seq<Label>
    requires n <= |next|
  {
    if n == 0 then [] else DueJobs(next, now, n - 1) + if next[n - 1] <= now then [Caught(n - 1, now)] else []
  }

  /** The catch-ups of the first `n` wakes, where `nexts[k]` is what was pending before wake `k`. */
  function DueOver(wakes: seq<Wake>, nexts: seq<seq<int>>, n: nat): seq<Label>
    requires n <= |wakes| && n <= |nexts|
  {
    if n == 0 then []
    else
      DueOver(wakes, nexts, n - 1)
      + if wakes[n - 1].Slept? then DueJobs(nexts[n - 1], wakes[n - 1].now, |nexts[n - 1]|) else []
  }

  lemma {:induction false} DueOverPrefix(wakes: seq<Wake>, nexts: seq<seq<int>>, more: seq<seq<int>>, n: nat)
    requires n <= |wakes| && n <= |nexts| && nexts <= more
    ensures DueOver(wakes, more, n) == DueOver(wakes, nexts, n)
  {
    if n > 0 { DueOverPrefix(wakes, nexts, more, n - 1); }
  }

  /** The first `j` jobs have been caught up at the reading, the others are as they were. */
  predicate PassedTo(was: seq<int>, next: seq<int>, now: int, j: nat) {
    && j <= |next| == |was|
    && (forall i :: 0 <= i < j ==> next[i] > now && next[i] >= was[i] && (was[i] > now ==> next[i] == was[i]))
    && (forall i :: j <= i < |next| ==> next[i] == was[i])
  }

  /** Nothing that is pending was due at one of the first `n` wakes. */
  predicate AllLater(wakes: seq<Wake>, next: seq<int>, n: nat)
    requires n <= |wakes|
  {
    forall k, j :: 0 <= k < n && wakes[k].Slept? && 0 <= j < |next| ==> next[j] > wakes[k].now
  }

  lemma LaterStill(wakes: seq<Wake>, was: seq<int>, next: seq<int>, n: nat)
    requires n < |wakes| && |next| == |was| && AllLater(wakes, was, n)
    requires forall i :: 0 <= i < |next| ==> next[i] >= was[i] && (wakes[n].Slept? ==> next[i] > wakes[n].now)
    ensures AllLater(wakes, next, n + 1)
  {
  }

  /** The first `n` wakes have been followed: `nexts` tells what was pending before each and is now,
      and the catch-ups since `before` are exactly those that were due. */
  ghost predicate Followed(wakes: seq<Wake>, n: nat, nexts: seq<seq<int>>, before: seq<Label>, caughts: seq<Label>) {
    && n <= |wakes| && |nexts| == n + 1 && (forall k :: 0 <= k < n ==> wakes[k] != ScopeCancelled)
    && AllLater(wakes, nexts[n], n) && caughts == before + DueOver(wakes, nexts, n)
  }

  lemma FollowedSteps(wakes: seq<Wake>, n: nat, nexts: seq<seq<int>>, before: seq<Label>, caughts: seq<Label>, next: seq<int>)
    requires Followed(wakes, n, nexts, before, caughts) && n < |wakes| && wakes[n] != ScopeCancelled
    requires |next| == |nexts[n]|
    requires forall i :: 0 <= i < |next| ==> next[i] >= nexts[n][i] && (wakes[n].Slept? ==> next[i] > wakes[n].now)
    ensures var due := if wakes[n].Slept? then DueJobs(nexts[n], wakes[n].now, |nexts[n]|) else [];
            Followed(wakes, n + 1, nexts + [next], before, caughts + due)
  {
    var due := if wakes[n].Slept? then DueJobs(nexts[n], wakes[n].now, |nexts[n]|) else [];
    Assoc(before, DueOver(wakes, nexts, n), due);
    LaterStill(wakes, nexts[n], next, n);
    DueOverPrefix(wakes, nexts, nexts + [next], n);
  }

  /** Catch-ups are logged as they come. */
  ghost function Caughts(log: seq<Label>): seq<Label> {
    Filter(IsCaught, log)
  }

  class Scheduler {
    const config: Config
    var next: seq<int>
    var running: seq<bool>
    var tasks: map<nat, Task>
    var issued: nat
    var ownerCancelled: bool
    ghost var past: State
    ghost var log: seq<Label>

    ghost function View(): State
      reads this
    {
      past.(next := next, running := running, tasks := tasks, issued := issued, ownerCancelled := ownerCancelled)
    }

    ghost predicate Valid()
      reads this
    {
      WellFormed(config) && Run(Stepper(config), Initial(config), log) == Some(View()) && Shaped(config, View())
    }

    constructor (c: Config)
      requires WellFormed(c)
      ensures Valid() && View() == Initial(c) && config == c
    {
      config := c;
      next, running := Initial(c).next, Initial(c).running;
      tasks, issued, ownerCancelled, past, log := map[], 0, false, Initial(c), [];
    }

    ghost method Note(before: State, l: Label)
      requires WellFormed(config) && Run(Stepper(config), Initial(config), log) == Some(before)
      requires Enabled(config, before, l)
      requires var after := Apply(config, before, l);
               && next == after.next && running == after.running && tasks == after.tasks && issued == after.issued
               && ownerCancelled == after.ownerCancelled
      modifies this`log, this`past
      ensures Valid() && View() == Apply(config, before, l) && log == old(log) + [l]
      ensures Caughts(log) == Caughts(old(log)) + if IsCaught(l) then [l] else []
    {
      FilterSnoc(IsCaught, log, l);
      Extend(Stepper(config), Initial(config), log, l);
      log, past := log + [l], Apply(config, before, l);
      RunsKeepInv(config, log);
    }

    /** A run ends: its guard releases the overlap flag, and its task becomes joinable. */
    method End(id: nat)
      requires Valid() && id in tasks && !tasks[id].ended
      modifies this
      ensures Valid() && past.mode == old(past.mode) && next == old(next) && Caughts(log) == Caughts(old(log))
      ensures tasks == old(tasks)[id := Task(old(tasks)[id].job, true)] && tasks.Keys == old(tasks.Keys)
    {
      RunsKeepInv(config, log);
      ghost var before := View();
      var j := tasks[id].job;
      tasks := tasks[id := Task(j, true)];
      if config.jobs[j].skipOverlap { running := running[j := false]; }
      Note(before, Ended(id));
    }

    /** What others leave alone: the pending occurrences, the mode and the catch-ups. */
    twostate predicate Undisturbed()
      reads this
    {
      && past.mode == old(past.mode) && next == old(next) && tasks.Keys == old(tasks.Keys)
      && Caughts(log) == Caughts(old(log))
    }

    /** Any number of runs end on their own, and the owner may be cancelled. */
    method Interfere()
      requires Valid()
      modifies this
      ensures Valid() && Undisturbed()
    {
      var cancels := Perhaps(!ownerCancelled);
      if cancels {
        RunsKeepInv(config, log);
        ghost var before := View();
        ownerCancelled := true;
        Note(before, OwnerCancels);
      }
      var n: nat := *;
      while n > 0
        invariant Valid() && Undisturbed()
      {
        if id: nat :| id in tasks && !tasks[id].ended { End(id); }
        n := n - 1;
      }
    }

    /** `CronJob::due`. */
    method DueAt(j: nat, now: int) returns (due: Option<Due>)
      requires Valid() && j < |config.jobs| && j < |next| && next[j] <= now && InRange(config.range, now)
      ensures due == Stepped(config.range, config.jobs[j].schedule, next[j], now)
    {
      RunsKeepInv(config, log);
      assert JobInv(config.range, config.jobs[j], next[j], View().ticks[j]);
      match config.jobs[j].schedule {
        case Interval(ms) =>
          DivisionMeetsStepping(config.range, ms, next[j], now);
          due := DueByDivision(config.range, ms, next[j], now);
        case Calendar(_) =>
          due := DueByStepping(config.range, config.jobs[j].schedule, next[j], now);
      }
    }

    /** `CronJob::dispatch`: the run is spawned unless the owner is cancelled or the overlap flag
        is already taken. */
    method Dispatch(j: nat)
      requires j < |config.jobs| && j < |running|
      modifies this`running, this`tasks, this`issued
      ensures
        if ownerCancelled || (config.jobs[j].skipOverlap && old(running[j])) then
          running == old(running) && tasks == old(tasks) && issued == old(issued)
        else
          tasks == old(tasks)[old(issued) := Task(j, false)] && issued == old(issued) + 1
          && running == if config.jobs[j].skipOverlap then old(running)[j := true] else old(running)
    {
      if ownerCancelled { return; }
      if config.jobs[j].skipOverlap {
        if running[j] { return; }
        running := running[j := true];
      }
      tasks, issued := tasks[issued := Task(j, false)], issued + 1;
    }

    /** The catch-up of a job that is due. */
    method CatchUpDue(j: nat, now: int) returns (ok: bool)
      requires Valid() && past.mode == Looping && j < |config.jobs| && j < |next| && InRange(config.range, now)
      requires next[j] <= now
      modifies this
      ensures Valid() && past.mode == if ok then Looping else Failed
      ensures |next| == old(|next|) && forall i :: 0 <= i < |next| && i != j ==> next[i] == old(next)[i]
      ensures ok ==> next[j] > now
      ensures ok == Stepped(config.range, config.jobs[j].schedule, old(next)[j], now).Some?
      ensures Caughts(log) == Caughts(old(log)) + [Caught(j, now)]
    {
      RunsKeepInv(config, log);
      var due := DueAt(j, now);
      ghost var before := View();
      match due {
        case None =>
          tasks, running := map[], seq(|running|, _ => false);
          Note(before, Caught(j, now));
          return false;
        case Some(d) =>
          SteppedIsInForce(config.range, config.jobs[j].schedule, next[j], now, d);
          next := next[j := d.next];
          if !d.missed || config.jobs[j].fireOnce { Dispatch(j); }
          Note(before, Caught(j, now));
          return true;
      }
    }

    /** The body of a pass for one job: a job that is not due is left alone. */
    method CatchUp(j: nat, now: int) returns (ok: bool)
      requires Valid() && past.mode == Looping && j < |config.jobs| && j < |next| && InRange(config.range, now)
      modifies this
      ensures Valid() && past.mode == if ok then Looping else Failed
      ensures |next| == old(|next|) && forall i :: 0 <= i < |next| && i != j ==> next[i] == old(next)[i]
      ensures ok ==> next[j] > now && next[j] >= old(next)[j] && (old(next)[j] > now ==> next == old(next))
      ensures Caughts(log) == Caughts(old(log)) + if old(next)[j] <= now then [Caught(j, now)] else []
    {
      Interfere();
      if next[j] > now { return true; }
      ok := CatchUpDue(j, now);
    }

    /** One reading of the clock: exactly the due jobs are caught up, the others are left alone. */
    method Pass(now: int) returns (ok: bool)
      requires Valid() && past.mode == Looping && InRange(config.range, now)
      modifies this
      ensures Valid() && past.mode == if ok then Looping else Failed
      ensures |next| == old(|next|)
      ensures ok ==> PassedTo(old(next), next, now, |next|)
      ensures ok ==> Caughts(log) == Caughts(old(log)) + DueJobs(old(next), now, |old(next)|)
    {
      var j := 0;
      while j < |next|
        invariant Valid() && past.mode == Looping && |next| == |config.jobs|
        invariant PassedTo(old(next), next, now, j)
        invariant Caughts(log) == Caughts(old(log)) + DueJobs(old(next), now, j)
      {
        ghost var due := if next[j] <= now then [Caught(j, now)] else [];
        Assoc(Caughts(old(log)), DueJobs(old(next), now, j), due);
        ok := CatchUp(j, now);
        if !ok { return; }
        j := j + 1;
      }
      return true;
    }

    method Join(id: nat)
      requires Valid() && id in tasks && tasks[id].ended && past.mode in {Looping, Draining}
      modifies this
      ensures Valid() && past.mode == old(past.mode) && next == old(next) && tasks == old(tasks) - {id}
      ensures Caughts(log) == Caughts(old(log))
    {
      ghost var before := View();
      tasks := tasks - {id};
      Note(before, Joined(id));
    }

    /** Joins one task, waiting for it to end. */
    method JoinNext()
      requires Valid() && tasks != map[] && past.mode in {Looping, Draining}
      modifies this
      ensures Valid() && past.mode == old(past.mode) && next == old(next) && Caughts(log) == Caughts(old(log))
      ensures tasks.Keys < old(tasks.Keys)
    {
      Interfere();
      var id := Pick(tasks.Keys);
      if !tasks[id].ended { End(id); }
      Join(id);
    }

    method Drain()
      requires Valid() && past.mode == Draining
      modifies this
      ensures Valid() && past.mode == Returned && tasks == map[]
    {
      while tasks != map[]
        invariant Valid() && past.mode == Draining
        decreases tasks.Keys
      {
        JoinNext();
      }
      Note(View(), Drained);
    }

    /** The way out after cancellation. */
    method Leave()
      requires Valid() && past.mode == Looping
      modifies this
      ensures Valid() && past.mode == Returned && forall id: nat :: id < issued ==> id in past.ended
    {
      Note(View(), Cancelled);
      if |config.jobs| > 0 { Drain(); }
      forall id: nat | id < issued ensures id in past.ended {
        CancelledExitWaits(config, log, id);
      }
    }

    /** One wake of the loop: a pass after a sleep, otherwise at most a task is joined. */
    method Woken(wake: Wake) returns (ok: bool)
      requires Valid() && past.mode == Looping && wake != ScopeCancelled
      requires wake.Slept? ==> InRange(config.range, wake.now)
      modifies this
      ensures Valid() && past.mode == (if ok then Looping else Failed) && |next| == old(|next|)
      ensures ok ==> forall i :: 0 <= i < |next| ==>
                next[i] >= old(next)[i] && (wake.Slept? ==> next[i] > wake.now)
      ensures ok ==> Caughts(log) == Caughts(old(log))
                                     + if wake.Slept? then DueJobs(old(next), wake.now, |old(next)|) else []
      ensures !ok ==> wake.Slept?
      ensures wake == TaskJoined ==> tasks == map[] || tasks.Keys < old(tasks.Keys)
    {
      Interfere();
      match wake {
        case Slept(now) => ok := Pass(now);
        case TaskJoined =>
          if tasks != map[] { JoinNext(); }
          ok := true;
      }
    }

    /** The loop over any sequence of wakes. While it loops it has caught up, at every wake from a
        sleep, exactly the jobs that were due then. It returns by cancellation only with every run
        it ever accepted ended, and by error only out of a pass. */
    method RunScheduler(wakes: seq<Wake>) returns (exit: Exit, ghost nexts: seq<seq<int>>)
      requires Valid() && past.mode == Looping
      requires forall i :: 0 <= i < |wakes| && wakes[i].Slept? ==> InRange(config.range, wakes[i].now)
      modifies this
      ensures Valid()
      ensures exit == ByCancellation ==>
                && past.mode == Returned && ScopeCancelled in wakes
                && forall id: nat :: id < issued ==> id in past.ended
      ensures exit == ByError <==> past.mode == Failed
      ensures exit == StillLooping ==>
                && past.mode == Looping && |nexts| > 0 && nexts[0] == old(next) && nexts[|nexts| - 1] == next
                && Followed(wakes, |wakes|, nexts, Caughts(old(log)), Caughts(log))
    {
      nexts := [next];
      var n := 0;
      while n < |wakes|
        invariant Valid() && past.mode == Looping && n <= |wakes|
        invariant Followed(wakes, n, nexts, Caughts(old(log)), Caughts(log))
        invariant nexts[0] == old(next) && nexts[n] == next
      {
        if wakes[n] == ScopeCancelled {
          Leave();
          return ByCancellation, nexts;
        }
        ghost var caughts := Caughts(log);
        var ok := Woken(wakes[n]);
        if !ok { return ByError, nexts; }
        FollowedSteps(wakes, n, nexts, Caughts(old(log)), caughts, next);
        nexts := nexts + [next];
        n := n + 1;
      }
      return StillLooping, nexts;
    }
  }
}
