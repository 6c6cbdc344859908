/** `spawn_parallel` and `drain_parallel` in the form of their code, with tasks and other
    drainers running at every await. Every activation is a run of the registry's step system. */
module ParallelDrain {
  import opened Runs
  import opened ParallelRegistry

  predicate Foreign(d: Drainer, l: Label) {
    match l
    case DrainCalled(e) => e != d
    case DrainTakes(e) => e != d
    case DrainJoins(e) => e != d
    case DrainDropped(e) => e != d
    case _ => true
  }

  ghost predicate AllForeign(d: Drainer, ls: seq<Label>) {
    forall i :: 0 <= i < |ls| ==> Foreign(d, ls[i])
  }

  /** What a waiting drainer can rely on: it keeps its handles, and finished tasks stay finished. */
  ghost predicate Kept(d: Drainer, s: State, s': State) {
    && (d in s'.drainers <==> d in s.drainers) && (d in s.drainers ==> s'.drainers[d] == s.drainers[d])
    && s.ever <= s'.ever && (forall t :: t in s.ever && t !in s.live ==> t !in s'.live)
  }

  lemma ForeignStepKeeps(d: Drainer, s: State, l: Label)
    requires Enabled(s, l) && Foreign(d, l)
    ensures Kept(d, s, Apply(s, l))
  {
  }

  lemma {:induction false} ForeignRunKeeps(d: Drainer, s: State, ls: seq<Label>)
    requires AllForeign(d, ls) && Run(Step, s, ls).Some?
    ensures Kept(d, s, Run(Step, s, ls).value)
  {
    if |ls| > 0 {
      var pre := ls[..|ls| - 1];
      ForeignRunKeeps(d, s, pre);
      ForeignStepKeeps(d, Run(Step, s, pre).value, ls[|ls| - 1]);
    }
  }

  lemma ReturnKeepsOthers(s: State, d: Drainer)
    requires Enabled(s, DrainTakes(d)) && Returns(s, DrainTakes(d))
    ensures OthersAreDone(Apply(s, DrainTakes(d)), d) <==> OthersAreDone(s, d)
  {
    var s' := Apply(s, DrainTakes(d));
    forall e | e in s.drainers && e != d ensures e in s'.drainers && s'.drainers[e] == s.drainers[e] {
    }
  }

  class Registry {
    var tasks: seq<Task>
    var live: set<Task>    // what the task handles tell
    ghost var past: State  // carries the handles of the drainers and the registered tasks
    ghost var log: seq<Label>

    ghost function View(): State
      reads this
    {
      past.(registry := tasks, live := live)
    }

    ghost predicate Valid()
      reads this
    {
      Run(Step, Initial, log) == Some(View())
    }

    constructor ()
      ensures Valid() && View() == Initial
    {
      tasks, live, past, log := [], {}, Initial, [];
    }

    ghost method Note(before: State, l: Label)
      requires Run(Step, Initial, log) == Some(before) && Enabled(before, l)
      requires var after := Apply(before, l); tasks == after.registry && live == after.live
      modifies this`log, this`past
      ensures Valid() && View() == Apply(before, l) && log == old(log) + [l]
    {
      Extend(Step, Initial, log, l);
      log, past := log + [l], Apply(before, l);
    }

    /** Tasks run, finish and register tasks, and other drainers proceed. */
    method Yield(ghost d: Drainer)
      requires Valid()
      modifies this
      ensures Valid() && old(log) <= log && AllForeign(d, log[|old(log)|..])
    {
    }

    /** An await of drainer `d`. */
    method Await(ghost d: Drainer)
      requires Valid()
      modifies this
      ensures Valid() && old(log) <= log && AllForeign(d, log[|old(log)|..])
      ensures Kept(d, old(View()), View())
    {
      ghost var s, before := View(), log;
      Yield(d);
      assert log == before + log[|before|..];
      Append(Step, Initial, before, log[|before|..]);
      ForeignRunKeeps(d, s, log[|before|..]);
    }

    method SpawnParallel(t: Task, ghost parent: Option<Task>)
      requires Valid() && t !in past.ever && (parent.Some? ==> parent.value in live)
      modifies this
      ensures Valid() && tasks == old(tasks) + [t] && live == old(live) + {t} && past.ever == old(past.ever) + {t}
    {
      ghost var before := View();
      tasks, live := tasks + [t], live + {t};
      Note(before, Spawns(t, parent));
    }

    /** Joins the taken handles one by one; false when a task is still running. */
    method JoinAll(d: Drainer, taken: seq<Task>) returns (joined: bool)
      requires Valid() && d in past.drainers && past.drainers[d] == taken
      modifies this
      ensures Valid() && d in past.drainers
      ensures if joined then past.drainers[d] == [] else past.drainers[d] != [] && past.drainers[d][0] in live
    {
      var rest := taken;
      while rest != []
        invariant Valid() && d in past.drainers && past.drainers[d] == rest
        decreases |rest|
      {
        Await(d);
        if rest[0] in live { return false; }
        rest := rest[1..];
        Note(View(), DrainJoins(d));
      }
      return true;
    }

    /** `drain_parallel`, followed through at most `rounds` turns. When it returns, the registry is
        empty, and all registered tasks have finished exactly if other drainers hold none that run;
        after fewer turns it is still waiting only for a task that runs. */
    method DrainParallel(d: Drainer, rounds: nat) returns (returned: bool, n: nat)
      requires Valid() && d !in past.drainers
      modifies this
      ensures Valid() && n <= rounds && (returned ==> d !in past.drainers && tasks == [])
      ensures !returned && n < rounds ==> d in past.drainers && past.drainers[d] != [] && past.drainers[d][0] in live
      ensures returned ==> (live == {} <==> OthersAreDone(View(), d))
    {
      Note(View(), DrainCalled(d));
      n := 0;
      while n < rounds
        invariant n <= rounds
        invariant Valid() && d in past.drainers && past.drainers[d] == []
      {
        Await(d);
        ghost var before := View();
        if tasks == [] {
          DrainReturnsWhenAllDone(log, d);
          ReturnKeepsOthers(before, d);
          Note(before, DrainTakes(d));
          return true, n;
        }
        var taken := tasks;
        tasks := [];
        Note(before, DrainTakes(d));
        var joined := JoinAll(d, taken);
        if !joined { return false, n; }
        n := n + 1;
      }
      return false, n;
    }
  }
}
