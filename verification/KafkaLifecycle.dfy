/** `RdkafkaKafkaDataSource` in the form of its code. Outcomes of endpoint calls, cancellation
    and drops of the caller are nondeterministic choices at the awaits; every activation of
    `Start` and `Stop` is a run of the datasource step system. */
module KafkaLifecycle {
  import opened Runs
  import opened KafkaDataSource

  datatype CallResult =
    | Ok | ContextCancelled | AlreadyStarted | ResourceStopped | DuplicateResource
    | TopicsFailed | Failed | Dropped

  // What may befall a call: its caller is dropped at some await, its context expires before it
  // has the gate; and what the calls it makes return.
  datatype Fate = Fate(dropped: bool, expired: bool)

  /** The endpoints of which the call fails, in order. */
  function FailingOf(es: seq<Endpoint>, answers: Endpoint -> bool): seq<Endpoint> {
    if |es| == 0 then [] else (if answers(es[0]) then [] else [es[0]]) + FailingOf(es[1..], answers)
  }

  function Reversed(es: seq<Endpoint>): seq<Endpoint> {
    if |es| == 0 then [] else Reversed(es[1..]) + [es[0]]
  }

  lemma {:induction false} RemoveAbsent(es: seq<Endpoint>, e: Endpoint)
    requires e !in es
    ensures Remove(es, e) == es
  {
    if |es| > 0 {
      RemoveAbsent(es[..|es| - 1], e);
      assert es == es[..|es| - 1] + [es[|es| - 1]];
    }
  }

  lemma {:induction false} RemoveFrom(a: seq<Endpoint>, e: Endpoint, b: seq<Endpoint>)
    requires e !in a && e !in b
    ensures Remove(a + [e] + b, e) == a + b
  {
    if |b| == 0 {
      assert a + [e] + b == a + [e] && (a + [e])[..|a|] == a && a + b == a;
      RemoveAbsent(a, e);
    } else {
      var n := |b| - 1;
      RemoveFrom(a, e, b[..n]);
      assert (a + [e] + b)[..|a + [e] + b| - 1] == a + [e] + b[..n];
      assert b == b[..n] + [b[n]];
    }
  }

  lemma {:induction false} FailingAreIn(es: seq<Endpoint>, answers: Endpoint -> bool, e: Endpoint)
    ensures e in FailingOf(es, answers) <==> e in es && !answers(e)
  {
    if |es| > 0 {
      FailingAreIn(es[1..], answers, e);
      assert es == [es[0]] + es[1..];
    }
  }

  lemma JoinOver(a: seq<Endpoint>, e: Endpoint, b: seq<Endpoint>)
    ensures a + [e] + b == a + ([e] + b)
  {
  }

  /** One more endpoint of the snapshot has been stopped; `failed` are those behind it that failed. */
  lemma ActiveSteps(snapshot: seq<Endpoint>, n: nat, failed: seq<Endpoint>, ok: bool)
    requires n < |snapshot| && Distinct(snapshot) && snapshot[n] !in failed
    ensures var (e, active) := (snapshot[n], snapshot[..n + 1] + failed);
            snapshot[..n] + (if ok then failed else [e] + failed) == if ok then Remove(active, e) else active
  {
    var e, a := snapshot[n], snapshot[..n];
    assert snapshot[..n + 1] == a + [e];
    DistinctAround(snapshot, n);
    if ok { RemoveFrom(a, e, failed); } else { JoinOver(a, e, failed); }
  }

  /** The endpoints of the snapshot from `left` on have been called to stop, the last one first, and
      those of them that failed are still active behind the others. */
  ghost predicate Cleaned(
    snapshot: seq<Endpoint>, left: nat, answers: Endpoint -> bool,
    active: seq<Endpoint>, hadError: bool, before: seq<Endpoint>, stops: seq<Endpoint>)
  {
    && left <= |snapshot| && active == snapshot[..left] + FailingOf(snapshot[left..], answers)
    && hadError == (FailingOf(snapshot[left..], answers) != [])
    && stops == before + Reversed(snapshot[left..])
  }

  lemma CleanedBegins(snapshot: seq<Endpoint>, answers: Endpoint -> bool, before: seq<Endpoint>)
    ensures Cleaned(snapshot, |snapshot|, answers, snapshot, false, before, before)
  {
  }

  lemma CleanedEnds(
    snapshot: seq<Endpoint>, answers: Endpoint -> bool, active: seq<Endpoint>, hadError: bool,
    before: seq<Endpoint>, stops: seq<Endpoint>)
    requires Cleaned(snapshot, 0, answers, active, hadError, before, stops)
    ensures active == FailingOf(snapshot, answers) && hadError == (active != []) && stops == before + Reversed(snapshot)
  {
    assert snapshot[0..] == snapshot && snapshot[..0] + FailingOf(snapshot, answers) == FailingOf(snapshot, answers);
  }

  lemma CleanedSteps(
    snapshot: seq<Endpoint>, n: nat, answers: Endpoint -> bool, active: seq<Endpoint>, hadError: bool,
    before: seq<Endpoint>, stops: seq<Endpoint>)
    requires Cleaned(snapshot, n + 1, answers, active, hadError, before, stops) && Distinct(snapshot)
    ensures var (e, ok) := (snapshot[n], answers(snapshot[n]));
            var rest := if ok then Remove(active, e) else active;
            Cleaned(snapshot, n, answers, rest, hadError || !ok, before, stops + [e])
  {
    var e, failing := snapshot[n], FailingOf(snapshot[n + 1..], answers);
    SuffixSteps(snapshot, n, answers);
    DistinctAround(snapshot, n);
    FailingAreIn(snapshot[n + 1..], answers, e);
    ActiveSteps(snapshot, n, failing, answers(e));
    assert [] + failing == failing;
    JoinEnd(before, Reversed(snapshot[n + 1..]), e);
  }

  lemma JoinEnd(a: seq<Endpoint>, b: seq<Endpoint>, e: Endpoint)
    ensures a + b + [e] == a + (b + [e])
  {
  }

  lemma DistinctAround(es: seq<Endpoint>, n: nat)
    requires n < |es| && Distinct(es)
    ensures es[n] !in es[..n] && es[n] !in es[n + 1..]
  {
  }

  lemma SuffixSteps(es: seq<Endpoint>, n: nat, answers: Endpoint -> bool)
    requires n < |es|
    ensures FailingOf(es[n..], answers) == (if answers(es[n]) then [] else [es[n]]) + FailingOf(es[n + 1..], answers)
    ensures Reversed(es[n..]) == Reversed(es[n + 1..]) + [es[n]]
  {
    assert es[n..][1..] == es[n + 1..];
  }

  class DataSource {
    var phase: nat
    var endpoints: seq<Endpoint>
    var active: seq<Endpoint>
    ghost var caller: Caller
    ghost var past: State  // carries the recorded calls
    ghost var log: seq<Label>

    ghost function View(): State
      reads this
    {
      past.(phase := phase, endpoints := endpoints, active := active, caller := caller)
    }

    ghost predicate Valid()
      reads this
    {
      Run(Step, Initial, log) == Some(View())
    }

    constructor ()
      ensures Valid() && caller == Nobody && View() == Initial
    {
      phase, endpoints, active := 0, [], [];
      caller, past, log := Nobody, Initial, [];
    }

    ghost method Note(before: State, l: Label)
      requires Run(Step, Initial, log) == Some(before) && Enabled(before, l)
      requires var after := Apply(before, l);
               phase == after.phase && endpoints == after.endpoints && active == after.active
      modifies this`log, this`past, this`caller
      ensures Valid() && View() == Apply(before, l) && log == old(log) + [l]
    {
      Extend(Step, Initial, log, l);
      log, past, caller := log + [l], Apply(before, l), Apply(before, l).caller;
    }

    /** The caller's future is dropped at an await: the gate is released, nothing else happens. */
    ghost method Drop()
      requires Valid() && caller != Nobody
      modifies this`log, this`past, this`caller
      ensures Valid() && caller == Nobody && old(log) < log && View() == old(View()).(caller := Nobody)
    {
      Note(View(), CallerDropped);
    }

    method AddEndpoint(e: Endpoint) returns (r: CallResult)
      requires Valid()
      modifies this
      ensures Valid() && old(log) <= log && caller == old(caller)
      ensures r == Ok <==> old(phase) == 0 && e !in old(endpoints)
      ensures endpoints == if r == Ok then old(endpoints) + [e] else old(endpoints)
      ensures phase == old(phase) && active == old(active)
    {
      if phase != 0 { return AlreadyStarted; }
      if e in endpoints { return DuplicateResource; }
      ghost var before := View();
      endpoints := endpoints + [e];
      Note(before, EndpointAdded(e));
      return Ok;
    }

    /** One endpoint of a cleanup, whose stop answers `ok`; false when the caller was dropped. */
    method StopOne(snapshot: seq<Endpoint>, left: nat, hadError: bool, ok: bool, fate: Fate) returns (there: bool)
      requires Valid() && caller == Cleaning(snapshot, left, hadError) && 0 < left <= |snapshot|
      modifies this
      ensures Valid() && old(log) < log && endpoints == old(endpoints) && phase == old(phase)
      ensures !there ==> caller == Nobody && fate.dropped
      ensures there ==> caller == Cleaning(snapshot, left - 1, hadError || !ok)
      ensures there ==> active == if ok then Remove(old(active), snapshot[left - 1]) else old(active)
      ensures past.stops == old(past.stops) + [snapshot[left - 1]] && past.starts == old(past.starts)
    {
      Note(View(), StopCalled(snapshot[left - 1]));
      var gone := Perhaps(fate.dropped);
      if gone { Drop(); return false; }
      SeeStop(snapshot, left, hadError, ok);
      return true;
    }

    method SeeStop(snapshot: seq<Endpoint>, left: nat, hadError: bool, ok: bool)
      requires Valid() && caller == StopAwaits(snapshot, left, hadError) && 0 < left <= |snapshot|
      modifies this
      ensures Valid() && old(log) < log && endpoints == old(endpoints) && phase == old(phase)
      ensures caller == Cleaning(snapshot, left - 1, hadError || !ok)
      ensures active == if ok then Remove(old(active), snapshot[left - 1]) else old(active)
      ensures past.stops == old(past.stops) && past.starts == old(past.starts)
    {
      ghost var before := View();
      var e := snapshot[left - 1];
      if ok { active := Remove(active, e); }
      Note(before, StopSeen(e, ok));
    }

    /** Every active endpoint is stopped, from the last to the first; those whose stop fails stay
        active. */
    method StopActiveEndpoints(stops: Endpoint -> bool, fate: Fate) returns (r: CallResult)
      requires Valid() && caller == Cleaning(active, |active|, false) && Distinct(active)
      modifies this
      ensures Valid() && old(log) <= log && endpoints == old(endpoints) && phase == old(phase)
      ensures r in {Ok, Failed, Dropped} && past.starts == old(past.starts)
      ensures r == Dropped ==> caller == Nobody && fate.dropped
      ensures r != Dropped ==>
                && caller.Cleaning? && caller.left == 0 && caller.hadError == (r != Ok)
                && active == FailingOf(old(active), stops) && (r == Ok <==> active == [])
                && past.stops == old(past.stops) + Reversed(old(active))
    {
      var snapshot, hadError := active, false;
      var left: nat := |snapshot|;
      CleanedBegins(snapshot, stops, past.stops);
      while left > 0
        invariant Valid() && old(log) <= log && endpoints == old(endpoints) && phase == old(phase)
        invariant left <= |snapshot| && caller == Cleaning(snapshot, left, hadError) && past.starts == old(past.starts)
        invariant Cleaned(snapshot, left, stops, active, hadError, old(past.stops), past.stops)
      {
        CleanedSteps(snapshot, left - 1, stops, active, hadError, old(past.stops), past.stops);
        var ok := stops(snapshot[left - 1]);
        var there := StopOne(snapshot, left, hadError, ok, fate);
        if !there { return Dropped; }
        hadError, left := hadError || !ok, left - 1;
      }
      CleanedEnds(snapshot, stops, active, hadError, old(past.stops), past.stops);
      return if hadError then Failed else Ok;
    }

    /** The end of a cleanup, after a failed start or in `stop`. */
    method FinishCleanup(cleaned: CallResult)
      requires Valid() && caller.Cleaning? && caller.left == 0 && caller.hadError == (cleaned != Ok)
      modifies this
      ensures Valid() && caller == Nobody && old(log) < log && endpoints == old(endpoints) && active == old(active)
      ensures phase == if cleaned == Ok then 2 else 3
      ensures past.starts == old(past.starts) && past.stops == old(past.stops)
    {
      RunsKeepInv(log);
      ghost var before := View();
      if cleaned == Ok { phase := 2; }
      Note(before, CleanupReturns);
    }

    /** What `start` did when its endpoints answer as given. */
    ghost predicate Rolled(starts: Endpoint -> bool, stops: Endpoint -> bool)
      reads this
    {
      exists k: nat :: && k < |endpoints| && !starts(endpoints[k]) && (forall i :: 0 <= i < k ==> starts(endpoints[i]))
                       && past.starts == endpoints[..k + 1] && active == FailingOf(endpoints[..k + 1], stops)
                       && phase == if active == [] then 2 else 3
    }

    /** `start`, with the answers of the topic creation and of the endpoints. Without a drop it
        succeeds exactly when all of them do; a failed endpoint has everything started so far
        stopped again, and what does not stop stays active. */
    method Start(topics: bool, starts: Endpoint -> bool, stops: Endpoint -> bool, fate: Fate) returns (r: CallResult)
      requires Valid() && caller == Nobody
      modifies this
      ensures Valid() && caller == Nobody && old(log) <= log && endpoints == old(endpoints)
      ensures (r == Dropped ==> fate.dropped) && (r == ContextCancelled ==> fate.expired)
      ensures r == AlreadyStarted ==> old(phase) == 1 && View() == old(View())
      ensures r == ResourceStopped ==> old(phase) > 1 && View() == old(View())
      ensures r == Ok ==>
                && old(phase) == 0 && phase == 1 && topics && past.starts == active == endpoints
                && forall i :: 0 <= i < |endpoints| ==> starts(endpoints[i])
      ensures r == TopicsFailed ==> old(phase) == phase == 0 && !topics && past.starts == old(past.starts)
      ensures r == Failed ==> old(phase) == 0 && topics && Rolled(starts, stops)
      ensures r != DuplicateResource
    {
      var late := Perhaps(fate.expired);
      if late { return ContextCancelled; }
      if phase == 1 { return AlreadyStarted; }
      if phase != 0 { return ResourceStopped; }
      ColdIsEmpty(log);
      var created := CreateTopics(topics, fate);
      if created.None? { return Dropped; }
      if !topics { return TopicsFailed; }
      r := StartEndpoints(starts, stops, fate);
    }

    /** `start` up to the creation of the topics; None when the caller was dropped. */
    method CreateTopics(topics: bool, fate: Fate) returns (created: Option<bool>)
      requires Valid() && caller == Nobody && phase == 0
      modifies this
      ensures Valid() && old(log) <= log && endpoints == old(endpoints) && active == old(active)
      ensures past.starts == old(past.starts)
      ensures created.None? ==> fate.dropped && caller == Nobody
      ensures created.Some? ==> created.value == topics
      ensures created == Some(true) ==> caller == Starting(0) && phase == 1
      ensures created == Some(false) ==> caller == Nobody && phase == 0
    {
      ghost var before := View();
      phase := 1;
      Note(before, StartEnters);
      var gone := Perhaps(fate.dropped);
      if gone { Drop(); return None; }
      before := View();
      if !topics { phase := 0; }
      Note(before, TopicsDone(topics));
      return Some(topics);
    }

    /** One endpoint of `start`, whose start answers `ok`; false when the caller was dropped. */
    method StartOne(k: nat, ok: bool, fate: Fate) returns (there: bool)
      requires Valid() && caller == Starting(k) && phase == 1 && k < |endpoints|
      modifies this
      ensures Valid() && old(log) < log && endpoints == old(endpoints)
      ensures !there ==> caller == Nobody && fate.dropped
      ensures active == old(active) + [endpoints[k]] && past.starts == old(past.starts) + [endpoints[k]]
      ensures there && ok ==> caller == Starting(k + 1) && phase == 1
      ensures there && !ok ==> caller == Cleaning(active, |active|, false) && phase == 3
    {
      CallStart(k);
      var gone := Perhaps(fate.dropped);
      if gone { Drop(); return false; }
      ghost var before := View();
      if !ok { phase := 3; }
      Note(before, StartSeen(endpoints[k], ok));
      return true;
    }

    /** The endpoint is owned before its start is awaited. */
    method CallStart(k: nat)
      requires Valid() && caller == Starting(k) && phase == 1 && k < |endpoints|
      modifies this
      ensures Valid() && old(log) < log && endpoints == old(endpoints) && caller == StartAwaits(k) && phase == 1
      ensures active == old(active) + [endpoints[k]] && past.starts == old(past.starts) + [endpoints[k]]
    {
      ghost var before := View();
      active := active + [endpoints[k]];
      Note(before, StartCalled(endpoints[k]));
    }

    method StartEndpoints(starts: Endpoint -> bool, stops: Endpoint -> bool, fate: Fate) returns (r: CallResult)
      requires Valid() && caller == Starting(0) && phase == 1 && active == [] && past.starts == []
      modifies this
      ensures Valid() && caller == Nobody && old(log) <= log && endpoints == old(endpoints)
      ensures r in {Ok, Failed, Dropped} && (r == Dropped ==> fate.dropped)
      ensures r == Ok ==> && phase == 1 && past.starts == active == endpoints
                          && forall i :: 0 <= i < |endpoints| ==> starts(endpoints[i])
      ensures r == Failed ==> Rolled(starts, stops)
    {
      var k := 0;
      while k < |endpoints|
        invariant Valid() && old(log) <= log && caller == Starting(k) && phase == 1
        invariant k <= |endpoints| && endpoints == old(endpoints)
        invariant active == past.starts == endpoints[..k] && forall i :: 0 <= i < k ==> starts(endpoints[i])
      {
        assert endpoints[..k + 1] == endpoints[..k] + [endpoints[k]];
        var there := StartOne(k, starts(endpoints[k]), fate);
        if !there { return Dropped; }
        if !starts(endpoints[k]) {
          r := RollBack(stops, fate);
          return;
        }
        k := k + 1;
      }
      assert endpoints[..k] == endpoints;
      Note(View(), StartReturns);
      return Ok;
    }

    /** The rollback of a failed start. */
    method RollBack(stops: Endpoint -> bool, fate: Fate) returns (r: CallResult)
      requires Valid() && caller == Cleaning(active, |active|, false)
      modifies this
      ensures Valid() && caller == Nobody && old(log) <= log && endpoints == old(endpoints)
      ensures r in {Failed, Dropped} && (r == Dropped ==> fate.dropped) && past.starts == old(past.starts)
      ensures r == Failed ==> active == FailingOf(old(active), stops) && phase == if active == [] then 2 else 3
    {
      RunsKeepInv(log);
      r := StopActiveEndpoints(stops, fate);
      if r != Dropped {
        FinishCleanup(r);
        r := Failed;
      }
    }

    /** `stop`, with the answers of the endpoints: without a drop exactly those whose stop fails
        stay active, and it succeeds exactly when there are none. */
    method Stop(stops: Endpoint -> bool, fate: Fate) returns (r: CallResult)
      requires Valid() && caller == Nobody
      modifies this
      ensures Valid() && caller == Nobody && old(log) <= log
      ensures r in {Ok, ContextCancelled, Failed, Dropped}
      ensures (r == Dropped ==> fate.dropped) && (r == ContextCancelled ==> fate.expired)
      ensures r == Ok ==> phase == 2 && active == [] && FailingOf(old(active), stops) == []
      ensures r == Failed ==> phase == 3 && active == FailingOf(old(active), stops) && active != []
      ensures (r == Ok || r == Failed) && old(phase) != 2 ==> past.stops == old(past.stops) + Reversed(old(active))
      ensures old(phase) == 2 && r == Ok ==> View() == old(View())
    {
      var late := Perhaps(fate.expired);
      if late { return ContextCancelled; }
      RunsKeepInv(log);
      if phase == 2 { return Ok; }
      ghost var before := View();
      phase := 3;
      Note(before, StopEnters);
      r := StopActiveEndpoints(stops, fate);
      if r == Dropped { return; }
      FinishCleanup(r);
    }
  }
}
