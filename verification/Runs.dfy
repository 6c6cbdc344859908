/** Runs of a step system: `step(s, l)` is the state after label `l`, or None when `l` is not
    enabled in `s`. A run is a sequence of labels, each enabled after the ones before it. */
module Runs {
  datatype Option<+T> = None | Some(value: T)

  /** An arbitrary element, as an unordered collection yields one. */
  method Pick<T>(ts: set<T>) returns (t: T)
    requires ts != {}
    ensures t in ts
  {
    t :| t in ts;
  }

  /** Something that can happen may happen. */
  method Perhaps(possible: bool) returns (happens: bool)
    ensures happens ==> possible
  {
    happens := *;
    happens := happens && possible;
  }

  /** An identity that no allocation or task has. */
  method Unused<T>(m: map<nat, T>) returns (n: nat)
    ensures n !in m
  {
    n := 0;
    var rest := m.Keys;
    while rest != {}
      invariant rest <= m.Keys && forall k :: k in m && k !in rest ==> k < n
      decreases rest
    {
      var k := Pick(rest);
      if k >= n { n := k + 1; }
      rest := rest - {k};
    }
  }

  ghost function Run<S, L>(step: (S, L) -> Option<S>, s: S, ls: seq<L>): Option<S> {
    if |ls| == 0 then Some(s)
    else
      match Run(step, s, ls[..|ls| - 1])
      case None => None
      case Some(t) => step(t, ls[|ls| - 1])
  }

  lemma Extend<S, L>(step: (S, L) -> Option<S>, s: S, ls: seq<L>, l: L)
    requires Run(step, s, ls).Some?
    ensures Run(step, s, ls + [l]) == step(Run(step, s, ls).value, l)
  {
    assert (ls + [l])[..|ls|] == ls;
  }

  /** One more label of a run whose states are known. */
  lemma Then<S, L>(step: (S, L) -> Option<S>, s: S, ls: seq<L>, mid: S, l: L, next: S)
    requires Run(step, s, ls) == Some(mid) && step(mid, l) == Some(next)
    ensures Run(step, s, ls + [l]) == Some(next)
  {
    Extend(step, s, ls, l);
  }

  lemma {:induction false} Append<S, L>(step: (S, L) -> Option<S>, s: S, ls: seq<L>, ms: seq<L>)
    requires Run(step, s, ls).Some?
    ensures Run(step, s, ls + ms) == Run(step, Run(step, s, ls).value, ms)
  {
    if |ms| == 0 {
      assert ls + ms == ls;
    } else {
      var pre := ms[..|ms| - 1];
      Append(step, s, ls, pre);
      assert (ls + ms)[..|ls + ms| - 1] == ls + pre;
    }
  }

  /** Every prefix of a run is a run, and its next label is enabled after it. */
  lemma {:induction false} Prefix<S, L>(step: (S, L) -> Option<S>, s: S, ls: seq<L>, k: nat)
    requires Run(step, s, ls).Some? && k <= |ls|
    ensures Run(step, s, ls[..k]).Some?
    ensures k < |ls| ==> step(Run(step, s, ls[..k]).value, ls[k]).Some?
    ensures k < |ls| ==> Run(step, s, ls[..k + 1]) == step(Run(step, s, ls[..k]).value, ls[k])
  {
    if k == |ls| {
      assert ls[..k] == ls;
    } else if k == |ls| - 1 {
      assert ls[..k + 1] == ls;
    } else {
      var pre := ls[..|ls| - 1];
      Prefix(step, s, pre, k);
      assert pre[..k] == ls[..k] && pre[..k + 1] == ls[..k + 1];
    }
  }

  /** What holds at first and is kept by every step holds after every run. */
  lemma {:induction false} Invariant<S(!new), L(!new)>(step: (S, L) -> Option<S>, inv: S -> bool, s: S, ls: seq<L>)
    requires inv(s) && Run(step, s, ls).Some?
    requires forall t, l :: inv(t) && step(t, l).Some? ==> inv(step(t, l).value)
    ensures inv(Run(step, s, ls).value)
  {
    if |ls| > 0 { Invariant(step, inv, s, ls[..|ls| - 1]); }
  }

  lemma Assoc<L>(a: seq<L>, b: seq<L>, c: seq<L>)
    ensures a + b + c == a + (b + c)
  {
  }

  // ---- What a run did ----

  /** The labels of a run that are kept, in order. */
  ghost function Filter<L>(keep: L -> bool, ls: seq<L>): seq<L> {
    if |ls| == 0 then []
    else Filter(keep, ls[..|ls| - 1]) + if keep(ls[|ls| - 1]) then [ls[|ls| - 1]] else []
  }

  lemma FilterSnoc<L>(keep: L -> bool, ls: seq<L>, l: L)
    ensures Filter(keep, ls + [l]) == Filter(keep, ls) + if keep(l) then [l] else []
  {
    assert (ls + [l])[..|ls|] == ls;
  }

  lemma {:induction false} FilterNone<L>(keep: L -> bool, ls: seq<L>, more: seq<L>)
    requires forall i :: 0 <= i < |more| ==> !keep(more[i])
    ensures Filter(keep, ls + more) == Filter(keep, ls)
  {
    if |more| == 0 {
      assert ls + more == ls;
    } else {
      var pre := more[..|more| - 1];
      FilterNone(keep, ls, pre);
      assert ls + more == (ls + pre) + [more[|more| - 1]];
      FilterSnoc(keep, ls + pre, more[|more| - 1]);
    }
  }

  /** A kept label of the run is in its filtered sequence, and nothing else is. */
  lemma {:induction false} FilterHas<L>(keep: L -> bool, ls: seq<L>, l: L)
    ensures l in Filter(keep, ls) <==> keep(l) && l in ls
  {
    if |ls| > 0 {
      var n := |ls| - 1;
      FilterHas(keep, ls[..n], l);
      assert ls == ls[..n] + [ls[n]];
    }
  }
}
