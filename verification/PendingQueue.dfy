/** The FIFO variant of the task pools' `PendingQueue`: a doubly linked list whose nodes live in a
    table indexed by task ID, so that a cancelled task is moved to the front without a scan. It
    refines a plain sequence of tasks. */
module PendingQueue {
  import opened Runs

  type Id = nat

  datatype Node<E> = Node(entry: E, previous: Option<Id>, next: Option<Id>)

  predicate Distinct(ids: seq<Id>) {
    forall i, j :: 0 <= i < j < |ids| ==> ids[i] != ids[j]
  }

  function Element(ids: seq<Id>, i: int): Option<Id> {
    if 0 <= i < |ids| then Some(ids[i]) else None
  }

  predicate LinkAt<E>(entries: map<Id, Node<E>>, ids: seq<Id>, i: nat)
    requires i < |ids|
  {
    && ids[i] in entries
    && entries[ids[i]].previous == Element(ids, i - 1)
    && entries[ids[i]].next == Element(ids, i + 1)
  }

  /** The table links exactly the tasks of `ids`, in that order. */
  ghost predicate Linked<E>(entries: map<Id, Node<E>>, ids: seq<Id>) {
    && (forall i :: 0 <= i < |ids| ==> LinkAt(entries, ids, i))
    && (forall id :: id in entries ==> id in ids)
  }

  /** The entries of the given tasks are the same in both tables. */
  ghost predicate SameEntries<E>(a: map<Id, Node<E>>, b: map<Id, Node<E>>, ids: seq<Id>) {
    forall id :: id in ids ==> id in a && id in b && a[id].entry == b[id].entry
  }

  /** The position of a task. */
  function Find(ids: seq<Id>, id: Id): (k: nat)
    requires id in ids
    ensures k < |ids| && ids[k] == id
  {
    if ids[0] == id then 0 else Find(ids[1..], id) + 1
  }

  /** `id` moved to the front. */
  function Promoted(ids: seq<Id>, id: Id): seq<Id>
    requires id in ids
  {
    var k := Find(ids, id);
    [id] + ids[..k] + ids[k + 1..]
  }

  ghost predicate Represents<E>(entries: map<Id, Node<E>>, head: Option<Id>, tail: Option<Id>, ids: seq<Id>) {
    Distinct(ids) && Linked(entries, ids) && head == Element(ids, 0) && tail == Element(ids, |ids| - 1)
  }

  // ---- Changes of the links ----

  function Next<E>(entries: map<Id, Node<E>>, at: Option<Id>, next: Option<Id>): map<Id, Node<E>>
    requires at.Some? ==> at.value in entries
  {
    if at.Some? then entries[at.value := entries[at.value].(next := next)] else entries
  }

  function Previous<E>(entries: map<Id, Node<E>>, at: Option<Id>, previous: Option<Id>): map<Id, Node<E>>
    requires at.Some? ==> at.value in entries
  {
    if at.Some? then entries[at.value := entries[at.value].(previous := previous)] else entries
  }

  lemma PushLinks<E>(entries: map<Id, Node<E>>, ids: seq<Id>, id: Id, entry: E)
    requires Distinct(ids) && Linked(entries, ids) && id !in ids
    ensures var tail := Element(ids, |ids| - 1);
            && (tail.Some? ==> tail.value in entries)
            && var pushed := Next(entries, tail, Some(id))[id := Node(entry, tail, None)];
            && Linked(pushed, ids + [id]) && Distinct(ids + [id]) && SameEntries(pushed, entries, ids)
  {
    var n, tail := |ids|, Element(ids, |ids| - 1);
    if n > 0 { assert LinkAt(entries, ids, n - 1); }
    var pushed, all := Next(entries, tail, Some(id))[id := Node(entry, tail, None)], ids + [id];
    forall i | 0 <= i < |all| ensures LinkAt(pushed, all, i) {
      if i < n { assert LinkAt(entries, ids, i); }
    }
    forall q | q in ids ensures q in entries {
      var i :| 0 <= i < n && ids[i] == q;
      assert LinkAt(entries, ids, i);
    }
  }

  lemma PopLinks<E>(entries: map<Id, Node<E>>, ids: seq<Id>)
    requires Distinct(ids) && Linked(entries, ids) && |ids| > 0
    ensures var next := Element(ids, 1);
            && ids[0] in entries && entries[ids[0]].next == next && (next.Some? ==> next.value in entries - {ids[0]})
            && var popped := Previous(entries - {ids[0]}, next, None);
            && Linked(popped, ids[1..]) && Distinct(ids[1..]) && SameEntries(popped, entries, ids[1..])
  {
    assert LinkAt(entries, ids, 0);
    var next, rest := Element(ids, 1), ids[1..];
    if |ids| > 1 { assert LinkAt(entries, ids, 1); }
    var popped := Previous(entries - {ids[0]}, next, None);
    forall i | 0 <= i < |rest| ensures LinkAt(popped, rest, i) {
      assert LinkAt(entries, ids, i + 1);
    }
    forall q | q in entries && q != ids[0] ensures q in rest {
      var i :| 0 <= i < |ids| && ids[i] == q;
      assert rest[i - 1] == q;
    }
    forall q | q in rest ensures q in entries {
      var i :| 0 <= i < |rest| && rest[i] == q;
      assert LinkAt(entries, ids, i + 1);
    }
  }

  /** The four writes of `promote` to the task at position `k`. */
  function Relinked<E>(entries: map<Id, Node<E>>, ids: seq<Id>, k: nat): map<Id, Node<E>>
    requires 0 < k < |ids| && forall i :: 0 <= i < |ids| ==> ids[i] in entries
  {
    var (id, before, after, head) := (ids[k], Element(ids, k - 1), Element(ids, k + 1), Element(ids, 0));
    var relinked := Previous(Previous(Next(entries, before, after), after, before), head, Some(id));
    relinked[id := relinked[id].(previous := None, next := head)]
  }

  lemma PromotedAt<E>(entries: map<Id, Node<E>>, ids: seq<Id>, k: nat, moved: seq<Id>, i: nat)
    requires 0 < k < |ids| && forall j :: 0 <= j < |ids| ==> ids[j] in entries
    requires Distinct(ids) && moved == [ids[k]] + ids[..k] + ids[k + 1..] && i < |moved|
    requires forall j :: 0 <= j < |ids| ==> LinkAt(entries, ids, j)
    ensures LinkAt(Relinked(entries, ids, k), moved, i)
  {
    var from := if i == 0 then k else if i <= k then i - 1 else i;
    assert moved[i] == ids[from] && LinkAt(entries, ids, from);
  }

  lemma MovedIsDistinct(ids: seq<Id>, k: nat, moved: seq<Id>)
    requires Distinct(ids) && k < |ids| && moved == [ids[k]] + ids[..k] + ids[k + 1..]
    ensures Distinct(moved) && forall q :: q in ids <==> q in moved
  {
    forall q | q in ids ensures q in moved {
      var i :| 0 <= i < |ids| && ids[i] == q;
      assert moved[if i == k then 0 else if i < k then i + 1 else i] == q;
    }
  }

  lemma RelinkedKeeps<E>(entries: map<Id, Node<E>>, ids: seq<Id>, k: nat)
    requires 0 < k < |ids| && forall i :: 0 <= i < |ids| ==> ids[i] in entries
    ensures Relinked(entries, ids, k).Keys == entries.Keys
    ensures forall q :: q in entries ==> Relinked(entries, ids, k)[q].entry == entries[q].entry
  {
  }

  lemma PromoteLinks<E>(entries: map<Id, Node<E>>, ids: seq<Id>, k: nat, moved: seq<Id>)
    requires Distinct(ids) && Linked(entries, ids) && 0 < k < |ids|
    requires moved == [ids[k]] + ids[..k] + ids[k + 1..]
    requires forall i :: 0 <= i < |ids| ==> ids[i] in entries
    ensures Distinct(moved) && Linked(Relinked(entries, ids, k), moved)
  {
    MovedIsDistinct(ids, k, moved);
    RelinkedKeeps(entries, ids, k);
    var relinked := Relinked(entries, ids, k);
    forall i | 0 <= i < |moved| ensures LinkAt(relinked, moved, i) {
      PromotedAt(entries, ids, k, moved, i);
    }
  }

  lemma LinkedHas<E>(entries: map<Id, Node<E>>, ids: seq<Id>)
    requires Linked(entries, ids)
    ensures forall i :: 0 <= i < |ids| ==> ids[i] in entries
    ensures SameEntries(entries, entries, ids)
  {
    forall i | 0 <= i < |ids| ensures ids[i] in entries { assert LinkAt(entries, ids, i); }
  }

  lemma MovedEnds(ids: seq<Id>, k: nat, moved: seq<Id>)
    requires 0 < k < |ids| && moved == [ids[k]] + ids[..k] + ids[k + 1..]
    ensures Element(moved, 0) == Some(ids[k])
    ensures Element(moved, |moved| - 1) == Element(ids, if k == |ids| - 1 then k - 1 else |ids| - 1)
  {
  }

  lemma Promotes<E>(entries: map<Id, Node<E>>, ids: seq<Id>, k: nat, moved: seq<Id>)
    requires Distinct(ids) && Linked(entries, ids) && 0 < k < |ids| && moved == [ids[k]] + ids[..k] + ids[k + 1..]
    requires forall i :: 0 <= i < |ids| ==> ids[i] in entries
    ensures var tail := Element(ids, if k == |ids| - 1 then k - 1 else |ids| - 1);
            Represents(Relinked(entries, ids, k), Some(ids[k]), tail, moved)
  {
    PromoteLinks(entries, ids, k, moved);
    MovedEnds(ids, k, moved);
  }

  class Queue<E> {
    var entries: map<Id, Node<E>>
    var head: Option<Id>
    var tail: Option<Id>
    ghost var ids: seq<Id>

    ghost predicate Valid()
      reads this
    {
      Represents(entries, head, tail, ids)
    }

    constructor ()
      ensures Valid() && ids == []
    {
      entries, head, tail, ids := map[], None, None, [];
    }

    method Push(id: Id, entry: E)
      requires Valid() && id !in ids
      modifies this
      ensures Valid() && ids == old(ids) + [id]
      ensures id in entries && entries[id].entry == entry && SameEntries(entries, old(entries), old(ids))
    {
      PushLinks(entries, ids, id, entry);
      ghost var linked := Next(entries, tail, Some(id))[id := Node(entry, tail, None)];
      if tail.Some? {
        entries := entries[tail.value := entries[tail.value].(next := Some(id))];
      } else {
        head := Some(id);
      }
      entries := entries[id := Node(entry, tail, None)];
      assert entries == linked;
      tail := Some(id);
      ids := ids + [id];
    }

    method Pop() returns (r: Option<(Id, E)>)
      requires Valid()
      modifies this
      ensures Valid() && SameEntries(entries, old(entries), ids)
      ensures if old(ids) == [] then r == None && ids == []
              else ids == old(ids)[1..] && old(ids)[0] in old(entries)
                   && r == Some((old(ids)[0], old(entries)[old(ids)[0]].entry))
    {
      if head.None? { return None; }
      PopLinks(entries, ids);
      var id := head.value;
      var node := entries[id];
      entries := entries - {id};
      head := node.next;
      if node.next.Some? {
        entries := entries[node.next.value := entries[node.next.value].(previous := None)];
      } else {
        tail := None;
      }
      ids := ids[1..];
      return Some((id, node.entry));
    }

    /** The writes of `promote` for the task at position `k`. */
    method Relink(id: Id, ghost k: nat)
      requires Valid() && 0 < k < |ids| && ids[k] == id
      requires forall i :: 0 <= i < |ids| ==> ids[i] in entries
      modifies this`entries, this`head, this`tail
      ensures entries == Relinked(old(entries), ids, k) && head == Some(id)
      ensures tail == Element(ids, if k == |ids| - 1 then k - 1 else |ids| - 1)
    {
      assert LinkAt(entries, ids, k);
      var previous, next := entries[id].previous, entries[id].next;
      entries := entries[previous.value := entries[previous.value].(next := next)];
      if next.Some? {
        entries := entries[next.value := entries[next.value].(previous := previous)];
      } else {
        tail := previous;
      }
      entries := entries[head.value := entries[head.value].(previous := Some(id))];
      entries := entries[id := entries[id].(previous := None, next := head)];
      head := Some(id);
    }

    method MoveToFront(id: Id, ghost k: nat)
      requires Valid() && 0 < k < |ids| && ids[k] == id && k == Find(ids, id)
      requires forall i :: 0 <= i < |ids| ==> ids[i] in entries
      modifies this
      ensures Valid() && ids == Promoted(old(ids), id)
      ensures entries == Relinked(old(entries), old(ids), k)
    {
      Promotes(entries, ids, k, Promoted(ids, id));
      Relink(id, k);
      ids := Promoted(ids, id);
    }

    /** A queued task that is not first becomes first; the others keep their order. */
    method Promote(id: Id) returns (promoted: bool)
      requires Valid()
      modifies this
      ensures Valid() && promoted == (id in old(ids) && old(head) != Some(id))
      ensures ids == if promoted then Promoted(old(ids), id) else old(ids)
      ensures SameEntries(entries, old(entries), old(ids))
    {
      LinkedHas(entries, ids);
      if head == Some(id) || id !in entries { return false; }
      ghost var k := Find(ids, id);
      RelinkedKeeps(entries, ids, k);
      MoveToFront(id, k);
      return true;
    }
  }
}
