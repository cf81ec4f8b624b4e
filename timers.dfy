/**
 * `setTimeout` and `clearTimeout` without the clock: a timer is a scheduled
 * callback with an id and the data its callback will use. Timers that share a
 * delay fire in the order they were scheduled.
 */
module Timers {
  import opened Wrappers

  datatype Timer<P> = Timer(id: nat, payload: P)

  /** `clearTimeout(id)`: the same timers without the one with that id; an id that already fired, or none at all, changes nothing. */
  function ClearTimeout<P>(pending: seq<Timer<P>>, id: Option<nat>): (r: seq<Timer<P>>)
    ensures forall k | 0 <= k < |r| :: r[k] in pending && (id.None? || r[k].id != id.value)
    ensures forall k | 0 <= k < |pending| :: (id.None? || pending[k].id != id.value) ==> pending[k] in r
    ensures |r| <= |pending|
    ensures (id.None? || forall k | 0 <= k < |pending| :: pending[k].id != id.value) ==> r == pending
  {
    if pending == [] then []
    else (if id.Some? && pending[0].id == id.value then [] else [pending[0]]) + ClearTimeout(pending[1..], id)
  }

  /** Ids in the order the timers were set: `setTimeout` hands out ever larger ids. */
  predicate IdsIncreasing<P>(pending: seq<Timer<P>>) {
    forall i, j | 0 <= i < j < |pending| :: pending[i].id < pending[j].id
  }

  /** Removing index k of a sequence, seen from its head. */
  lemma RemoveAfterHead<P>(pending: seq<Timer<P>>, k: nat)
    requires 0 < k < |pending|
    ensures pending[..k] + pending[k + 1..] == [pending[0]] + (pending[1..][..k - 1] + pending[1..][k..])
  {
  }

  /** Clearing the id of one pending timer removes exactly that timer and keeps the others in order. */
  lemma {:induction false} ClearRemovesOne<P>(pending: seq<Timer<P>>, k: nat)
    requires k < |pending|
    requires forall j | 0 <= j < |pending| && j != k :: pending[j].id != pending[k].id
    ensures ClearTimeout(pending, Some(pending[k].id)) == pending[..k] + pending[k + 1..]
    decreases k
  {
    var id := Some(pending[k].id);
    var rest := pending[1..];
    if k == 0 {
      forall j | 0 <= j < |rest| ensures rest[j].id != id.value {
        assert rest[j] == pending[j + 1];
      }
      assert ClearTimeout(rest, id) == rest;
    } else {
      assert rest[k - 1] == pending[k];
      forall j | 0 <= j < |rest| && j != k - 1 ensures rest[j].id != rest[k - 1].id {
        assert rest[j] == pending[j + 1];
      }
      ClearRemovesOne(rest, k - 1);
      RemoveAfterHead(pending, k);
    }
  }

  /** Increasing ids are distinct. */
  lemma IncreasingIdsDistinct<P>(pending: seq<Timer<P>>, k: nat)
    requires IdsIncreasing(pending) && k < |pending|
    ensures forall j | 0 <= j < |pending| && j != k :: pending[j].id != pending[k].id
  {
    forall j | 0 <= j < |pending| && j != k ensures pending[j].id != pending[k].id {
      if j < k {
        assert pending[j].id < pending[k].id;
      } else {
        assert pending[k].id < pending[j].id;
      }
    }
  }

  /** Taking one timer out keeps the rest increasing. */
  lemma RemoveKeepsIncreasing<P>(pending: seq<Timer<P>>, k: nat)
    requires IdsIncreasing(pending) && k < |pending|
    ensures IdsIncreasing(pending[..k] + pending[k + 1..])
  {
    var r := pending[..k] + pending[k + 1..];
    forall i, j | 0 <= i < j < |r| ensures r[i].id < r[j].id {
      var i' := if i < k then i else i + 1;
      var j' := if j < k then j else j + 1;
      assert r[i] == pending[i'] && r[j] == pending[j'];
    }
  }

  /** A timer set after all pending ones goes last and keeps the ids increasing. */
  lemma AppendKeepsIncreasing<P>(pending: seq<Timer<P>>, t: Timer<P>)
    requires IdsIncreasing(pending)
    requires forall k | 0 <= k < |pending| :: pending[k].id < t.id
    ensures IdsIncreasing(pending + [t])
  {
  }

  /** The oldest timer firing keeps the rest increasing. */
  lemma DropKeepsIncreasing<P>(pending: seq<Timer<P>>)
    requires IdsIncreasing(pending) && pending != []
    ensures IdsIncreasing(pending[1..])
  {
  }

  /** Clearing keeps the ids in the order they were handed out. */
  lemma ClearKeepsIncreasing<P>(pending: seq<Timer<P>>, id: Option<nat>)
    requires IdsIncreasing(pending)
    ensures IdsIncreasing(ClearTimeout(pending, id))
  {
    if k :| 0 <= k < |pending| && id == Some(pending[k].id) {
      IncreasingIdsDistinct(pending, k);
      ClearRemovesOne(pending, k);
      RemoveKeepsIncreasing(pending, k);
    }
  }

  /** Clearing a timer never introduces an id: every id left is below any bound the pending ids were below. */
  lemma {:induction false} ClearKeepsBound<P>(pending: seq<Timer<P>>, id: Option<nat>, bound: nat)
    requires forall k | 0 <= k < |pending| :: pending[k].id < bound
    ensures var r := ClearTimeout(pending, id); forall k | 0 <= k < |r| :: r[k].id < bound
    decreases |pending|
  {
    if pending != [] {
      ClearKeepsBound(pending[1..], id, bound);
    }
  }
}
