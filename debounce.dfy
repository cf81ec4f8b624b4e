/**
 * `debounce(func, wait)` of content.js: the returned function clears the
 * timer it set last and sets a new one, so a burst of calls leaves one
 * scheduled call of `func`, with the arguments of the last call in the burst.
 * The feed observer debounces the feed scan this way.
 */
module Debounce {
  import opened Wrappers
  import opened Timers

  /** The closure that `debounce` returns, with its closed-over `timeout`. */
  class Debouncer<A> {
    /** The closed-over `timeout`: the id of the last timer set, `undefined` at first. */
    var timeout: Option<nat>
    /** The timers of this debouncer that have neither fired nor been cleared, each with the arguments for `func`. */
    var scheduled: seq<Timer<A>>
    /** The id the next `setTimeout` returns. */
    var nextId: nat

    /** At most one call of `func` is ever scheduled, and it is the one `timeout` names. */
    ghost predicate Valid()
      reads this
    {
      && |scheduled| <= 1
      && (scheduled != [] ==> timeout == Some(scheduled[0].id))
      && (forall k | 0 <= k < |scheduled| :: scheduled[k].id < nextId)
    }

    constructor ()
      ensures Valid() && timeout == None && scheduled == []
    {
      timeout := None;
      scheduled := [];
      nextId := 1;
    }

    /** `executedFunction(...args)`: `clearTimeout(timeout); timeout = setTimeout(() => func(...args), wait)`. */
    method Call(args: A)
      requires Valid()
      modifies this
      ensures Valid()
      ensures scheduled == [Timer(old(nextId), args)] && timeout == Some(old(nextId))
      ensures nextId == old(nextId) + 1
    {
      scheduled := ClearTimeout(scheduled, timeout);
      assert scheduled == [];
      scheduled := scheduled + [Timer(nextId, args)];
      timeout := Some(nextId);
      nextId := nextId + 1;
    }

    /** The scheduled timer fires: `func` runs with the arguments it gives back. */
    method Fire() returns (args: A)
      requires Valid() && scheduled != []
      modifies this
      ensures Valid()
      ensures args == old(scheduled[0].payload) && scheduled == []
      ensures timeout == old(timeout) && nextId == old(nextId)
    {
      args := scheduled[0].payload;
      scheduled := scheduled[1..];
    }
  }

  /** Three calls in a burst leave one scheduled call, with the last call's arguments. */
  method BurstCoalesces<A>(first: A, second: A, third: A) returns (ran: A)
    ensures ran == third
  {
    var d := new Debouncer<A>();
    d.Call(first);
    d.Call(second);
    d.Call(third);
    ran := d.Fire();
  }
}
