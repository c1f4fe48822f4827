/** Asynchronous writes: the counter of sends that are still using the caller's buffer. */
module SendWindow {
  import opened Bytes

  /** What posting a send leads to: a handle for later, completion on the spot, or an error. */
  datatype Posted = Pending | Immediate | Failed

  /** Which sends the network completes, each time the worker is given the chance. */
  type Turns = seq<set<nat>>

  /** One copy of one block: the number of servers its placement used, and what the network does meanwhile. An error
      is a failure of set_data before anything is sent. */
  datatype Send = Send(storages: nat, posted: Posted, wait: Turns, after: set<nat>) | Error

  /** The largest server count among the sends, and zero for none. */
  function Largest(sends: seq<Send>): nat
  {
    if sends == [] then 0
    else Max(if sends[0].Send? then sends[0].storages else 0, Largest(sends[1..]))
  }

  lemma {:induction false} LargestAt(sends: seq<Send>, i: nat)
    requires i < |sends| && sends[i].Send?
    ensures sends[i].storages <= Largest(sends)
  {
    if i > 0 {
      LargestAt(sends[1..], i - 1);
    }
  }

  /** Some turn lets everything in `flying` complete. */
  ghost predicate Drains(turns: Turns, flying: set<nat>)
  {
    exists t :: 0 <= t < |turns| && flying <= turns[t]
  }

  /** The network never completes send `id` in these turns. */
  ghost predicate Silent(turns: Turns, id: nat)
  {
    forall t :: 0 <= t < |turns| ==> id !in turns[t]
  }

  ghost predicate SilentAll(sends: seq<Send>, id: nat)
  {
    forall i :: 0 <= i < |sends| && sends[i].Send? ==> Silent(sends[i].wait, id) && id !in sends[i].after
  }

  // Marker: facts about a send, used where a proof names it.
  predicate OnSend(j: int) { true }

  /** How many of the first i sends are left pending. */
  function PendingIn(sends: seq<Send>, i: nat): nat
    requires i <= |sends|
  {
    if i == 0 then 0
    else PendingIn(sends, i - 1) + if sends[i - 1].Send? && sends[i - 1].posted.Pending? then 1 else 0
  }

  /** Of the first i sends, those that were left pending and that the network never completes are still in flight; the
      first of them has the number `first`. */
  ghost predicate StillFlying(sends: seq<Send>, i: nat, first: nat, flying: set<nat>)
    requires i <= |sends|
  {
    forall j {:trigger OnSend(j)} ::
      OnSend(j) && 0 <= j < i && sends[j].Send? && sends[j].posted.Pending? && SilentAll(sends, first + PendingIn(sends, j)) ==>
        first + PendingIn(sends, j) in flying
  }

  lemma {:induction false} FlyingStep(sends: seq<Send>, i: nat, first: nat, before: set<nat>, posted: set<nat>)
    requires i < |sends| && sends[i].Send? && StillFlying(sends, i, first, before)
    requires forall id :: id in before && Silent(sends[i].wait, id) ==> id in posted
    requires sends[i].posted.Pending? ==> first + PendingIn(sends, i) in posted
    ensures StillFlying(sends, i + 1, first, posted - sends[i].after)
  {
    forall j | OnSend(j) && 0 <= j < i + 1 && sends[j].Send? && sends[j].posted.Pending? && SilentAll(sends, first + PendingIn(sends, j))
      ensures first + PendingIn(sends, j) in posted - sends[i].after
    {
      var id := first + PendingIn(sends, j);
      assert Silent(sends[i].wait, id) && id !in sends[i].after;
    }
  }

  /** What the network completed after one of the first i sends, of those posted by then, is not in flight. */
  ghost predicate CompletedGone(sends: seq<Send>, i: nat, first: nat, flying: set<nat>)
    requires i <= |sends|
  {
    forall j {:trigger OnSend(j)} :: OnSend(j) && 0 <= j < i && sends[j].Send? ==>
      forall id :: id in sends[j].after && id < first + PendingIn(sends, j + 1) ==> id !in flying
  }

  lemma {:induction false} PendingMono(sends: seq<Send>, i: nat, j: nat)
    requires i <= j <= |sends|
    ensures PendingIn(sends, i) <= PendingIn(sends, j)
  {
    if i < j {
      PendingMono(sends, i, j - 1);
    }
  }

  lemma GoneStep(sends: seq<Send>, i: nat, first: nat, before: set<nat>, posted: set<nat>)
    requires i < |sends| && sends[i].Send? && CompletedGone(sends, i, first, before)
    requires forall id :: id in posted ==> id in before || id >= first + PendingIn(sends, i)
    ensures CompletedGone(sends, i + 1, first, posted - sends[i].after)
  {
    forall j | OnSend(j) && 0 <= j < i + 1 && sends[j].Send?
      ensures forall id :: id in sends[j].after && id < first + PendingIn(sends, j + 1) ==> id !in posted - sends[i].after
    {
      if j < i {
        PendingMono(sends, j + 1, i);
      }
    }
  }

  /** Some turn lets every send numbered below `hi` complete. */
  ghost predicate Clears(turns: Turns, hi: nat)
  {
    exists t :: 0 <= t < |turns| && CompletesAll(turns[t], hi)
  }

  ghost predicate CompletesAll(turn: set<nat>, hi: nat)
  {
    forall id: nat :: id < hi ==> id in turn
  }

  /** The wait of every send, the first of them numbered `first`, lets all sends before it complete. */
  ghost predicate AllClear(sends: seq<Send>, first: nat)
  {
    forall j {:trigger OnSend(j)} :: OnSend(j) && 0 <= j < |sends| && sends[j].Send? ==> Clears(sends[j].wait, first + PendingIn(sends, j))
  }

  lemma ClearsDrains(turns: Turns, hi: nat, flying: set<nat>)
    requires Clears(turns, hi) && forall id :: id in flying ==> id < hi
    ensures Drains(turns, flying)
  {
    var t :| 0 <= t < |turns| && CompletesAll(turns[t], hi);
    assert flying <= turns[t];
  }

  class Window {
    var outstanding: nat
    /** The network's side: sends that have not completed. */
    var flying: set<nat>
    var next: nat
    /** The largest value the counter has had. */
    ghost var peak: nat

    ghost predicate Valid()
      reads this
    {
      outstanding == |flying| <= peak && forall i :: i in flying ==> i < next
    }

    constructor ()
      ensures Valid() && flying == {} && peak == 0
    {
      outstanding, flying, next, peak := 0, {}, 0, 0;
    }

    /** server_send_completion_callback: runs once for each send that was pending. */
    method Callback(id: nat)
      requires Valid() && id in flying
      modifies this`outstanding, this`flying
      ensures Valid() && flying == old(flying) - {id} && outstanding == old(outstanding) - 1
    {
      flying := flying - {id};
      outstanding := outstanding - 1;
    }

    /** ucp_worker_progress: the callbacks of the sends that complete, in any order. */
    method Progress(completes: set<nat>)
      requires Valid()
      modifies this`outstanding, this`flying
      ensures Valid() && flying == old(flying) - completes
    {
      while flying * completes != {}
        invariant Valid() && flying <= old(flying) && old(flying) - completes <= flying
        decreases |flying|
      {
        var id :| id in flying * completes;
        Callback(id);
      }
      assert forall id :: id in flying && id in completes ==> id in flying * completes;
    }

    /** async_data_worker_progress: waits until at most `limit` sends are outstanding. */
    method Wait(limit: nat, turns: Turns) returns (ended: bool)
      requires Valid()
      modifies this`outstanding, this`flying
      ensures Valid() && flying <= old(flying)
      ensures ended <==> outstanding <= limit
      ensures old(outstanding) <= limit ==> flying == old(flying)
      ensures Drains(turns, old(flying)) ==> ended
      ensures forall id :: id in old(flying) && Silent(turns, id) ==> id in flying
    {
      var t := 0;
      while outstanding > limit && t < |turns|
        invariant Valid() && flying <= old(flying) && t <= |turns| && (old(outstanding) <= limit ==> t == 0)
        invariant t == 0 ==> flying == old(flying)
        invariant forall u :: 0 <= u < t && old(flying) <= turns[u] ==> flying == {}
        invariant forall id :: id in old(flying) && Silent(turns, id) ==> id in flying
        decreases |turns| - t
      {
        Progress(turns[t]);
        t := t + 1;
      }
      return outstanding <= limit;
    }

    /** The sending part of set_data. The wait may let one more send than there are servers be outstanding. */
    method SetData(s: Send) returns (ended: bool)
      requires Valid() && s.Send?
      modifies this
      ensures Valid()
      ensures ended ==> outstanding <= s.storages + 1 && peak <= Max(old(peak), s.storages + 1)
      ensures !ended ==> peak == old(peak)
      ensures Drains(s.wait, old(flying)) ==> ended
      ensures forall id :: id in old(flying) && Silent(s.wait, id) ==> id in flying
      ensures ended && s.posted.Pending? ==> old(next) in flying
      ensures flying <= old(flying) + if ended then {old(next)} else {}
      ensures old(outstanding) <= s.storages ==> ended && flying == old(flying) + if s.posted.Pending? then {old(next)} else {}
      ensures ended ==> next == old(next) + if s.posted.Pending? then 1 else 0
    {
      ended := Wait(s.storages, s.wait);
      if ended && s.posted.Pending? {
        flying := flying + {next};
        next := next + 1;
        outstanding := outstanding + 1;
        peak := Max(peak, outstanding);
      }
    }

    /** The first i sends of a write are posted, the first of them with the number `first`. */
    ghost predicate Reached(sends: seq<Send>, i: nat, first: nat, peak0: nat)
      reads this
      requires i <= |sends|
    {
      && Valid() && peak <= Max(peak0, Largest(sends) + 1) && next == first + PendingIn(sends, i)
      && StillFlying(sends, i, first, flying) && CompletedGone(sends, i, first, flying)
    }

    /** One more send. */
    method SendOne(sends: seq<Send>, i: nat, ghost first: nat, ghost peak0: nat) returns (ended: bool)
      requires i < |sends| && sends[i].Send? && Reached(sends, i, first, peak0)
      modifies this
      ensures Valid() && peak <= Max(peak0, Largest(sends) + 1) && CompletedGone(sends, i, first, flying)
      ensures ended ==> Reached(sends, i + 1, first, peak0)
      ensures Clears(sends[i].wait, first + PendingIn(sends, i)) ==> ended
    {
      LargestAt(sends, i);
      ghost var before := flying;
      if Clears(sends[i].wait, next) {
        ClearsDrains(sends[i].wait, next, flying);
      }
      ended := SetData(sends[i]);
      if ended {
        FlyingStep(sends, i, first, before, flying);
        GoneStep(sends, i, first, before, flying);
        Progress(sends[i].after);
      }
    }

    /** The sends of imss_write, and the wait for all of them at its end. The counter is the number of sends in flight
        throughout, and never more than the largest server count plus one. If the call returns normally, every send was
        posted, and none refers to the caller's buffer any more. If set_data fails for a block, every send posted before it
        that was left pending and that the network has not completed still does. One of the two happens if every wait
        gets a turn that lets all sends complete. */
    method Write(sends: seq<Send>, last: Turns) returns (result: Result, ghost stop: nat)
      requires Valid()
      modifies this
      ensures Valid() && peak <= Max(old(peak), Largest(sends) + 1)
      ensures result.Done? ==> flying == {} && outstanding == 0 && stop == |sends| && next == old(next) + PendingIn(sends, |sends|)
      ensures stop <= |sends| && forall j :: 0 <= j < stop ==> sends[j].Send?
      ensures result.Aborted? ==> stop < |sends| && sends[stop].Error? && StillFlying(sends, stop, old(next), flying)
      ensures CompletedGone(sends, stop, old(next), flying)
      ensures AllClear(sends, old(next)) && Clears(last, old(next) + PendingIn(sends, |sends|)) ==> !result.Waiting?
    {
      ghost var first, peak0 := next, peak;
      stop := 0;
      for i := 0 to |sends|
        invariant stop == i && Reached(sends, i, first, peak0) && forall j :: 0 <= j < i ==> sends[j].Send?
      {
        if sends[i].Error? {
          return Aborted, i;
        }
        var ended := SendOne(sends, i, first, peak0);
        if !ended {
          assert OnSend(i);
          return Waiting, i;
        }
        stop := i + 1;
      }
      if Clears(last, next) {
        ClearsDrains(last, next, flying);
      }
      var ended := Wait(0, last);
      result := if ended then Done else Waiting;
    }
  }

  /** A call returned, returned an error, or is still waiting for the network. */
  datatype Result = Done | Aborted | Waiting
}
