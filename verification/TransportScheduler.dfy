/** The scheduler object itself: the fields it updates under its condition, and the loops
    that update them.  Every method is proved to make exactly the machine's transition. */
module TransportScheduler {
  import opened Counting
  import opened SchedulerModel
  import opened SchedulerEffects
  import opened SchedulerInvariant
  import opened Sequences

  datatype AcquireError = GlobalQueueFull | DeviceQueueFull

  datatype Freeing = Freed | Underflow | BackgroundUnderflow

  datatype Admission = Queued(id: nat) | Refused(error: AcquireError)

  class Scheduler {
    const limits: Limits
    var active: int
    var activeBy: map<Device, int>
    var backgroundBy: map<Device, int>
    var waiting: int
    var waitingBy: map<Device, int>
    var foreground: Lane
    var background: Lane
    var streak: int
    var queueFull: int
    var waitTimeouts: int
    // The waiter objects: what is known of each request, by arrival number.
    var requests: seq<Request>

    ghost function Abs(): State
      reads this
    {
      State(limits, active, activeBy, backgroundBy, waiting, waitingBy,
            foreground, background, streak, queueFull, waitTimeouts, requests)
    }

    ghost predicate Valid()
      reads this
    {
      Inv(Abs())
    }

    constructor (limits: Limits)
      requires limits.Valid()
      ensures Valid() && Abs() == Init(limits) && Conserving(Abs())
    {
      this.limits := limits;
      active, activeBy, backgroundBy := 0, map[], map[];
      waiting, waitingBy := 0, map[];
      foreground, background := Lane(map[], []), Lane(map[], []);
      streak, queueFull, waitTimeouts := 0, 0, 0;
      requests := [];
      new;
      InitInv(limits);
    }

    predicate Admissible(d: Device, w: Workload)
      reads this
    {
      if active >= limits.total || Get(activeBy, d) >= limits.device then false
      else if w.Background? && Get(backgroundBy, d) >= limits.backgroundDevice then false
      else true
    }

    /** One pass over the turn order of a class, in which every device has waiters. */
    method Scan(w: Workload, lane: Lane) returns (popped: bool, id: nat, after: Lane)
      requires lane == Abs().Lane(w) && forall d :: d in lane.turns ==> lane.Queue(d) != []
      ensures popped == Pop(Abs(), w).Somebody?
      ensures popped ==> id == Pop(Abs(), w).id && after == Pop(Abs(), w).lane
      ensures !popped ==> after == lane
    {
      ghost var turns := lane.turns;
      var queues, rr := lane.queues, lane.turns;
      popped, id := false, 0;
      assert turns[0..] + turns[..0] == turns;
      for i := 0 to |rr|
        invariant rr == turns[i..] + turns[..i]
        invariant forall j :: 0 <= j < i ==> !CanGrant(Abs(), turns[j], w)
      {
        var d := rr[0];
        InTurn(turns, i);
        assert d == turns[i] && d in turns;
        rr := rr[1..];
        if d !in queues || queues[d] == [] {
          // A device leaves the turn order together with its last waiter.
          assert false;
        } else if !Admissible(d, w) {
          rr := rr + [d];
          PassedOver(turns, i);
        } else {
          FirstIs(Abs(), w, 0, i);
          var queue := queues[d];
          popped, id, queue := true, queue[0], queue[1..];
          if queue != [] {
            queues := queues[d := queue];
            rr := rr + [d];
          } else {
            queues := queues - {d};
          }
          return popped, id, Lane(queues, rr);
        }
      }
      assert turns[|turns|..] + turns[..|turns|] == turns;
      FirstIs(Abs(), w, 0, |turns|);
      after := lane;
    }

    method PopEligible(w: Workload) returns (popped: bool, id: nat)
      requires var lane := Abs().Lane(w); forall d :: d in lane.turns ==> lane.Queue(d) != []
      modifies `foreground, `background
      ensures popped == Pop(old(Abs()), w).Somebody?
      ensures popped ==> id == Pop(old(Abs()), w).id
      ensures Abs() == if popped then old(Abs()).WithLane(w, Pop(old(Abs()), w).lane) else old(Abs())
    {
      if w.Foreground? {
        popped, id, foreground := Scan(w, foreground);
      } else {
        popped, id, background := Scan(w, background);
      }
    }

    /** The next waiter, foreground first except after a full burst. */
    method PopNext() returns (got: bool, id: nat)
      requires forall d :: d in foreground.turns ==> foreground.Queue(d) != []
      requires forall d :: d in background.turns ==> background.Queue(d) != []
      modifies `foreground, `background, `streak
      ensures var s := old(Abs()); var w := Choice(s); var popped := Pop(s, w);
              && got == popped.Somebody?
              && (got ==> id == popped.id)
              && Abs() == if !got then s
                          else s.WithLane(w, popped.lane).(streak := if w.Foreground? then s.streak + 1 else 0)
    {
      got, id := false, 0;
      if streak >= FOREGROUND_BURST {
        got, id := PopEligible(Background);
        if got { streak := 0; }
      }
      if !got {
        got, id := PopEligible(Foreground);
        if got { streak := streak + 1; }
      }
      if !got {
        got, id := PopEligible(Background);
        if got { streak := 0; }
      }
    }

    /** Bookkeeping for a waiter just taken from its queue. */
    method Admit(id: nat)
      requires id < |requests| && requests[id].device in waitingBy
      modifies `active, `activeBy, `backgroundBy, `waiting, `waitingBy, `requests
      ensures Abs() == Start(old(Abs()), id)
    {
      hide Put;
      var r := requests[id];
      var d := r.device;
      ghost var s := Start(Abs(), id);
      waiting := waiting - 1;
      waitingBy := Put(waitingBy, d, waitingBy[d] - 1);
      active := active + 1;
      activeBy := Put(activeBy, d, Get(activeBy, d) + 1);
      if r.workload.Background? {
        backgroundBy := Put(backgroundBy, d, Get(backgroundBy, d) + 1);
      }
      requests := requests[id := r.(status := Active)];
      assert (waiting, waitingBy, active) == (s.waiting, s.waitingBy, s.active);
      assert (activeBy, backgroundBy, requests) == (s.activeBy, s.backgroundBy, s.ledger);
    }

    method GrantLocked()
      requires Valid()
      modifies this
      ensures Valid() && Abs() == GrantAll(old(Abs()))
    {
      hide LaneOk, CountersOk, CapsOk, FifoOk;
      while active < limits.total
        invariant Inv(Abs()) && GrantAll(Abs()) == GrantAll(old(Abs()))
        decreases waiting
      {
        ghost var s := Abs();
        LanesAreFresh(s);
        var got, id := PopNext();
        if !got { break; }
        NextIsWaiting(s);
        GrantSplits(s, Abs(), id);
        Admit(id);
      }
    }

    method Enqueue(d: Device, w: Workload)
      modifies `foreground, `background, `waiting, `waitingBy, `requests
      ensures Abs() == SchedulerModel.Enqueue(old(Abs()), d, w)
    {
      hide Put, Get;
      var lane := if w.Foreground? then foreground else background;
      var queue := lane.Queue(d);
      var turns := if queue == [] then lane.turns + [d] else lane.turns;
      lane := Lane(lane.queues[d := queue + [|requests|]], turns);
      if w.Foreground? { foreground := lane; } else { background := lane; }
      waiting := waiting + 1;
      waitingBy := Put(waitingBy, d, Get(waitingBy, d) + 1);
      requests := requests + [Request(d, w, Waiting)];
    }

    /** The part of acquire that runs before the caller starts to wait: refuse, or join the
        queue and grant what can be granted. */
    method Acquire(d: Device, w: Workload) returns (r: Admission)
      requires Valid() && Conserving(Abs())
      modifies this
      ensures Valid() && Conserving(Abs())
      ensures Abs() == Step(old(Abs()), SchedulerModel.Acquire(d, w))
      ensures r == if old(waiting) >= limits.totalWait then Refused(GlobalQueueFull)
                   else if Get(old(waitingBy), d) >= limits.deviceWait then Refused(DeviceQueueFull)
                   else Queued(|old(requests)|)
      ensures |requests| == |old(requests)| + 1
      ensures var last := requests[|old(requests)|];
              && last.device == d && last.workload == w
              && if r.Queued? then last.status.Waiting? || last.status.Active? else last.status.Rejected?
    {
      AcquireJoinsOrRefuses(Abs(), d, w);
      hide LaneOk, CountersOk, CapsOk, FifoOk, Conserving, GrantAll;
      StepInv(Abs(), SchedulerModel.Acquire(d, w));
      if waiting >= limits.totalWait || Get(waitingBy, d) >= limits.deviceWait {
        r := Refused(if waiting >= limits.totalWait then GlobalQueueFull else DeviceQueueFull);
        queueFull := queueFull + 1;
        requests := requests + [Request(d, w, Rejected)];
      } else {
        r := Queued(|requests|);
        EnqueueInv(Abs(), d, w);
        Enqueue(d, w);
        GrantLocked();
      }
    }

    /** Take a waiter whose deadline has passed from its queue, if it is still there. */
    method RemoveWaiter(id: nat) returns (found: bool)
      requires id < |requests|
      requires id in Abs().Lane(requests[id].workload).Queue(requests[id].device) ==> requests[id].device in waitingBy
      modifies `foreground, `background, `waiting, `waitingBy, `waitTimeouts, `requests
      ensures found <==> id in old(Abs()).Lane(old(requests)[id].workload).Queue(old(requests)[id].device)
      ensures Abs() == if found then Expire(old(Abs()), id) else old(Abs())
    {
      hide Put;
      var r := requests[id];
      var d := r.device;
      var lane := if r.workload.Foreground? then foreground else background;
      if d !in lane.queues || id !in lane.queues[d] {
        return false;
      }
      var queue := Without(lane.queues[d], id);
      if queue == [] {
        lane := Lane(lane.queues - {d}, Without(lane.turns, d));
      } else {
        lane := Lane(lane.queues[d := queue], lane.turns);
      }
      if r.workload.Foreground? { foreground := lane; } else { background := lane; }
      waiting := waiting - 1;
      waitingBy := Put(waitingBy, d, waitingBy[d] - 1);
      waitTimeouts := waitTimeouts + 1;
      requests := requests[id := r.(status := TimedOut)];
      found := true;
    }

    /** A waiting caller finds its deadline passed before any decision. */
    method Timeout(id: nat)
      requires Valid() && Conserving(Abs()) && id < |requests| && IsWaiting(requests[id])
      modifies this
      ensures Valid() && Conserving(Abs())
      ensures Abs() == Step(old(Abs()), SchedulerModel.Timeout(id))
      ensures |requests| == |old(requests)| && requests[id] == old(requests)[id].(status := TimedOut)
      ensures forall w, d :: id !in Abs().Lane(w).Queue(d)
    {
      TimeoutFails(Abs(), id);
      hide LaneOk, CountersOk, CapsOk, FifoOk, Conserving, GrantAll;
      StepInv(Abs(), SchedulerModel.Timeout(id));
      WaiterIsQueued(Abs(), id);
      var found := RemoveWaiter(id);
      assert found;
      GrantLocked();
    }

    /** Uncount a channel, or raise when a counter would underflow. */
    method FreeChannel(id: nat) returns (r: Freeing)
      requires id < |requests|
      modifies `active, `activeBy, `backgroundBy, `requests
      ensures var q := old(requests)[id];
              r == if old(active) <= 0 || Get(old(activeBy), q.device) <= 0 then Underflow
                   else if q.workload.Background? && Get(old(backgroundBy), q.device) <= 0 then BackgroundUnderflow
                   else Freed
      ensures r.Freed? ==> Abs() == Free(old(Abs()), id)
      ensures r.Underflow? ==> Abs() == old(Abs())
      ensures r.BackgroundUnderflow? ==>
        var d := old(requests)[id].device;
        Abs() == old(Abs()).(active := old(active) - 1, activeBy := Put(old(activeBy), d, Get(old(activeBy), d) - 1))
    {
      hide Put;
      ghost var s := Free(Abs(), id);
      var q := requests[id];
      var current := Get(activeBy, q.device);
      if active <= 0 || current <= 0 { return Underflow; }
      active := active - 1;
      activeBy := Put(activeBy, q.device, current - 1);
      if q.workload.Background? {
        var background := Get(backgroundBy, q.device);
        if background <= 0 { return BackgroundUnderflow; }
        backgroundBy := Put(backgroundBy, q.device, background - 1);
      }
      requests := requests[id := q.(status := Released)];
      assert (active, activeBy, backgroundBy, requests) == (s.active, s.activeBy, s.backgroundBy, s.ledger);
      r := Freed;
    }

    /** Give back the channel of request `id`: for a lease that was not released before, no
        accounting underflow can happen. */
    method ReleaseChannel(id: nat)
      requires Valid() && Conserving(Abs()) && id < |requests| && IsActive(requests[id])
      modifies this
      ensures Valid() && Conserving(Abs())
      ensures Abs() == Step(old(Abs()), SchedulerModel.Release(id))
      ensures |requests| == |old(requests)| && requests[id] == old(requests)[id].(status := Released)
    {
      ReleaseEnds(Abs(), id);
      hide LaneOk, CountersOk, CapsOk, FifoOk, Conserving, GrantAll;
      StepInv(Abs(), SchedulerModel.Release(id));
      CountedChannel(Abs(), id);
      FreeInv(Abs(), id);
      var r := FreeChannel(id);
      assert r.Freed?;
      GrantLocked();
    }

    /** Turn away the waiters of one class of a device. */
    method EvictClass(w: Workload, d: Device)
      requires Increasing(Abs().Lane(w).Queue(d))
      requires forall id :: id in Abs().Lane(w).Queue(d) ==> id < |requests|
      modifies `foreground, `background, `waiting, `waitingBy, `requests
      ensures Abs().Lane(w) == Evict(old(Abs()).Lane(w), d)
      ensures if w.Foreground? then background == old(background) else foreground == old(foreground)
      ensures var queue := old(Abs()).Lane(w).Queue(d);
              && waiting == old(waiting) - |queue|
              && waitingBy == (if queue == [] then old(waitingBy) else old(waitingBy) - {d})
              && |requests| == |old(requests)|
              && forall k :: 0 <= k < |requests| ==>
                   requests[k] == if k in queue then old(requests)[k].(status := Removed) else old(requests)[k]
    {
      var lane := if w.Foreground? then foreground else background;
      var queue := lane.Queue(d);
      if queue == [] { return; }
      lane := Lane(lane.queues - {d}, Without(lane.turns, d));
      if w.Foreground? { foreground := lane; } else { background := lane; }
      for j := 0 to |queue|
        invariant if w.Foreground? then foreground == lane && background == old(background)
                  else background == lane && foreground == old(foreground)
        invariant waitingBy == old(waitingBy)
        invariant waiting == old(waiting) - j && |requests| == |old(requests)|
        invariant forall k :: 0 <= k < |requests| ==>
          requests[k] == if k in queue[..j] then old(requests)[k].(status := Removed) else old(requests)[k]
      {
        assert queue[j] in queue;
        assert queue[..j + 1] == queue[..j] + [queue[j]];
        requests := requests[queue[j] := requests[queue[j]].(status := Removed)];
        waiting := waiting - 1;
      }
      assert queue[..|queue|] == queue;
      waitingBy := waitingBy - {d};
    }

    method EvictDevice(d: Device)
      requires Increasing(foreground.Queue(d)) && Increasing(background.Queue(d))
      requires forall id: nat :: (id in foreground.Queue(d) || id in background.Queue(d))
                                 <==> (id < |requests| && WaitingOn(d)(requests[id]))
      requires foreground.Queue(d) == [] && background.Queue(d) == [] ==> d !in waitingBy
      modifies `foreground, `background, `waiting, `waitingBy, `requests
      ensures Abs() == Purge(old(Abs()), d)
      ensures |requests| == |old(requests)|
      ensures forall i :: 0 <= i < |requests| ==>
        requests[i] == if old(requests)[i].device == d && old(requests)[i].status.Waiting?
                       then old(requests)[i].(status := Removed) else old(requests)[i]
      ensures foreground.Queue(d) == [] && background.Queue(d) == [] && d !in waitingBy
    {
      EvictClass(Foreground, d);
      EvictClass(Background, d);
      assert requests == Cancelled(old(requests), d);
    }

    method RemoveDevice(d: Device)
      requires Valid() && Conserving(Abs())
      modifies this
      ensures Valid() && Conserving(Abs())
      ensures Abs() == Step(old(Abs()), SchedulerModel.RemoveDevice(d))
      ensures TurnedAway(old(Abs()), Abs(), d)
    {
      RemovalTurnsAway(Abs(), d);
      hide LaneOk, CountersOk, CapsOk, FifoOk, Conserving, GrantAll;
      RemovalStep(Abs(), d);
      QueuedHere(Abs(), d);
      EvictDevice(d);
      GrantLocked();
    }
  }

  lemma WaiterIsQueued(s: State, id: nat)
    requires Inv(s) && id < |s.ledger| && IsWaiting(s.ledger[id])
    ensures s.ledger[id].device in s.waitingBy
    ensures id in s.Lane(s.ledger[id].workload).Queue(s.ledger[id].device)
    ensures Inv(Expire(s, id))
  {
    CountedWaiter(s, id);
    ExpireInv(s, id);
    assert SchedulerInvariant.Queued(s.ledger, s.ledger[id].device, s.ledger[id].workload, id);
  }

  lemma RemovalStep(s: State, d: Device)
    requires Inv(s) && Conserving(s)
    ensures Inv(Purge(s, d)) && Conserving(GrantAll(Purge(s, d)))
    ensures Step(s, RemoveDevice(d)) == GrantAll(Purge(s, d))
  {
    PurgeInv(s, d);
    GrantAllInv(Purge(s, d));
    RemovalUnfolds(s, d);
  }

  lemma RemovalUnfolds(s: State, d: Device)
    ensures Step(s, RemoveDevice(d)) == GrantAll(Purge(s, d))
  {
    assert Entry(s, RemoveDevice(d)) == Forget(d);
  }

  lemma QueuedHere(s: State, d: Device)
    requires Inv(s)
    ensures Increasing(s.foreground.Queue(d)) && Increasing(s.background.Queue(d))
    ensures forall id: nat :: (id in s.foreground.Queue(d) || id in s.background.Queue(d))
                              <==> (id < |s.ledger| && WaitingOn(d)(s.ledger[id]))
    ensures s.foreground.Queue(d) == [] && s.background.Queue(d) == [] ==> d !in s.waitingBy
  {
    QueuesHoldWaiters(s, d);
    assert Get(s.waitingBy, d) == Count(s.ledger, WaitingOn(d));
    forall id: nat
      ensures (id in s.foreground.Queue(d) || id in s.background.Queue(d))
              <==> (id < |s.ledger| && WaitingOn(d)(s.ledger[id]))
    {
      assert SchedulerInvariant.Queued(s.ledger, d, Foreground, id) <==> id in s.foreground.Queue(d);
      assert SchedulerInvariant.Queued(s.ledger, d, Background, id) <==> id in s.background.Queue(d);
      if id < |s.ledger| {
        var r := s.ledger[id];
        assert r.workload == Foreground || r.workload == Background;
      }
    }
  }

  /** One round of the grant loop: take the waiter from its queue, then count its channel. */
  lemma GrantSplits(s: State, taken: State, id: nat)
    requires Grantable(s) && id == Pop(s, Choice(s)).id
    requires var w := Choice(s);
             taken == s.WithLane(w, Pop(s, w).lane).(streak := if w.Foreground? then s.streak + 1 else 0)
    ensures Start(taken, id) == GrantOne(s)
  {
    hide Put, Get, FirstEligible;
  }

  lemma LanesAreFresh(s: State)
    requires Inv(s)
    ensures forall d :: d in s.foreground.turns ==> s.foreground.Queue(d) != []
    ensures forall d :: d in s.background.turns ==> s.background.Queue(d) != []
  {
  }

  lemma NextIsWaiting(s: State)
    requires Inv(s) && s.active < s.limits.total && Pop(s, Choice(s)).Somebody?
    ensures Grantable(s) && s.waiting > 0 && Inv(GrantOne(s)) && GrantOne(s).waiting == s.waiting - 1
    ensures s.ledger[Pop(s, Choice(s)).id].device in s.waitingBy
  {
    PopServes(s, Choice(s));
    GrantOneInv(s);
    CountedWaiter(s, Pop(s, Choice(s)).id);
  }

  lemma InTurn(turns: seq<Device>, i: nat)
    requires i < |turns|
    ensures (turns[i..] + turns[..i])[0] == turns[i] && turns[i] in turns
    ensures (turns[i..] + turns[..i])[1..] == turns[i + 1..] + turns[..i]
  {
  }

  lemma PassedOver(turns: seq<Device>, i: nat)
    requires i < |turns|
    ensures (turns[i + 1..] + turns[..i]) + [turns[i]] == turns[i + 1..] + turns[..i + 1]
  {
  }

  lemma FirstIs(s: State, w: Workload, i: nat, k: nat)
    requires i <= k <= |s.Lane(w).turns|
    requires forall j :: i <= j < k ==> !CanGrant(s, s.Lane(w).turns[j], w)
    requires k < |s.Lane(w).turns| ==> CanGrant(s, s.Lane(w).turns[k], w)
    ensures FirstEligible(s, w, i) == k
  {
  }
}
