/** What each critical section of the scheduler comes to, read off the requests alone. */
module SchedulerEffects {
  import opened Counting
  import opened SchedulerModel
  import opened SchedulerInvariant

  /** Request i is as it was, or was waiting and has been granted. */
  predicate KeptOrGranted(s: State, t: State, i: nat)
    requires i < |s.ledger| && i < |t.ledger|
  {
    || t.ledger[i] == s.ledger[i]
    || (s.ledger[i].status == Waiting && t.ledger[i] == Request(s.ledger[i].device, s.ledger[i].workload, Active))
  }

  /** All requests but the last ones, and but request `id`, are as they were or granted. */
  ghost predicate OthersKept(s: State, t: State, id: int) {
    |s.ledger| <= |t.ledger| && forall i: nat :: i < |s.ledger| && i != id ==> KeptOrGranted(s, t, i)
  }

  /** No request waits on d, and nothing in the scheduler says so. */
  ghost predicate NobodyWaits(t: State, d: Device) {
    && (forall i :: 0 <= i < |t.ledger| && t.ledger[i].device == d ==> t.ledger[i].status != Waiting)
    && d !in t.foreground.queues && d !in t.foreground.turns
    && d !in t.background.queues && d !in t.background.turns
    && d !in t.waitingBy
  }

  /** The waiters of d have been turned away, and d has left every queue and turn order. */
  ghost predicate TurnedAway(s: State, t: State, d: Device) {
    && |t.ledger| == |s.ledger|
    && (forall i: nat :: i < |s.ledger| ==>
          if s.ledger[i].device == d && s.ledger[i].status == Waiting
          then t.ledger[i] == Request(d, s.ledger[i].workload, Removed)
          else KeptOrGranted(s, t, i))
    && NobodyWaits(t, d)
  }

  lemma HeadIsIn(q: seq<nat>)
    ensures q != [] ==> q[0] in q
  {}

  lemma QueuesAreEmpty(t: State, d: Device)
    requires Inv(t)
    requires forall i :: 0 <= i < |t.ledger| && t.ledger[i].device == d ==> t.ledger[i].status != Waiting
    ensures NobodyWaits(t, d)
  {
    forall w ensures d !in t.Lane(w).queues && d !in t.Lane(w).turns {
      var lane := t.Lane(w);
      assert LaneOk(lane, t.ledger, w);
      assert forall id: nat :: !Queued(t.ledger, d, w, id);
      HeadIsIn(lane.Queue(d));
    }
    assert d !in t.Lane(Foreground).queues && d !in t.Lane(Background).queues;
    CountZero(t.ledger, WaitingOn(d));
    assert Get(t.waitingBy, d) == Count(t.ledger, WaitingOn(d));
  }

  lemma GrantingKeeps(s: State, s1: State, id: int)
    requires Inv(s1) && OthersKept(s, s1, id)
    ensures Inv(GrantAll(s1)) && OthersKept(s, GrantAll(s1), id)
    ensures |GrantAll(s1).ledger| == |s1.ledger|
    ensures 0 <= id < |s1.ledger| ==> KeptOrGranted(s1, GrantAll(s1), id)
  {
    hide Inv, Conserving, GrantAll, Grantable;
    GrantAllInv(s1);
    GrantAllProgress(s1);
    KeptThrough(s, s1, GrantAll(s1), id);
  }

  lemma KeptThrough(s: State, s1: State, t: State, id: int)
    requires OthersKept(s, s1, id) && OnlyGrants(s1, t)
    ensures OthersKept(s, t, id) && forall i: nat :: i < |s1.ledger| ==> KeptOrGranted(s1, t, i)
  {
    forall i: nat | i < |s.ledger| && i != id ensures KeptOrGranted(s, t, i) {
      assert KeptOrGranted(s, s1, i);
    }
  }

  lemma WaitersAreCounted(s: State, d: Device)
    requires Inv(s)
    ensures s.waiting == Count(s.ledger, IsWaiting) && Get(s.waitingBy, d) == Count(s.ledger, WaitingOn(d))
  {}

  lemma EnqueueAppends(s: State, d: Device, w: Workload)
    ensures Enqueue(s, d, w).ledger == s.ledger + [Request(d, w, Waiting)]
  {}

  /** A request is refused exactly when one of the two queues it would join is full, and then nothing
      else happens; otherwise it waits or has been granted. */
  lemma AcquireJoinsOrRefuses(s: State, d: Device, w: Workload)
    requires Inv(s)
    ensures var t, n := Step(s, Acquire(d, w)), |s.ledger|;
            && |t.ledger| == n + 1 && OthersKept(s, t, n)
            && if Count(s.ledger, IsWaiting) < s.limits.totalWait && Count(s.ledger, WaitingOn(d)) < s.limits.deviceWait
               then t.ledger[n] == Request(d, w, Waiting) || t.ledger[n] == Request(d, w, Active)
               else t == s.(queueFull := s.queueFull + 1, ledger := s.ledger + [Request(d, w, Rejected)])
  {
    hide Inv, GrantAll, Enqueue, Put;
    WaitersAreCounted(s, d);
    if HasRoom(s, d) {
      EnqueueInv(s, d, w);
      EnqueueAppends(s, d, w);
      GrantingKeeps(s, Enqueue(s, d, w), |s.ledger|);
    }
  }

  /** A waiter whose deadline passes has timed out, and no queue names it. */
  lemma TimeoutFails(s: State, id: nat)
    requires Inv(s) && Enabled(s, Timeout(id))
    ensures var t := Step(s, Timeout(id));
            && |t.ledger| == |s.ledger| && OthersKept(s, t, id)
            && t.ledger[id] == Request(s.ledger[id].device, s.ledger[id].workload, TimedOut)
            && forall w, d :: id !in t.Lane(w).Queue(d)
  {
    hide Inv, GrantAll;
    ExpireInv(s, id);
    GrantingKeeps(s, Expire(s, id), id);
    NotWaitingNotQueued(Step(s, Timeout(id)), id);
  }

  lemma NotWaitingNotQueued(t: State, id: nat)
    requires Inv(t) && id < |t.ledger| && t.ledger[id].status != Waiting
    ensures forall w, d :: id !in t.Lane(w).Queue(d)
  {
    forall w, d ensures id !in t.Lane(w).Queue(d) {
      assert LaneOk(t.Lane(w), t.ledger, w);
      assert !Queued(t.ledger, d, w, id);
    }
  }

  /** A channel given back ends, and no other. */
  lemma ReleaseEnds(s: State, id: nat)
    requires Inv(s) && Enabled(s, Release(id))
    ensures var t := Step(s, Release(id));
            && |t.ledger| == |s.ledger| && OthersKept(s, t, id)
            && t.ledger[id] == Request(s.ledger[id].device, s.ledger[id].workload, Released)
  {
    hide Inv, GrantAll;
    FreeInv(s, id);
    GrantingKeeps(s, Free(s, id), id);
  }

  /** Removing a device fails every request that waits on it, and no other. */
  lemma RemovalTurnsAway(s: State, d: Device)
    requires Inv(s)
    ensures TurnedAway(s, Step(s, RemoveDevice(d)), d)
  {
    hide Inv, GrantAll;
    var t := Step(s, RemoveDevice(d));
    assert Entry(s, RemoveDevice(d)) == Forget(d);
    PurgeInv(s, d);
    GrantAllInv(Purge(s, d));
    GrantAllProgress(Purge(s, d));
    QueuesAreEmpty(t, d);
  }
}
