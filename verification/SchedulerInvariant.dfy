/** What every step of the scheduler keeps: queues, turn orders, counters and caps agree
    with the ledger of requests, and each queue is served first come, first served. */
module SchedulerInvariant {
  import opened Counting
  import opened SchedulerModel
  import opened Sequences

  /** Request `id` waits on device d in class w. */
  predicate Queued(ledger: seq<Request>, d: Device, w: Workload, id: nat) {
    id < |ledger| && ledger[id] == Request(d, w, Waiting)
  }

  ghost predicate LaneOk(lane: Lane, ledger: seq<Request>, w: Workload) {
    && (Distinct(lane.turns))
    && (forall d :: d in lane.turns <==> d in lane.queues)
    && (forall d :: d in lane.queues ==> lane.queues[d] != [] && Increasing(lane.queues[d]))
    && (forall d, id: nat :: Queued(ledger, d, w, id) <==> id in lane.Queue(d))
  }

  /** A per-device counter holds, for each device, the number of its requests of a kind,
      and has no entry for a device without any. */
  ghost predicate Sums(m: map<Device, int>, ledger: seq<Request>, on: Device -> Request -> bool) {
    && (forall d :: Get(m, d) == Count(ledger, on(d)))
    && (forall d :: d in m ==> m[d] != 0)
  }

  ghost predicate CountersOk(s: State) {
    TotalsOk(s) && SumsOk(s)
  }

  ghost predicate TotalsOk(s: State) {
    && s.active == Count(s.ledger, IsActive)
    && s.waiting == Count(s.ledger, IsWaiting)
    && s.queueFull == Count(s.ledger, IsRejected)
    && s.waitTimeouts == Count(s.ledger, IsTimedOut)
  }

  ghost predicate SumsOk(s: State) {
    && Sums(s.activeBy, s.ledger, ActiveOn)
    && Sums(s.backgroundBy, s.ledger, BackgroundOn)
    && Sums(s.waitingBy, s.ledger, WaitingOn)
  }

  ghost predicate CapsOk(s: State) {
    && s.limits.Valid()
    && 0 <= s.active <= s.limits.total
    && 0 <= s.waiting <= s.limits.totalWait
    && (forall d :: Get(s.activeBy, d) <= s.limits.device)
    && (forall d :: Get(s.backgroundBy, d) <= s.limits.backgroundDevice)
    && (forall d :: Get(s.waitingBy, d) <= s.limits.deviceWait)
    && 0 <= s.streak
  }

  /** Nobody waits behind a later request of the same device and class that was granted. */
  ghost predicate FifoOk(s: State) {
    forall i, j :: 0 <= i < j < |s.ledger| && WasGranted(s.ledger[j])
      && s.ledger[i].device == s.ledger[j].device && s.ledger[i].workload == s.ledger[j].workload
      ==> !IsWaiting(s.ledger[i])
  }

  ghost predicate Inv(s: State) {
    && LaneOk(s.foreground, s.ledger, Foreground)
    && LaneOk(s.background, s.ledger, Background)
    && CountersOk(s)
    && CapsOk(s)
    && FifoOk(s)
  }

  /** No queued request could be admitted. */
  ghost predicate Conserving(s: State) {
    forall w, d :: d in s.Lane(w).queues ==> !CanGrant(s, d, w)
  }

  lemma InitInv(limits: Limits)
    requires limits.Valid()
    ensures Inv(Init(limits)) && Conserving(Init(limits))
  {
  }

  // ----- How counts move -----

  function One(b: bool): int { if b then 1 else 0 }

  function Shifted(m: map<Device, int>, d: Device, before: bool, after: bool): map<Device, int> {
    if before == after then m else Put(m, d, Get(m, d) - One(before) + One(after))
  }

  lemma SumsMove(m: map<Device, int>, ledger: seq<Request>, id: nat, status: Status, on: Device -> Request -> bool)
    requires id < |ledger| && Sums(m, ledger, on)
    requires forall e, r: Request :: on(e)(r) ==> r.device == e
    ensures var d, r, r' := ledger[id].device, ledger[id], ledger[id].(status := status);
            Sums(Shifted(m, d, on(d)(r), on(d)(r')), ledger[id := r'], on)
  {
    var d, r, r' := ledger[id].device, ledger[id], ledger[id].(status := status);
    var m' := if on(d)(r) == on(d)(r') then m else Put(m, d, Get(m, d) - One(on(d)(r)) + One(on(d)(r')));
    forall e ensures Get(m', e) == Count(ledger[id := r'], on(e)) {
      assert Get(m, e) == Count(ledger, on(e));
      CountUpdate(ledger, id, r', on(e));
    }
  }

  lemma SumsAppend(m: map<Device, int>, ledger: seq<Request>, r: Request, on: Device -> Request -> bool)
    requires Sums(m, ledger, on)
    requires forall e :: on(e)(r) ==> r.device == e
    ensures Sums(if on(r.device)(r) then Put(m, r.device, Get(m, r.device) + 1) else m, ledger + [r], on)
  {
    var m' := if on(r.device)(r) then Put(m, r.device, Get(m, r.device) + 1) else m;
    forall e ensures Get(m', e) == Count(ledger + [r], on(e)) {
      assert Get(m, e) == Count(ledger, on(e));
      CountAppend(ledger, r, on(e));
    }
  }

  /** The counters follow a request whose status changes. */
  predicate TotalsFollow(s: State, s': State, r: Request, r': Request) {
    && s'.active == s.active - One(IsActive(r)) + One(IsActive(r'))
    && s'.waiting == s.waiting - One(IsWaiting(r)) + One(IsWaiting(r'))
    && s'.queueFull == s.queueFull - One(IsRejected(r)) + One(IsRejected(r'))
    && s'.waitTimeouts == s.waitTimeouts - One(IsTimedOut(r)) + One(IsTimedOut(r'))
  }

  predicate SumsFollow(s: State, s': State, r: Request, r': Request) {
    && s'.activeBy == Shifted(s.activeBy, r.device, IsActive(r), IsActive(r'))
    && s'.backgroundBy ==
         Shifted(s.backgroundBy, r.device,
                 IsActive(r) && r.workload.Background?, IsActive(r') && r.workload.Background?)
    && s'.waitingBy == Shifted(s.waitingBy, r.device, IsWaiting(r), IsWaiting(r'))
  }

  lemma MoveCounters(s: State, s': State, id: nat, status: Status)
    requires CountersOk(s) && id < |s.ledger|
    requires s'.ledger == s.ledger[id := s.ledger[id].(status := status)]
    requires TotalsFollow(s, s', s.ledger[id], s'.ledger[id]) && SumsFollow(s, s', s.ledger[id], s'.ledger[id])
    ensures CountersOk(s')
  {
    MoveTotals(s, s', id, status);
    MoveSums(s, s', id, status);
  }

  lemma MoveTotals(s: State, s': State, id: nat, status: Status)
    requires TotalsOk(s) && id < |s.ledger|
    requires s'.ledger == s.ledger[id := s.ledger[id].(status := status)]
    requires TotalsFollow(s, s', s.ledger[id], s'.ledger[id])
    ensures TotalsOk(s')
  {
    var r' := s'.ledger[id];
    CountUpdate(s.ledger, id, r', IsActive);
    CountUpdate(s.ledger, id, r', IsWaiting);
    CountUpdate(s.ledger, id, r', IsRejected);
    CountUpdate(s.ledger, id, r', IsTimedOut);
  }

  lemma MoveSums(s: State, s': State, id: nat, status: Status)
    requires SumsOk(s) && id < |s.ledger|
    requires s'.ledger == s.ledger[id := s.ledger[id].(status := status)]
    requires SumsFollow(s, s', s.ledger[id], s'.ledger[id])
    ensures SumsOk(s')
  {
    assert Sums(s'.activeBy, s'.ledger, ActiveOn) by { SumsMove(s.activeBy, s.ledger, id, status, ActiveOn); }
    assert Sums(s'.backgroundBy, s'.ledger, BackgroundOn) by {
      SumsMove(s.backgroundBy, s.ledger, id, status, BackgroundOn);
    }
    assert Sums(s'.waitingBy, s'.ledger, WaitingOn) by { SumsMove(s.waitingBy, s.ledger, id, status, WaitingOn); }
  }

  /** Cancelling a device's waiters takes exactly those off the waiting count and leaves
      every count that does not speak of waiting or removed requests alone. */
  lemma {:induction false} CancelledCount(ledger: seq<Request>, d: Device, p: Request -> bool)
    requires forall r: Request :: p(r) == p(Removal(r, d))
    ensures Count(Cancelled(ledger, d), p) == Count(ledger, p)
  {
    if ledger != [] {
      var n := |ledger| - 1;
      assert Cancelled(ledger, d)[..n] == Cancelled(ledger[..n], d);
      CancelledCount(ledger[..n], d, p);
    }
  }

  lemma {:induction false} CancelledWaiting(ledger: seq<Request>, d: Device)
    ensures Count(Cancelled(ledger, d), IsWaiting) == Count(ledger, IsWaiting) - Count(ledger, WaitingOn(d))
    ensures Count(Cancelled(ledger, d), WaitingOn(d)) == 0
  {
    if ledger != [] {
      var n := |ledger| - 1;
      assert Cancelled(ledger, d)[..n] == Cancelled(ledger[..n], d);
      CancelledWaiting(ledger[..n], d);
    }
  }

  /** The two queues of a device hold all its waiters. */
  lemma QueuesHoldWaiters(s: State, d: Device)
    requires Inv(s)
    ensures Count(s.ledger, WaitingOn(d)) == |s.foreground.Queue(d)| + |s.background.Queue(d)|
  {
    CountSplit(s.ledger, WaitingOn(d), WaitingIn(d, Foreground), WaitingIn(d, Background));
    forall w ensures |s.Lane(w).Queue(d)| == Count(s.ledger, WaitingIn(d, w)) {
      assert forall id: nat :: id in s.Lane(w).Queue(d) <==> Queued(s.ledger, d, w, id);
      CountListed(s.ledger, s.Lane(w).Queue(d), WaitingIn(d, w));
    }
    assert |s.Lane(Foreground).Queue(d)| == Count(s.ledger, WaitingIn(d, Foreground));
    assert |s.Lane(Background).Queue(d)| == Count(s.ledger, WaitingIn(d, Background));
  }

  // ----- How lanes move -----

  /** A lane does not notice changes to requests that do not wait in it. */
  lemma LaneApart(lane: Lane, ledger: seq<Request>, after: seq<Request>, w: Workload)
    requires LaneOk(lane, ledger, w)
    requires forall d, id: nat :: Queued(after, d, w, id) <==> Queued(ledger, d, w, id)
    ensures LaneOk(lane, after, w)
  {
  }

  lemma LaneGains(lane: Lane, ledger: seq<Request>, d: Device, w: Workload)
    requires LaneOk(lane, ledger, w)
    ensures var turns := if lane.Queue(d) == [] then lane.turns + [d] else lane.turns;
            LaneOk(Lane(lane.queues[d := lane.Queue(d) + [|ledger|]], turns), ledger + [Request(d, w, Waiting)], w)
  {
    var after := ledger + [Request(d, w, Waiting)];
    var queue := lane.Queue(d) + [|ledger|];
    var turns := if lane.Queue(d) == [] then lane.turns + [d] else lane.turns;
    var lane' := Lane(lane.queues[d := queue], turns);
    assert Increasing(queue) by {
      forall i | 0 <= i < |lane.Queue(d)| ensures lane.Queue(d)[i] < |ledger| {
        assert lane.Queue(d)[i] in lane.Queue(d);
        assert Queued(ledger, d, w, lane.Queue(d)[i]);
      }
    }
    forall e, id: nat ensures Queued(after, e, w, id) <==> id in lane'.Queue(e) {
      assert Queued(ledger, e, w, id) <==> id in lane.Queue(e);
    }
  }

  lemma {:induction false} WithoutIsSubsequence(q: seq<nat>, id: nat)
    requires Increasing(q)
    ensures Increasing(Without(q, id))
    ensures id !in q ==> Without(q, id) == q
  {
    if q != [] {
      WithoutIsSubsequence(q[1..], id);
      var rest := Without(q[1..], id);
      forall i | 0 <= i < |rest| ensures q[0] < rest[i] {
        assert rest[i] in q[1..];
      }
      assert q == [q[0]] + q[1..];
    }
  }

  /** Taking one waiter out of its queue. */
  lemma LaneLoses(lane: Lane, ledger: seq<Request>, w: Workload, id: nat, status: Status, d: Device)
    requires LaneOk(lane, ledger, w)
    requires Queued(ledger, d, w, id) && !status.Waiting?
    ensures LaneOk(Drop(lane, d, id), ledger[id := ledger[id].(status := status)], w)
  {
    var after := ledger[id := ledger[id].(status := status)];
    assert id in lane.Queue(d);
    var queue := Without(lane.Queue(d), id);
    var lane' := Drop(lane, d, id);
    WithoutIsSubsequence(lane.Queue(d), id);
    WithoutIsDistinct(lane.turns, d);
    forall e, x: nat ensures Queued(after, e, w, x) <==> x in lane'.Queue(e) {
      assert Queued(ledger, e, w, x) <==> x in lane.Queue(e);
      if e == d { assert x in queue <==> x in lane.Queue(d) && x != id; }
    }
  }

  /** Serving a device loses the head of its queue, up to the order of turns. */
  lemma LaneServes(lane: Lane, ledger: seq<Request>, w: Workload, d: Device, status: Status, lane': Lane)
    requires LaneOk(lane, ledger, w) && d in lane.queues && !status.Waiting?
    requires var queue := lane.queues[d];
             && queue[0] < |ledger|
             && lane'.queues == (if |queue| == 1 then lane.queues - {d} else lane.queues[d := queue[1..]])
    requires Distinct(lane'.turns) && forall e :: e in lane'.turns <==> e in lane'.queues
    ensures var id := lane.queues[d][0];
            && Queued(ledger, d, w, id)
            && (forall x: nat :: x < id ==> !Queued(ledger, d, w, x))
            && LaneOk(lane', ledger[id := ledger[id].(status := status)], w)
  {
    var queue := lane.queues[d];
    var id := queue[0];
    assert id in lane.Queue(d);
    assert Queued(ledger, d, w, id);
    forall x: nat | x < id ensures !Queued(ledger, d, w, x) {
      assert x !in lane.Queue(d);
    }
    var after := ledger[id := ledger[id].(status := status)];
    assert forall x :: x in queue[1..] <==> x in queue && x != id;
    forall e, x: nat ensures Queued(after, e, w, x) <==> x in lane'.Queue(e) {
      assert Queued(ledger, e, w, x) <==> x in lane.Queue(e);
    }
  }

  lemma TurnsRotate(turns: seq<Device>, k: nat)
    requires k < |turns| && Distinct(turns)
    ensures var others := turns[k + 1..] + turns[..k];
            && (forall d :: d in others <==> d in turns && d != turns[k])
            && Distinct(others) && Distinct(others + [turns[k]])
  {
    var others := turns[k + 1..] + turns[..k];
    forall d ensures d in others <==> d in turns && d != turns[k] {
      if d in turns && d != turns[k] {
        var i :| 0 <= i < |turns| && turns[i] == d;
        assert if i < k then others[|turns| - k - 1 + i] == d else others[i - k - 1] == d;
      }
    }
  }

  lemma PopServes(s: State, w: Workload)
    requires LaneOk(s.Lane(w), s.ledger, w)
    requires Pop(s, w).Somebody?
    ensures var id := Pop(s, w).id;
            && id < |s.ledger|
            && Queued(s.ledger, s.ledger[id].device, w, id)
            && CanGrant(s, s.ledger[id].device, w)
            && (forall x: nat :: x < id ==> !Queued(s.ledger, s.ledger[id].device, w, x))
            && LaneOk(Pop(s, w).lane, s.ledger[id := s.ledger[id].(status := Active)], w)
  {
    var lane := s.Lane(w);
    var k := FirstEligible(s, w, 0);
    var d := lane.turns[k];
    var id := lane.queues[d][0];
    assert id in lane.Queue(d);
    assert Queued(s.ledger, d, w, id);
    TurnsRotate(lane.turns, k);
    LaneServes(lane, s.ledger, w, d, Active, Pop(s, w).lane);
  }

  // ----- Every step keeps the invariant -----

  lemma EnqueueInv(s: State, d: Device, w: Workload)
    requires Inv(s) && HasRoom(s, d)
    ensures Inv(Enqueue(s, d, w))
  {
    hide LaneOk, CountersOk, CapsOk, FifoOk;
    var s' := Enqueue(s, d, w);
    var v := if w.Foreground? then Background else Foreground;
    assert LaneOk(s'.Lane(w), s'.ledger, w) by { LaneGains(s.Lane(w), s.ledger, d, w); }
    assert LaneOk(s'.Lane(v), s'.ledger, v) by { LaneApart(s.Lane(v), s.ledger, s'.ledger, v); }
    EnqueueCounters(s, d, w);
    EnqueueCaps(s, d, w);
    AppendFifo(s, s', Request(d, w, Waiting));
  }

  lemma EnqueueCaps(s: State, d: Device, w: Workload)
    requires CapsOk(s) && HasRoom(s, d)
    ensures CapsOk(Enqueue(s, d, w))
  {
    CapKept(s.waitingBy, d, Get(s.waitingBy, d) + 1, s.limits.deviceWait);
  }

  lemma EnqueueCounters(s: State, d: Device, w: Workload)
    requires CountersOk(s)
    ensures CountersOk(Enqueue(s, d, w))
  {
    AppendCounters(s, Enqueue(s, d, w), Request(d, w, Waiting));
  }

  lemma CapKept(m: map<Device, int>, d: Device, n: int, cap: int)
    requires n <= cap && forall e :: Get(m, e) <= cap
    ensures forall e :: Get(Put(m, d, n), e) <= cap
  {
    forall e ensures Get(Put(m, d, n), e) <= cap {
      assert Get(m, e) <= cap;
    }
  }

  lemma AppendFifo(s: State, s': State, r: Request)
    requires FifoOk(s) && s'.ledger == s.ledger + [r] && !WasGranted(r)
    ensures FifoOk(s')
  {
  }

  /** A request that leaves, or that was granted before, does not spoil the order. */
  lemma MoveFifo(s: State, s': State, id: nat, status: Status)
    requires FifoOk(s) && id < |s.ledger| && !status.Waiting?
    requires s'.ledger == s.ledger[id := s.ledger[id].(status := status)]
    requires WasGranted(s'.ledger[id]) ==> WasGranted(s.ledger[id])
    ensures FifoOk(s')
  {
  }

  lemma AppendCounters(s: State, s': State, r: Request)
    requires CountersOk(s) && !r.status.Active? && !r.status.TimedOut?
    requires s'.ledger == s.ledger + [r]
    requires s'.active == s.active && s'.waitTimeouts == s.waitTimeouts
    requires s'.activeBy == s.activeBy && s'.backgroundBy == s.backgroundBy
    requires s'.waiting == s.waiting + One(IsWaiting(r)) && s'.queueFull == s.queueFull + One(IsRejected(r))
    requires s'.waitingBy ==
      if IsWaiting(r) then Put(s.waitingBy, r.device, Get(s.waitingBy, r.device) + 1) else s.waitingBy
    ensures CountersOk(s')
  {
    CountAppend(s.ledger, r, IsActive);
    CountAppend(s.ledger, r, IsWaiting);
    CountAppend(s.ledger, r, IsRejected);
    CountAppend(s.ledger, r, IsTimedOut);
    SumsAppend(s.activeBy, s.ledger, r, ActiveOn);
    SumsAppend(s.backgroundBy, s.ledger, r, BackgroundOn);
    SumsAppend(s.waitingBy, s.ledger, r, WaitingOn);
  }

  lemma RejectInv(s: State, d: Device, w: Workload)
    requires Inv(s)
    ensures Inv(Reject(s, d, w))
  {
    hide LaneOk, CountersOk;
    var s' := Reject(s, d, w);
    AppendCounters(s, s', Request(d, w, Rejected));
    LaneApart(s.foreground, s.ledger, s'.ledger, Foreground);
    LaneApart(s.background, s.ledger, s'.ledger, Background);
  }

  /** A queued waiter is counted, for its device and in all. */
  lemma CountedWaiter(s: State, id: nat)
    requires CountersOk(s) && id < |s.ledger| && IsWaiting(s.ledger[id])
    ensures s.waiting > 0 && Get(s.waitingBy, s.ledger[id].device) > 0
  {
    CountZero(s.ledger, IsWaiting);
    CountZero(s.ledger, WaitingOn(s.ledger[id].device));
    assert WaitingOn(s.ledger[id].device)(s.ledger[id]);
  }

  lemma GrantOneInv(s: State)
    requires Inv(s)
    ensures Inv(GrantOne(s))
    ensures Grantable(s) ==> s.waiting > 0 && GrantOne(s).waiting == s.waiting - 1
  {
    if Grantable(s) {
      var w := Choice(s);
      PopServes(s, w);
      CountedWaiter(s, Pop(s, w).id);
      StartInv(s, w, Pop(s, w).id, Pop(s, w).lane, GrantOne(s));
    }
  }

  lemma StartInv(s: State, w: Workload, id: nat, lane: Lane, s': State)
    requires Inv(s)
    requires id < |s.ledger| && Queued(s.ledger, s.ledger[id].device, w, id)
    requires s.waiting > 0 && CanGrant(s, s.ledger[id].device, w)
    requires forall x: nat :: x < id ==> !Queued(s.ledger, s.ledger[id].device, w, x)
    requires LaneOk(lane, s.ledger[id := s.ledger[id].(status := Active)], w)
    requires s' == Start(s.WithLane(w, lane), id).(streak := s'.streak) && 0 <= s'.streak
    ensures Inv(s')
  {
    hide LaneOk, CountersOk, FifoOk;
    var v := if w.Foreground? then Background else Foreground;
    assert LaneOk(s'.Lane(v), s'.ledger, v) by { StartApart(s.Lane(v), s.ledger, id, v); }
    StartCounters(s, w, id, lane, s');
    GrantFifo(s, s', id);
    StartCaps(s, w, id, lane, s');
  }

  lemma StartApart(lane: Lane, ledger: seq<Request>, id: nat, v: Workload)
    requires LaneOk(lane, ledger, v) && id < |ledger| && ledger[id].workload != v
    ensures LaneOk(lane, ledger[id := ledger[id].(status := Active)], v)
  {
    LaneApart(lane, ledger, ledger[id := ledger[id].(status := Active)], v);
  }

  lemma StartCaps(s: State, w: Workload, id: nat, lane: Lane, s': State)
    requires CapsOk(s) && id < |s.ledger| && s.ledger[id].workload == w
    requires s.waiting > 0 && CanGrant(s, s.ledger[id].device, w)
    requires s' == Start(s.WithLane(w, lane), id).(streak := s'.streak) && 0 <= s'.streak
    ensures CapsOk(s')
  {
    var d := s.ledger[id].device;
    CapKept(s.waitingBy, d, Get(s.waitingBy, d) - 1, s.limits.deviceWait);
    CapKept(s.activeBy, d, Get(s.activeBy, d) + 1, s.limits.device);
    if w.Background? { CapKept(s.backgroundBy, d, Get(s.backgroundBy, d) + 1, s.limits.backgroundDevice); }
  }

  lemma StartCounters(s: State, w: Workload, id: nat, lane: Lane, s': State)
    requires CountersOk(s) && id < |s.ledger| && IsWaiting(s.ledger[id])
    requires s' == Start(s.WithLane(w, lane), id).(streak := s'.streak)
    ensures CountersOk(s')
  {
    MoveCounters(s, s', id, Active);
  }

  lemma GrantFifo(s: State, s': State, id: nat)
    requires FifoOk(s) && id < |s.ledger|
    requires s'.ledger == s.ledger[id := s.ledger[id].(status := Active)]
    requires forall x: nat :: x < id ==> !Queued(s.ledger, s.ledger[id].device, s.ledger[id].workload, x)
    ensures FifoOk(s')
  {
    forall i, j | 0 <= i < j < |s'.ledger| && WasGranted(s'.ledger[j])
        && s'.ledger[i].device == s'.ledger[j].device && s'.ledger[i].workload == s'.ledger[j].workload
      ensures !IsWaiting(s'.ledger[i])
    {
      if j == id {
        assert !Queued(s.ledger, s.ledger[id].device, s.ledger[id].workload, i);
      }
    }
  }

  lemma ExpireInv(s: State, id: nat)
    requires Inv(s) && MicroEnabled(s, GiveUp(id))
    ensures Inv(Expire(s, id))
  {
    hide LaneOk, CountersOk, FifoOk;
    CountedWaiter(s, id);
    ExpireLanes(s, id);
    ExpireCounters(s, id);
    ExpireCaps(s, id);
    MoveFifo(s, Expire(s, id), id, TimedOut);
  }

  lemma ExpireCounters(s: State, id: nat)
    requires CountersOk(s) && MicroEnabled(s, GiveUp(id))
    ensures CountersOk(Expire(s, id))
  {
    MoveCounters(s, Expire(s, id), id, TimedOut);
  }

  lemma ExpireCaps(s: State, id: nat)
    requires CapsOk(s) && id < |s.ledger| && s.waiting > 0
    ensures CapsOk(Expire(s, id))
  {
    var d := s.ledger[id].device;
    CapKept(s.waitingBy, d, Get(s.waitingBy, d) - 1, s.limits.deviceWait);
  }

  lemma ExpireLanes(s: State, id: nat)
    requires LaneOk(s.foreground, s.ledger, Foreground) && LaneOk(s.background, s.ledger, Background)
    requires MicroEnabled(s, GiveUp(id))
    ensures LaneOk(Expire(s, id).foreground, Expire(s, id).ledger, Foreground)
    ensures LaneOk(Expire(s, id).background, Expire(s, id).ledger, Background)
  {
    var w, after := s.ledger[id].workload, Expire(s, id).ledger;
    if w.Foreground? {
      ExpireLane(s, id, w);
      LaneApart(s.background, s.ledger, after, Background);
    } else {
      ExpireLane(s, id, w);
      LaneApart(s.foreground, s.ledger, after, Foreground);
    }
  }

  lemma ExpireLane(s: State, id: nat, w: Workload)
    requires LaneOk(s.Lane(w), s.ledger, w) && MicroEnabled(s, GiveUp(id)) && w == s.ledger[id].workload
    ensures LaneOk(Expire(s, id).Lane(w), Expire(s, id).ledger, w)
  {
    assert Queued(s.ledger, s.ledger[id].device, w, id);
    LaneLoses(s.Lane(w), s.ledger, w, id, TimedOut, s.ledger[id].device);
  }

  /** An active channel is counted, for its device, for its class and in all. */
  lemma CountedChannel(s: State, id: nat)
    requires CountersOk(s) && id < |s.ledger| && IsActive(s.ledger[id])
    ensures s.active > 0 && Get(s.activeBy, s.ledger[id].device) > 0
    ensures s.ledger[id].workload.Background? ==> Get(s.backgroundBy, s.ledger[id].device) > 0
  {
    var d := s.ledger[id].device;
    CountZero(s.ledger, IsActive);
    CountZero(s.ledger, ActiveOn(d));
    CountZero(s.ledger, BackgroundOn(d));
    assert ActiveOn(d)(s.ledger[id]);
    assert s.ledger[id].workload.Background? ==> BackgroundOn(d)(s.ledger[id]);
  }

  lemma FreeInv(s: State, id: nat)
    requires Inv(s) && MicroEnabled(s, Return(id))
    ensures Inv(Free(s, id))
  {
    hide LaneOk, CountersOk, CapsOk, FifoOk;
    var s' := Free(s, id);
    CountedChannel(s, id);
    LaneApart(s.foreground, s.ledger, s'.ledger, Foreground);
    LaneApart(s.background, s.ledger, s'.ledger, Background);
    MoveCounters(s, s', id, Released);
    FreeCaps(s, id);
    MoveFifo(s, s', id, Released);
  }

  lemma FreeCaps(s: State, id: nat)
    requires CapsOk(s) && id < |s.ledger| && s.active > 0
    ensures CapsOk(Free(s, id))
  {
    var d := s.ledger[id].device;
    CapKept(s.activeBy, d, Get(s.activeBy, d) - 1, s.limits.device);
    CapKept(s.backgroundBy, d, Get(s.backgroundBy, d) - 1, s.limits.backgroundDevice);
  }

  lemma LaneEvicts(lane: Lane, ledger: seq<Request>, d: Device, w: Workload)
    requires LaneOk(lane, ledger, w)
    ensures LaneOk(Evict(lane, d), Cancelled(ledger, d), w)
  {
    WithoutIsDistinct(lane.turns, d);
    forall e, id: nat ensures Queued(Cancelled(ledger, d), e, w, id) <==> id in Evict(lane, d).Queue(e) {
      assert Queued(ledger, e, w, id) <==> id in lane.Queue(e);
    }
  }

  lemma PurgeCounters(s: State, d: Device)
    requires Inv(s)
    ensures CountersOk(Purge(s, d))
  {
    var s' := Purge(s, d);
    QueuesHoldWaiters(s, d);
    CancelledWaiting(s.ledger, d);
    CancelledCount(s.ledger, d, IsActive);
    CancelledCount(s.ledger, d, IsRejected);
    CancelledCount(s.ledger, d, IsTimedOut);
    forall e ensures Get(s'.activeBy, e) == Count(s'.ledger, ActiveOn(e)) {
      CancelledCount(s.ledger, d, ActiveOn(e));
    }
    forall e ensures Get(s'.backgroundBy, e) == Count(s'.ledger, BackgroundOn(e)) {
      CancelledCount(s.ledger, d, BackgroundOn(e));
    }
    forall e ensures Get(s'.waitingBy, e) == Count(s'.ledger, WaitingOn(e)) {
      if e != d { CancelledCount(s.ledger, d, WaitingOn(e)); }
    }
  }

  lemma PurgeInv(s: State, d: Device)
    requires Inv(s)
    ensures Inv(Purge(s, d))
  {
    var s' := Purge(s, d);
    PurgeCounters(s, d);
    LaneEvicts(s.foreground, s.ledger, d, Foreground);
    LaneEvicts(s.background, s.ledger, d, Background);
    assert CapsOk(s') by {
      forall e ensures Get(s'.waitingBy, e) <= s.limits.deviceWait {
        assert Get(s.waitingBy, e) <= s.limits.deviceWait;
      }
    }
    assert FifoOk(s');
  }

  lemma MicroInv(s: State, m: Micro)
    requires Inv(s) && MicroEnabled(s, m)
    ensures Inv(MicroStep(s, m))
  {
    hide Inv;
    match m
    case Arrive(d, w) => EnqueueInv(s, d, w);
    case TurnAway(d, w) => RejectInv(s, d, w);
    case Grant => GrantOneInv(s);
    case GiveUp(id) => ExpireInv(s, id);
    case Return(id) => FreeInv(s, id);
    case Forget(d) => PurgeInv(s, d);
  }

  // ----- Granting stops only when nobody can be admitted -----

  lemma NothingGrantable(s: State)
    requires Inv(s) && !Grantable(s)
    ensures Conserving(s)
  {
    if s.active < s.limits.total {
      if Pop(s, Choice(s)).Somebody? { PopServes(s, Choice(s)); }
      assert Pop(s, Foreground).Nobody? && Pop(s, Background).Nobody?;
      forall w, d | d in s.Lane(w).queues ensures !CanGrant(s, d, w) {
        var turns := s.Lane(w).turns;
        assert d in turns;
        assert forall i :: 0 <= i < |turns| ==> turns[i] in turns;
      }
    }
  }

  lemma {:induction false} GrantAllInv(s: State)
    requires Inv(s)
    ensures Inv(GrantAll(s)) && Conserving(GrantAll(s)) && !Grantable(GrantAll(s))
    decreases s.waiting
  {
    hide Inv, Conserving, Grantable, GrantOne;
    GrantOneInv(s);
    if s.waiting > 0 && Grantable(s) {
      GrantAllInv(GrantOne(s));
    } else {
      NothingGrantable(s);
    }
  }

  // ----- The main results: every step, every run -----

  lemma StepInv(s: State, e: Event)
    requires Inv(s) && Conserving(s) && Enabled(s, e)
    ensures Inv(Step(s, e)) && Conserving(Step(s, e))
  {
    hide Inv, Conserving, GrantAll;
    MicroInv(s, Entry(s, e));
    if Entry(s, e).TurnAway? {
      RejectConserves(s, e.d, e.w);
    } else {
      GrantAllInv(MicroStep(s, Entry(s, e)));
    }
  }

  lemma RejectConserves(s: State, d: Device, w: Workload)
    requires Conserving(s)
    ensures Conserving(Reject(s, d, w))
  {
    var s' := Reject(s, d, w);
    forall v, e | e in s'.Lane(v).queues ensures !CanGrant(s', e, v) {
      assert e in s.Lane(v).queues;
    }
  }

  lemma {:induction false} RunInv(s: State, es: seq<Event>)
    requires Inv(s) && Conserving(s) && Runs(s, es)
    ensures Inv(Run(s, es)) && Conserving(Run(s, es))
    decreases |es|
  {
    hide Inv, Conserving, Step, Enabled;
    if es != [] {
      StepInv(s, es[0]);
      RunInv(Step(s, es[0]), es[1..]);
    }
  }

  /** Safety over every run from an empty scheduler. */
  lemma AllRunsSafe(limits: Limits, es: seq<Event>)
    requires limits.Valid() && Runs(Init(limits), es)
    ensures Inv(Run(Init(limits), es))
  {
    InitInv(limits);
    RunInv(Init(limits), es);
  }

  /** Work conservation over every run: whenever the lock is free and some request waits,
      the scheduler is at its total cap, or that request's device is at its own cap, or,
      for background work, at the device's background cap. */
  lemma AllRunsConserveWork(limits: Limits, es: seq<Event>, id: nat)
    requires limits.Valid() && Runs(Init(limits), es)
    ensures var s := Run(Init(limits), es);
            id < |s.ledger| && IsWaiting(s.ledger[id]) ==>
              || s.active == limits.total
              || Get(s.activeBy, s.ledger[id].device) == limits.device
              || (s.ledger[id].workload.Background?
                  && Get(s.backgroundBy, s.ledger[id].device) == limits.backgroundDevice)
  {
    InitInv(limits);
    RunInv(Init(limits), es);
    RunProgress(Init(limits), es);
    WaiterIsBlocked(Run(Init(limits), es), id);
  }

  lemma WaiterIsBlocked(s: State, id: nat)
    requires Inv(s) && Conserving(s)
    ensures id < |s.ledger| && IsWaiting(s.ledger[id]) ==>
              !CanGrant(s, s.ledger[id].device, s.ledger[id].workload)
    ensures s.active <= s.limits.total
    ensures forall d :: Get(s.activeBy, d) <= s.limits.device && Get(s.backgroundBy, d) <= s.limits.backgroundDevice
  {
    if id < |s.ledger| && IsWaiting(s.ledger[id]) {
      var d, w := s.ledger[id].device, s.ledger[id].workload;
      assert Queued(s.ledger, d, w, id);
      assert id in s.Lane(w).Queue(d);
      assert d in s.Lane(w).queues;
    }
  }

  // ----- What a step may do to a request -----

  /** A status only moves forward: waiting, then one of four ends or active; active, then
      released. */
  predicate Advances(before: Status, after: Status) {
    || before == after
    || (before.Waiting? && !after.Rejected?)
    || (before.Active? && after.Released?)
  }

  ghost predicate Progress(s: State, s': State) {
    && s'.limits == s.limits
    && |s.ledger| <= |s'.ledger|
    && forall i :: 0 <= i < |s.ledger| ==>
         && s'.ledger[i].device == s.ledger[i].device
         && s'.ledger[i].workload == s.ledger[i].workload
         && Advances(s.ledger[i].status, s'.ledger[i].status)
  }

  ghost predicate OnlyGrants(s: State, s': State) {
    && |s'.ledger| == |s.ledger|
    && forall i :: 0 <= i < |s.ledger| ==>
         s'.ledger[i] == s.ledger[i] || (IsWaiting(s.ledger[i]) && s'.ledger[i] == s.ledger[i].(status := Active))
  }

  lemma GrantProgress(s: State)
    requires Inv(s)
    ensures Progress(s, GrantOne(s))
    ensures OnlyGrants(s, GrantOne(s))
  {
    hide LaneOk, CountersOk, CapsOk, FifoOk, FirstEligible;
    if Grantable(s) {
      PopServes(s, Choice(s));
      var id := Pop(s, Choice(s)).id;
      assert IsWaiting(s.ledger[id]);
      assert GrantOne(s).ledger == s.ledger[id := s.ledger[id].(status := Active)];
      assert OnlyGrants(s, GrantOne(s));
    }
    OnlyGrantsIsProgress(s, GrantOne(s));
  }

  lemma OnlyGrantsIsProgress(s: State, s': State)
    requires OnlyGrants(s, s') && s'.limits == s.limits
    ensures Progress(s, s')
  {
  }

  lemma {:induction false} GrantAllProgress(s: State)
    requires Inv(s)
    ensures Progress(s, GrantAll(s))
    ensures OnlyGrants(s, GrantAll(s))
    decreases s.waiting
  {
    hide Inv, Grantable, GrantOne;
    if s.waiting > 0 && Grantable(s) {
      GrantOneInv(s);
      GrantProgress(s);
      GrantAllProgress(GrantOne(s));
    }
  }

  lemma MicroProgress(s: State, m: Micro)
    requires Inv(s) && MicroEnabled(s, m)
    ensures Progress(s, MicroStep(s, m))
  {
    hide Inv;
    match m
    case Arrive(d, w) =>
    case TurnAway(d, w) =>
    case Grant => GrantProgress(s);
    case GiveUp(id) =>
    case Return(id) =>
    case Forget(d) => CancelProgress(s, d);
  }

  lemma CancelProgress(s: State, d: Device)
    ensures Progress(s, Purge(s, d))
  {
  }

  lemma ProgressTransitive(s: State, s1: State, s2: State)
    requires Progress(s, s1) && Progress(s1, s2)
    ensures Progress(s, s2)
  {
  }

  lemma StepProgress(s: State, e: Event)
    requires Inv(s) && Enabled(s, e)
    ensures Progress(s, Step(s, e))
  {
    hide Inv, Conserving, GrantAll, Progress;
    var s1 := MicroStep(s, Entry(s, e));
    MicroProgress(s, Entry(s, e));
    if !Entry(s, e).TurnAway? {
      assert Inv(s1) by { MicroInv(s, Entry(s, e)); }
      GrantAllProgress(s1);
      ProgressTransitive(s, s1, GrantAll(s1));
    }
  }

  lemma {:induction false} RunProgress(s: State, es: seq<Event>)
    requires Inv(s) && Conserving(s) && Runs(s, es)
    ensures Progress(s, Run(s, es))
    decreases |es|
  {
    hide Inv, Conserving, Step, Enabled;
    if es != [] {
      StepInv(s, es[0]);
      StepProgress(s, es[0]);
      RunProgress(Step(s, es[0]), es[1..]);
      ProgressTransitive(s, Step(s, es[0]), Run(s, es));
    }
  }
}
