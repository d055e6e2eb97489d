/** The SSH admission scheduler as a state machine: one transition per critical section
    of TransportScheduler.  A request is known by its arrival number, its position in
    `ledger`; the ledger holds what the waiter and lease objects record about it. */
module SchedulerModel {
  import opened Sequences

  const FOREGROUND_BURST := 8

  type Device = string

  datatype Workload = Foreground | Background

  datatype Status = Waiting | Active | Released | TimedOut | Removed | Rejected

  datatype Request = Request(device: Device, workload: Workload, status: Status)

  datatype Limits = Limits(total: int, device: int, backgroundDevice: int, totalWait: int, deviceWait: int) {
    predicate Valid() {
      1 <= total && 1 <= device && 0 <= backgroundDevice <= device && 1 <= totalWait && 1 <= deviceWait
    }
  }

  /** One workload class: a FIFO queue for each device that has waiters, and the order in
      which devices are offered a turn. */
  datatype Lane = Lane(queues: map<Device, seq<nat>>, turns: seq<Device>) {
    function Queue(d: Device): seq<nat> {
      if d in queues then queues[d] else []
    }
  }

  datatype State = State(
    limits: Limits,
    active: int,
    activeBy: map<Device, int>,
    backgroundBy: map<Device, int>,
    waiting: int,
    waitingBy: map<Device, int>,
    foreground: Lane,
    background: Lane,
    streak: int,
    queueFull: int,
    waitTimeouts: int,
    ledger: seq<Request>)
  {
    function Lane(w: Workload): Lane {
      if w.Foreground? then foreground else background
    }

    function WithLane(w: Workload, lane: Lane): State {
      if w.Foreground? then this.(foreground := lane) else this.(background := lane)
    }
  }

  function Init(limits: Limits): State {
    State(limits, 0, map[], map[], 0, map[], Lane(map[], []), Lane(map[], []), 0, 0, 0, [])
  }

  // ----- Per-device counters: a device with nothing to count has no entry -----

  function Get(m: map<Device, int>, d: Device): int {
    if d in m then m[d] else 0
  }

  function Put(m: map<Device, int>, d: Device, n: int): map<Device, int> {
    if n == 0 then m - {d} else m[d := n]
  }

  // ----- Ledger properties the counters are compared with -----

  predicate IsWaiting(r: Request) { r.status.Waiting? }
  predicate IsActive(r: Request) { r.status.Active? }
  predicate IsRejected(r: Request) { r.status.Rejected? }
  predicate IsTimedOut(r: Request) { r.status.TimedOut? }
  function WaitingOn(d: Device): Request -> bool { (r: Request) => r.status.Waiting? && r.device == d }
  function WaitingIn(d: Device, w: Workload): Request -> bool {
    (r: Request) => r.status.Waiting? && r.device == d && r.workload == w
  }
  function ActiveOn(d: Device): Request -> bool { (r: Request) => r.status.Active? && r.device == d }
  function BackgroundOn(d: Device): Request -> bool {
    (r: Request) => r.status.Active? && r.device == d && r.workload.Background?
  }
  predicate WasGranted(r: Request) { r.status.Active? || r.status.Released? }

  // ----- Admission -----

  predicate CanGrant(s: State, d: Device, w: Workload) {
    && s.active < s.limits.total
    && Get(s.activeBy, d) < s.limits.device
    && (w.Background? ==> Get(s.backgroundBy, d) < s.limits.backgroundDevice)
  }

  /** Position of the first device, from i on, that may start another channel. */
  function FirstEligible(s: State, w: Workload, i: nat): (k: nat)
    requires i <= |s.Lane(w).turns|
    ensures i <= k <= |s.Lane(w).turns|
    ensures forall j :: i <= j < k ==> !CanGrant(s, s.Lane(w).turns[j], w)
    ensures k < |s.Lane(w).turns| ==> CanGrant(s, s.Lane(w).turns[k], w)
    decreases |s.Lane(w).turns| - i
  {
    var turns := s.Lane(w).turns;
    if i == |turns| || CanGrant(s, turns[i], w) then i else FirstEligible(s, w, i + 1)
  }

  datatype Popped = Nobody | Somebody(id: nat, lane: Lane)

  /** What a whole pass over the turn order amounts to: the first eligible device gives up
      the head of its queue, the devices passed over move behind the rest, and the served
      device goes last, or leaves when its queue is exhausted. */
  function Pop(s: State, w: Workload): Popped {
    var lane := s.Lane(w);
    var k := FirstEligible(s, w, 0);
    if k == |lane.turns| || lane.Queue(lane.turns[k]) == [] then Nobody
    else
      var d := lane.turns[k];
      var queue := lane.queues[d];
      var others := lane.turns[k + 1..] + lane.turns[..k];
      Somebody(queue[0],
               if |queue| == 1 then Lane(lane.queues - {d}, others)
               else Lane(lane.queues[d := queue[1..]], others + [d]))
  }

  /** The class served next: foreground, except that a class of background work gets one
      turn after every burst of foreground grants. */
  function Choice(s: State): Workload {
    if s.streak >= FOREGROUND_BURST && Pop(s, Background).Somebody? then Background
    else if Pop(s, Foreground).Somebody? then Foreground
    else Background
  }

  predicate Grantable(s: State) {
    s.active < s.limits.total && Pop(s, Choice(s)).Somebody? && Pop(s, Choice(s)).id < |s.ledger|
  }

  function GrantOne(s: State): State {
    if !Grantable(s) then s
    else
      var w := Choice(s);
      var popped := Pop(s, w);
      Start(s.WithLane(w, popped.lane), popped.id)
       .(streak := if w.Foreground? then s.streak + 1 else 0)
  }

  /** Move a waiter that has left its queue to the active channels. */
  function Start(s: State, id: nat): State
    requires id < |s.ledger|
  {
    var d, w := s.ledger[id].device, s.ledger[id].workload;
    s.(waiting := s.waiting - 1,
       waitingBy := Put(s.waitingBy, d, Get(s.waitingBy, d) - 1),
       active := s.active + 1,
       activeBy := Put(s.activeBy, d, Get(s.activeBy, d) + 1),
       backgroundBy := if w.Background? then Put(s.backgroundBy, d, Get(s.backgroundBy, d) + 1) else s.backgroundBy,
       ledger := s.ledger[id := s.ledger[id].(status := Active)])
  }

  /** Grant until nobody can be admitted.  (Under the invariant `waiting` is positive
      whenever a grant is possible, so that guard only serves termination.) */
  function GrantAll(s: State): State
    decreases s.waiting
  {
    if s.waiting > 0 && Grantable(s) then GrantAll(GrantOne(s)) else s
  }

  // ----- Pieces of the critical sections -----

  function Enqueue(s: State, d: Device, w: Workload): State {
    var lane := s.Lane(w);
    var id := |s.ledger|;
    var turns := if lane.Queue(d) == [] then lane.turns + [d] else lane.turns;
    s.WithLane(w, Lane(lane.queues[d := lane.Queue(d) + [id]], turns))
     .(waiting := s.waiting + 1,
       waitingBy := Put(s.waitingBy, d, Get(s.waitingBy, d) + 1),
       ledger := s.ledger + [Request(d, w, Waiting)])
  }

  function Reject(s: State, d: Device, w: Workload): State {
    s.(queueFull := s.queueFull + 1, ledger := s.ledger + [Request(d, w, Rejected)])
  }

  function Drop(lane: Lane, d: Device, id: nat): Lane {
    var queue := Without(lane.Queue(d), id);
    if queue == [] then Lane(lane.queues - {d}, Without(lane.turns, d))
    else lane.(queues := lane.queues[d := queue])
  }

  /** A waiter whose deadline has passed leaves its queue. */
  function Expire(s: State, id: nat): State
    requires id < |s.ledger|
  {
    var d, w := s.ledger[id].device, s.ledger[id].workload;
    s.WithLane(w, Drop(s.Lane(w), d, id))
     .(waiting := s.waiting - 1,
       waitingBy := Put(s.waitingBy, d, Get(s.waitingBy, d) - 1),
       waitTimeouts := s.waitTimeouts + 1,
       ledger := s.ledger[id := s.ledger[id].(status := TimedOut)])
  }

  /** A channel ends and its lease is given back. */
  function Free(s: State, id: nat): State
    requires id < |s.ledger|
  {
    var d, w := s.ledger[id].device, s.ledger[id].workload;
    s.(active := s.active - 1,
       activeBy := Put(s.activeBy, d, Get(s.activeBy, d) - 1),
       backgroundBy := if w.Background? then Put(s.backgroundBy, d, Get(s.backgroundBy, d) - 1) else s.backgroundBy,
       ledger := s.ledger[id := s.ledger[id].(status := Released)])
  }

  function Removal(r: Request, d: Device): Request {
    if r.status.Waiting? && r.device == d then r.(status := Removed) else r
  }

  function Cancelled(ledger: seq<Request>, d: Device): (r: seq<Request>)
    ensures |r| == |ledger|
    ensures forall i :: 0 <= i < |r| ==> r[i] == Removal(ledger[i], d)
  {
    seq(|ledger|, i requires 0 <= i < |ledger| => Removal(ledger[i], d))
  }

  function Evict(lane: Lane, d: Device): Lane {
    if lane.Queue(d) == [] then lane else Lane(lane.queues - {d}, Without(lane.turns, d))
  }

  /** Every waiter of a removed device is turned away. */
  function Purge(s: State, d: Device): State {
    s.(foreground := Evict(s.foreground, d),
       background := Evict(s.background, d),
       waiting := s.waiting - |s.foreground.Queue(d)| - |s.background.Queue(d)|,
       waitingBy := s.waitingBy - {d},
       ledger := Cancelled(s.ledger, d))
  }

  // ----- The machine -----

  /** Steps within critical sections, in the order they happen. */
  datatype Micro =
    | Arrive(d: Device, w: Workload)
    | TurnAway(d: Device, w: Workload)
    | Grant
    | GiveUp(id: nat)
    | Return(id: nat)
    | Forget(d: Device)

  predicate HasRoom(s: State, d: Device) {
    s.waiting < s.limits.totalWait && Get(s.waitingBy, d) < s.limits.deviceWait
  }

  predicate MicroEnabled(s: State, m: Micro) {
    match m
    case Arrive(d, _) => HasRoom(s, d)
    case TurnAway(d, _) => !HasRoom(s, d)
    case Grant => true
    case GiveUp(id) => id < |s.ledger| && s.ledger[id].status.Waiting?
    case Return(id) => id < |s.ledger| && s.ledger[id].status.Active?
    case Forget(_) => true
  }

  function MicroStep(s: State, m: Micro): State
    requires MicroEnabled(s, m)
  {
    match m
    case Arrive(d, w) => Enqueue(s, d, w)
    case TurnAway(d, w) => Reject(s, d, w)
    case Grant => GrantOne(s)
    case GiveUp(id) => Expire(s, id)
    case Return(id) => Free(s, id)
    case Forget(d) => Purge(s, d)
  }

  /** Whole critical sections: what one thread does while it holds the condition. */
  datatype Event =
    | Acquire(d: Device, w: Workload)
    | Timeout(id: nat)
    | Release(id: nat)
    | RemoveDevice(d: Device)

  /** A waiting thread times out only while its waiter is neither granted nor failed, and
      a lease gives back only a channel that is active. */
  predicate Enabled(s: State, e: Event) {
    match e
    case Acquire(_, _) => true
    case Timeout(id) => MicroEnabled(s, GiveUp(id))
    case Release(id) => MicroEnabled(s, Return(id))
    case RemoveDevice(_) => true
  }

  /** What the critical section does before it grants. */
  function Entry(s: State, e: Event): Micro {
    match e
    case Acquire(d, w) => if HasRoom(s, d) then Arrive(d, w) else TurnAway(d, w)
    case Timeout(id) => GiveUp(id)
    case Release(id) => Return(id)
    case RemoveDevice(d) => Forget(d)
  }

  function Step(s: State, e: Event): State
    requires Enabled(s, e)
  {
    var s' := MicroStep(s, Entry(s, e));
    if Entry(s, e).TurnAway? then s' else GrantAll(s')
  }

  ghost predicate Runs(s: State, es: seq<Event>)
    decreases |es|
  {
    es == [] || (Enabled(s, es[0]) && Runs(Step(s, es[0]), es[1..]))
  }

  ghost function Run(s: State, es: seq<Event>): State
    requires Runs(s, es)
    decreases |es|
  {
    if es == [] then s else Run(Step(s, es[0]), es[1..])
  }
}
