/** Leases and the SSH child processes they pay for: a lease is given back only when its
    child is known to have exited, so the children that are alive never exceed the caps. */
module SshChannels {
  import opened Counting
  import opened SchedulerModel
  import opened SchedulerInvariant

  /** The child process started under a lease, as the operating system sees it. */
  datatype Child = Unborn | Running | Exited

  /** The places where the transport may give a lease back.
      Poll, Signal: ScheduledPopen.poll, and kill, terminate, send_signal, which poll afterwards.
      Wait: wait or communicate, returning or (expired) raising a timeout.
      LeaveContext: __exit__, which waits unless interrupted, and looks at returncode (`known`: a
      code is recorded).
      RunEnds: exec, whose subprocess.run returns or raises only when its child is gone.
      OpenFails: open_cmd when Popen raised.
      TransferEnds: download or upload, after wait or _terminate_reap, or when Popen raised. */
  datatype Call =
    | Poll
    | Signal
    | Wait(expired: bool)
    | LeaveContext(interrupted: bool, known: bool)
    | RunEnds
    | OpenFails
    | TransferEnds

  /** A blocking call comes back only once its child has exited. */
  predicate Returns(c: Call, child: Child) {
    match c
    case Poll => !child.Unborn?
    case Signal => !child.Unborn?
    case Wait(expired) => !child.Unborn? && (expired || child.Exited?)
    case LeaveContext(interrupted, known) => !child.Unborn? && (interrupted || known) && (known ==> child.Exited?)
    case RunEnds => !child.Running?
    case OpenFails => child.Unborn?
    case TransferEnds => !child.Running?
  }

  /** Whether the call reaches Lease.release. */
  predicate Releases(c: Call, child: Child) {
    match c
    case Poll => child.Exited?
    case Signal => child.Exited?
    case Wait(expired) => !expired
    case LeaveContext(_, known) => known
    case RunEnds => true
    case OpenFails => true
    case TransferEnds => true
  }

  /** `released` is the flag of each lease, `returning` the leases whose first release has set
      the flag but has not reached the scheduler yet. */
  datatype World = World(scheduler: State, children: seq<Child>, released: set<nat>, returning: set<nat>)

  function Start(limits: Limits): World {
    World(Init(limits), [], {}, {})
  }

  datatype Event =
    | Ask(d: Device, w: Workload)
    | Expire(id: nat)
    | DropDevice(d: Device)
    | Spawn(id: nat)
    | Exit(id: nat)
    | Api(id: nat, c: Call)
    | GiveBack(id: nat)

  predicate Leased(x: World, id: nat) {
    id < |x.scheduler.ledger| && id < |x.children| && WasGranted(x.scheduler.ledger[id])
  }

  predicate Enabled(x: World, e: Event) {
    match e
    case Ask(_, _) => true
    case Expire(id) => SchedulerModel.Enabled(x.scheduler, Timeout(id))
    case DropDevice(_) => true
    case Spawn(id) => Leased(x, id) && id !in x.released && x.children[id].Unborn?
    case Exit(id) => id < |x.children| && x.children[id].Running?
    case Api(id, c) => Leased(x, id) && Returns(c, x.children[id])
    case GiveBack(id) => id in x.returning && SchedulerModel.Enabled(x.scheduler, Release(id))
  }

  function Scheduled(x: World, e: SchedulerModel.Event): World
    requires SchedulerModel.Enabled(x.scheduler, e)
  {
    var s := Step(x.scheduler, e);
    var missing := if |s.ledger| > |x.children| then |s.ledger| - |x.children| else 0;
    x.(scheduler := s, children := x.children + seq(missing, _ => Unborn))
  }

  function Step'(x: World, e: Event): World
    requires Enabled(x, e)
  {
    match e
    case Ask(d, w) => Scheduled(x, Acquire(d, w))
    case Expire(id) => Scheduled(x, Timeout(id))
    case DropDevice(d) => Scheduled(x, RemoveDevice(d))
    case Spawn(id) => x.(children := x.children[id := Running])
    case Exit(id) => x.(children := x.children[id := Exited])
    case Api(id, c) =>
      if Releases(c, x.children[id]) && id !in x.released then
        x.(released := x.released + {id}, returning := x.returning + {id})
      else x
    case GiveBack(id) => Scheduled(x, Release(id)).(returning := x.returning - {id})
  }

  ghost predicate Runs(x: World, es: seq<Event>)
    decreases |es|
  {
    es == [] || (Enabled(x, es[0]) && Runs(Step'(x, es[0]), es[1..]))
  }

  ghost function Run(x: World, es: seq<Event>): World
    requires Runs(x, es)
    decreases |es|
  {
    if es == [] then x else Run(Step'(x, es[0]), es[1..])
  }

  /** A granted request is active until its lease's release reaches the scheduler, which
      happens once, and only for a child that is not running. */
  ghost predicate Tied(x: World) {
    var ledger := x.scheduler.ledger;
    && |x.children| == |ledger|
    && x.returning <= x.released
    && (forall id :: id in x.released ==> id < |ledger| && WasGranted(ledger[id]) && !x.children[id].Running?)
    && (forall id: nat :: id < |ledger| ==>
          (IsActive(ledger[id]) <==> WasGranted(ledger[id]) && (id in x.released ==> id in x.returning)))
    && (forall id: nat :: id < |ledger| && !x.children[id].Unborn? ==> WasGranted(ledger[id]))
  }

  ghost predicate WorldInv(x: World) {
    Inv(x.scheduler) && Conserving(x.scheduler) && Tied(x)
  }

  /** A critical section of the scheduler other than a release grants, or leaves alone. */
  lemma ScheduledTied(x: World, e: SchedulerModel.Event)
    requires WorldInv(x) && SchedulerModel.Enabled(x.scheduler, e) && !e.Release?
    ensures WorldInv(Scheduled(x, e)) && Scheduled(x, e).scheduler.limits == x.scheduler.limits
  {
    assert |x.children| == |x.scheduler.ledger|;
    hide Inv, Conserving, Tied, Step;
    StepInv(x.scheduler, e);
    StepKeepsChannels(x.scheduler, e);
    GrownTied(x, Step(x.scheduler, e), Scheduled(x, e).children);
  }

  lemma GrownTied(x: World, s': State, children: seq<Child>)
    requires Tied(x) && KeepsChannels(x.scheduler, s', -1)
    requires |children| == |s'.ledger| && x.children <= children
    requires forall i :: |x.children| <= i < |children| ==> children[i].Unborn?
    ensures Tied(x.(scheduler := s', children := children))
  {}

  /** The step gives back at most channel `back`, and nothing becomes released but that. */
  ghost predicate KeepsChannels(s: State, s': State, back: int) {
    && s'.limits == s.limits
    && |s.ledger| <= |s'.ledger|
    && (forall i :: 0 <= i < |s.ledger| && WasGranted(s.ledger[i]) && i != back ==> s'.ledger[i] == s.ledger[i])
    && (forall i :: 0 <= i < |s.ledger| && !WasGranted(s.ledger[i]) ==> !s'.ledger[i].status.Released?)
    && (forall i :: |s.ledger| <= i < |s'.ledger| ==> !s'.ledger[i].status.Released?)
    && (0 <= back < |s.ledger| ==> |s'.ledger| == |s.ledger| && s'.ledger[back].status.Released?)
  }

  function Back(e: SchedulerModel.Event): int { if e.Release? then e.id else -1 }

  lemma EntryKeepsChannels(s: State, e: SchedulerModel.Event)
    requires SchedulerModel.Enabled(s, e)
    ensures KeepsChannels(s, MicroStep(s, Entry(s, e)), Back(e))
  {
    hide Put, Get, Drop, Evict;
    match e
    case Acquire(d, w) =>
    case Timeout(id) =>
    case Release(id) =>
    case RemoveDevice(d) =>
      assert MicroStep(s, Entry(s, e)).ledger == Cancelled(s.ledger, d);
  }

  lemma StepKeepsChannels(s: State, e: SchedulerModel.Event)
    requires Inv(s) && SchedulerModel.Enabled(s, e)
    ensures KeepsChannels(s, Step(s, e), Back(e))
  {
    EntryKeepsChannels(s, e);
    if !Entry(s, e).TurnAway? {
      MicroInv(s, Entry(s, e));
      GrantingKeepsChannels(s, MicroStep(s, Entry(s, e)), Back(e));
    }
  }

  lemma GrantingKeepsChannels(s: State, s1: State, back: int)
    requires KeepsChannels(s, s1, back) && Inv(s1)
    ensures KeepsChannels(s, GrantAll(s1), back)
  {
    GrantAllProgress(s1);
    ChannelsKept(s, s1, GrantAll(s1), back);
  }

  lemma ChannelsKept(s: State, s1: State, s2: State, back: int)
    requires KeepsChannels(s, s1, back) && OnlyGrants(s1, s2) && s2.limits == s1.limits
    ensures KeepsChannels(s, s2, back)
  {
  }

  lemma GiveBackTied(x: World, id: nat)
    requires WorldInv(x) && Enabled(x, GiveBack(id))
    ensures WorldInv(Step'(x, GiveBack(id))) && Step'(x, GiveBack(id)).scheduler.limits == x.scheduler.limits
  {
    hide Inv, Conserving;
    StepInv(x.scheduler, Release(id));
    StepKeepsChannels(x.scheduler, Release(id));
    var y := Step'(x, GiveBack(id));
    assert y.children == x.children;
    ReturnTied(x, y.scheduler, id);
  }

  lemma ReturnTied(x: World, s': State, id: nat)
    requires Tied(x) && id in x.returning && KeepsChannels(x.scheduler, s', id)
    ensures Tied(x.(scheduler := s', returning := x.returning - {id}))
  {
    assert id in x.released;
  }

  /** A child that starts or exits, and a call of the transport. */
  lemma LocalTied(x: World, e: Event)
    requires Tied(x) && Enabled(x, e) && (e.Spawn? || e.Exit? || e.Api?)
    ensures Tied(Step'(x, e)) && Step'(x, e).scheduler == x.scheduler
  {
  }

  lemma StepTied(x: World, e: Event)
    requires WorldInv(x) && Enabled(x, e)
    ensures WorldInv(Step'(x, e)) && Step'(x, e).scheduler.limits == x.scheduler.limits
  {
    hide Inv, Conserving, Tied;
    match e
    case Ask(d, w) => ScheduledTied(x, Acquire(d, w));
    case Expire(id) => ScheduledTied(x, Timeout(id));
    case DropDevice(d) => ScheduledTied(x, RemoveDevice(d));
    case Spawn(_) => LocalTied(x, e);
    case Exit(_) => LocalTied(x, e);
    case Api(_, _) => LocalTied(x, e);
    case GiveBack(id) => GiveBackTied(x, id);
  }

  lemma {:induction false} RunTied(x: World, es: seq<Event>)
    requires WorldInv(x) && Runs(x, es)
    ensures WorldInv(Run(x, es)) && Run(x, es).scheduler.limits == x.scheduler.limits
    decreases |es|
  {
    hide WorldInv, Step', Enabled;
    if es != [] {
      StepTied(x, es[0]);
      RunTied(Step'(x, es[0]), es[1..]);
    }
  }

  /** The second half of a release is never refused, and the accounting cannot underflow. */
  lemma ReturningNeverUnderflows(x: World, id: nat)
    requires WorldInv(x) && id in x.returning
    ensures Enabled(x, GiveBack(id))
    ensures x.scheduler.active > 0 && Get(x.scheduler.activeBy, x.scheduler.ledger[id].device) > 0
    ensures x.scheduler.ledger[id].workload.Background? ==>
              Get(x.scheduler.backgroundBy, x.scheduler.ledger[id].device) > 0
  {
    CountedChannel(x.scheduler, id);
  }

  // ----- Every channel comes back -----

  /** A wait that gives up, and a context left without a return code. */
  predicate CutShort(c: Call) { c == Wait(true) || (c.LeaveContext? && !c.known) }

  /** A call that is not cut short gives the lease back exactly if no child is running, and touches
      no other lease. */
  lemma CallReleases(x: World, id: nat, c: Call)
    requires Enabled(x, Api(id, c))
    ensures var y := Step'(x, Api(id, c));
            && (id in y.released <==> id in x.released || (!x.children[id].Running? && !CutShort(c)))
            && (id in y.returning <==> id in x.returning || (id in y.released && id !in x.released))
            && y.released - {id} == x.released - {id} && y.returning - {id} == x.returning - {id}
  {}

  lemma OneMore(x: World, e: Event, es: seq<Event>)
    requires Enabled(x, e) && Runs(Step'(x, e), es)
    ensures Runs(x, [e] + es) && Run(x, [e] + es) == Run(Step'(x, e), es)
  {
    assert ([e] + es)[1..] == es;
  }

  lemma GiveBackEnds(x: World, id: nat)
    requires WorldInv(x) && id in x.returning
    ensures Runs(x, [GiveBack(id)])
    ensures var y := Run(x, [GiveBack(id)]); id < |y.scheduler.ledger| && y.scheduler.ledger[id].status == Released
  {
    ReturningNeverUnderflows(x, id);
    StepKeepsChannels(x.scheduler, Release(id));
    OneMore(x, GiveBack(id), []);
    assert [GiveBack(id)] + [] == [GiveBack(id)];
  }

  /** From any reachable state, once a child has exited its channel can be given back: a wait that
      returns and the rest of the release are enough, unless it has been given back before. */
  lemma ExitedChannelComesBack(x: World, id: nat) returns (es: seq<Event>)
    requires WorldInv(x) && id < |x.children| && x.children[id].Exited?
    ensures es <= [Api(id, Wait(false)), GiveBack(id)] || es == [GiveBack(id)]
    ensures Runs(x, es) && id < |Run(x, es).scheduler.ledger| && Run(x, es).scheduler.ledger[id].status == Released
  {
    if id in x.returning {
      GiveBackEnds(x, id);
      es := [GiveBack(id)];
    } else if id in x.released {
      es := [];
    } else {
      var e := Api(id, Wait(false));
      StepTied(x, e);
      GiveBackEnds(Step'(x, e), id);
      OneMore(x, e, [GiveBack(id)]);
      es := [e] + [GiveBack(id)];
    }
  }

  // ----- Live children against the caps -----

  function Pairs(x: World): (r: seq<(Child, Request)>)
    requires |x.children| == |x.scheduler.ledger|
    ensures |r| == |x.children|
    ensures forall i :: 0 <= i < |r| ==> r[i] == (x.children[i], x.scheduler.ledger[i])
  {
    seq(|x.children|, i requires 0 <= i < |x.children| => (x.children[i], x.scheduler.ledger[i]))
  }

  predicate IsLive(c: (Child, Request)) { c.0.Running? }
  function LiveOn(d: Device): ((Child, Request)) -> bool { (c: (Child, Request)) => c.0.Running? && c.1.device == d }
  function LiveBackgroundOn(d: Device): ((Child, Request)) -> bool {
    (c: (Child, Request)) => c.0.Running? && c.1.device == d && c.1.workload.Background?
  }

  /** In every reachable state the running children are at most the channels the scheduler
      counts, in all, for each device, and for each device's background work; and those are
      within the caps. */
  lemma LiveChildrenWithinCaps(limits: Limits, es: seq<Event>, d: Device)
    requires limits.Valid() && Runs(Start(limits), es)
    ensures var x := Run(Start(limits), es);
            && |x.children| == |x.scheduler.ledger|
            && Count(Pairs(x), IsLive) <= x.scheduler.active <= limits.total
            && Count(Pairs(x), LiveOn(d)) <= Get(x.scheduler.activeBy, d) <= limits.device
            && Count(Pairs(x), LiveBackgroundOn(d)) <= Get(x.scheduler.backgroundBy, d) <= limits.backgroundDevice
  {
    InitInv(limits);
    RunTied(Start(limits), es);
    LiveAreCounted(Run(Start(limits), es), d);
  }

  lemma LiveAreCounted(x: World, d: Device)
    requires WorldInv(x)
    ensures Count(Pairs(x), IsLive) <= x.scheduler.active <= x.scheduler.limits.total
    ensures Count(Pairs(x), LiveOn(d)) <= Get(x.scheduler.activeBy, d) <= x.scheduler.limits.device
    ensures Count(Pairs(x), LiveBackgroundOn(d)) <= Get(x.scheduler.backgroundBy, d)
         <= x.scheduler.limits.backgroundDevice
  {
    var ledger := x.scheduler.ledger;
    assert forall i: nat :: i < |ledger| && x.children[i].Running? ==> IsActive(ledger[i]);
    CountPointwise(Pairs(x), ledger, IsLive, IsActive);
    CountPointwise(Pairs(x), ledger, LiveOn(d), ActiveOn(d));
    CountPointwise(Pairs(x), ledger, LiveBackgroundOn(d), BackgroundOn(d));
  }
}
