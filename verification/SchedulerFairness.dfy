/** No starvation: how many grants may pass a device that is always ready for one. */
module SchedulerFairness {
  import opened SchedulerModel
  import opened SchedulerInvariant
  import opened Sequences

  // ----- Histories in single steps, so that every grant is visible -----

  ghost predicate Legal(s: State, ms: seq<Micro>)
    decreases |ms|
  {
    ms == [] || (MicroEnabled(s, ms[0]) && Legal(MicroStep(s, ms[0]), ms[1..]))
  }

  ghost function After(s: State, ms: seq<Micro>): State
    requires Legal(s, ms)
    decreases |ms|
  {
    if ms == [] then s else After(MicroStep(s, ms[0]), ms[1..])
  }

  function Grants(ms: seq<Micro>): nat {
    if ms == [] then 0 else Grants(ms[1..]) + if ms[0].Grant? then 1 else 0
  }

  /** Step m hands a channel to device d for class w. */
  predicate Serves(s: State, m: Micro, w: Workload, d: Device) {
    m.Grant? && Grantable(s) && Choice(s) == w && s.ledger[Pop(s, w).id].device == d
  }

  ghost predicate IsServed(s: State, ms: seq<Micro>, w: Workload, d: Device)
    requires Legal(s, ms)
    decreases |ms|
  {
    ms != [] && (Serves(s, ms[0], w, d) || IsServed(MicroStep(s, ms[0]), ms[1..], w, d))
  }

  /** Until it is served, device d keeps somebody waiting in class w, and its own caps never
      stand in the way of a grant. */
  ghost predicate AlwaysReady(s: State, ms: seq<Micro>, w: Workload, d: Device)
    requires Legal(s, ms)
    decreases |ms|
  {
    && d in s.Lane(w).turns
    && (ms != [] ==>
          && (ms[0].Grant? ==> CanGrant(s, d, w))
          && (Serves(s, ms[0], w, d) || AlwaysReady(MicroStep(s, ms[0]), ms[1..], w, d)))
  }

  // ----- The measure that every grant to somebody else lowers -----

  function Place(turns: seq<Device>, d: Device): (k: nat)
    requires d in turns
    ensures k < |turns| && turns[k] == d && d !in turns[..k]
  {
    if turns[0] == d then 0 else 1 + Place(turns[1..], d)
  }

  /** The grants a ready device at place k may have to wait for, its own included. */
  function Bound(w: Workload, k: nat): nat {
    if w.Background? then 9 * (k + 1) else k + 2 + k / 8
  }

  /** How much of a burst has gone by. */
  function Burst(streak: int): int { if streak >= FOREGROUND_BURST then FOREGROUND_BURST else streak }

  /** Background: what is left of a burst, and a whole turn for each device ahead.  Foreground: a
      grant for each device ahead, and the background grants that fall between. */
  function Patience(s: State, w: Workload, d: Device): int
    requires d in s.Lane(w).turns
  {
    var place := Place(s.Lane(w).turns, d);
    if w.Background? then (FOREGROUND_BURST + 1) * place + FOREGROUND_BURST - Burst(s.streak) + 1
    else place + 1 + (place + Burst(s.streak)) / FOREGROUND_BURST
  }

  lemma PlaceIs(turns: seq<Device>, d: Device, k: nat)
    requires Distinct(turns) && k < |turns| && turns[k] == d
    ensures Place(turns, d) == k
  {
  }

  ghost predicate Rotated(turns: seq<Device>, k: nat, tail: seq<Device>, turns': seq<Device>)
    requires k < |turns|
  {
    turns' == turns[k + 1..] + turns[..k] + tail
  }

  /** A pass over the turns serves the first eligible device. */
  lemma PopFinds(s: State, w: Workload, k: nat)
    requires LaneOk(s.Lane(w), s.ledger, w)
    requires k == FirstEligible(s, w, 0) && k < |s.Lane(w).turns|
    ensures Pop(s, w).Somebody? && Pop(s, w).id < |s.ledger|
    ensures s.ledger[Pop(s, w).id].device == s.Lane(w).turns[k]
    ensures exists tail :: Rotated(s.Lane(w).turns, k, tail, Pop(s, w).lane.turns)
  {
    var lane := s.Lane(w);
    var d := lane.turns[k];
    HeadIsQueued(lane, s.ledger, w, d);
    hide LaneOk, FirstEligible, Distinct;
    assert Rotated(lane.turns, k, if |lane.queues[d]| == 1 then [] else [d], Pop(s, w).lane.turns);
  }

  lemma HeadIsQueued(lane: Lane, ledger: seq<Request>, w: Workload, d: Device)
    requires LaneOk(lane, ledger, w) && d in lane.turns
    ensures d in lane.queues && lane.queues[d] != [] && Queued(ledger, d, w, lane.queues[d][0])
  {
    assert lane.queues[d][0] in lane.Queue(d);
  }

  lemma ForwardPlace(turns: seq<Device>, k: nat, p: nat, tail: seq<Device>)
    requires Distinct(turns) && k < p < |turns|
    ensures var r := turns[k + 1..] + turns[..k] + tail; turns[p] in r && Place(r, turns[p]) == p - k - 1
  {
    var r := turns[k + 1..] + turns[..k] + tail;
    assert r[p - k - 1] == turns[p];
    var q := Place(r, turns[p]);
    assert q <= p - k - 1;
    assert r[q] == turns[q + k + 1];
  }

  lemma TurnsAreDistinct(s: State, w: Workload)
    requires LaneOk(s.Lane(w), s.ledger, w)
    ensures Distinct(s.Lane(w).turns)
  {}

  /** A ready device is reached, or moves forward. */
  lemma PopReaches(s: State, w: Workload, d: Device)
    requires LaneOk(s.Lane(w), s.ledger, w) && d in s.Lane(w).turns && CanGrant(s, d, w)
    ensures Pop(s, w).Somebody? && Pop(s, w).id < |s.ledger|
    ensures var e, lane := s.ledger[Pop(s, w).id].device, Pop(s, w).lane;
            e == d || (d in lane.turns && Place(lane.turns, d) < Place(s.Lane(w).turns, d))
  {
    var k := FirstEligible(s, w, 0);
    var p := Place(s.Lane(w).turns, d);
    assert k <= p;
    PopFinds(s, w, k);
    TurnsAreDistinct(s, w);
    hide LaneOk, Distinct, CanGrant, Pop, FirstEligible;
    if k != p {
      var tail :| Rotated(s.Lane(w).turns, k, tail, Pop(s, w).lane.turns);
      ForwardPlace(s.Lane(w).turns, k, p, tail);
    }
  }

  lemma GrantLowersPatience(s: State, w: Workload, d: Device)
    requires Inv(s) && d in s.Lane(w).turns && CanGrant(s, d, w)
    requires !Serves(s, Grant, w, d)
    ensures d in GrantOne(s).Lane(w).turns && Patience(GrantOne(s), w, d) < Patience(s, w, d)
  {
    PopReaches(s, w, d);
    var v := Choice(s);
    assert Pop(s, v).Somebody?;
    assert Pop(s, v).id < |s.ledger| by {
      assert LaneOk(s.Lane(v), s.ledger, v);
      PopServes(s, v);
    }
    ChosenGrantLowers(s, w, d, v);
  }

  lemma ChosenGrantLowers(s: State, w: Workload, d: Device, v: Workload)
    requires d in s.Lane(w).turns && 0 <= s.streak
    requires v == Choice(s) && Grantable(s) && Pop(s, w).Somebody?
    requires v == w ==> d in Pop(s, w).lane.turns && Place(Pop(s, w).lane.turns, d) < Place(s.Lane(w).turns, d)
    ensures d in GrantOne(s).Lane(w).turns && Patience(GrantOne(s), w, d) < Patience(s, w, d)
  {
    var s' := GrantOne(s);
    assert s'.Lane(w) == if v == w then Pop(s, w).lane else s.Lane(w);
  }

  lemma {:induction false} WithoutKeepsOrder(turns: seq<Device>, x: Device, d: Device)
    requires d in turns && d != x
    ensures d in Without(turns, x) && Place(Without(turns, x), d) <= Place(turns, d)
  {
    if turns[0] != d { WithoutKeepsOrder(turns[1..], x, d); }
  }

  lemma OthersKeepPatience(s: State, m: Micro, w: Workload, d: Device)
    requires Inv(s) && MicroEnabled(s, m) && !m.Grant?
    requires d in s.Lane(w).turns && d in MicroStep(s, m).Lane(w).turns
    ensures Patience(MicroStep(s, m), w, d) <= Patience(s, w, d)
  {
    hide MicroStep, MicroEnabled, Place, LaneOk, Distinct;
    MicroInv(s, m);
    assert LaneOk(MicroStep(s, m).Lane(w), MicroStep(s, m).ledger, w);
    TurnsAreDistinct(MicroStep(s, m), w);
    OthersKeepPlace(s, m, w, d);
    PatienceFollowsPlace(s, MicroStep(s, m), w, d);
  }

  lemma PatienceFollowsPlace(s: State, s': State, w: Workload, d: Device)
    requires d in s.Lane(w).turns && d in s'.Lane(w).turns && s'.streak == s.streak
    requires Place(s'.Lane(w).turns, d) <= Place(s.Lane(w).turns, d)
    ensures Patience(s', w, d) <= Patience(s, w, d)
  {
    hide Place;
  }

  lemma PrefixKeepsPlace(turns: seq<Device>, turns': seq<Device>, d: Device)
    requires d in turns && turns <= turns' && Distinct(turns')
    ensures d in turns' && Place(turns', d) == Place(turns, d)
  {
    assert turns'[Place(turns, d)] == d;
    PlaceIs(turns', d, Place(turns, d));
  }

  lemma OthersKeepPlace(s: State, m: Micro, w: Workload, d: Device)
    requires MicroEnabled(s, m) && !m.Grant?
    requires d in s.Lane(w).turns && d in MicroStep(s, m).Lane(w).turns
    requires Distinct(MicroStep(s, m).Lane(w).turns)
    ensures Place(MicroStep(s, m).Lane(w).turns, d) <= Place(s.Lane(w).turns, d)
    ensures MicroStep(s, m).streak == s.streak
  {
    TurnsMoveOnly(s, m, w);
    hide Place, MicroStep, MicroEnabled;
    var turns, turns' := s.Lane(w).turns, MicroStep(s, m).Lane(w).turns;
    if turns <= turns' {
      PrefixKeepsPlace(turns, turns', d);
    } else {
      var x :| turns' == Without(turns, x);
      WithoutKeepsOrder(turns, x, d);
    }
  }

  /** Apart from grants, a turn order gains a device at its end, or loses one. */
  lemma TurnsMoveOnly(s: State, m: Micro, w: Workload)
    requires MicroEnabled(s, m) && !m.Grant?
    ensures MicroStep(s, m).streak == s.streak
    ensures var turns, turns' := s.Lane(w).turns, MicroStep(s, m).Lane(w).turns;
            turns <= turns' || exists x :: turns' == Without(turns, x)
  {
    hide Put, Get, GrantOne, Cancelled, Without, HasRoom;
    var turns, turns' := s.Lane(w).turns, MicroStep(s, m).Lane(w).turns;
    match m
    case GiveUp(id) => assert turns' == turns || turns' == Without(turns, s.ledger[id].device);
    case Forget(x) => assert turns' == turns || turns' == Without(turns, x);
    case _ =>
  }

  lemma {:induction false} ServedWithinPatience(s: State, ms: seq<Micro>, w: Workload, d: Device)
    requires Inv(s) && Legal(s, ms) && AlwaysReady(s, ms, w, d)
    requires Grants(ms) >= Patience(s, w, d)
    ensures IsServed(s, ms, w, d)
    decreases |ms|
  {
    if ms == [] {
      assert false;
    } else if !Serves(s, ms[0], w, d) {
      var s' := MicroStep(s, ms[0]);
      MicroInv(s, ms[0]);
      if ms[0].Grant? {
        GrantLowersPatience(s, w, d);
      } else {
        OthersKeepPatience(s, ms[0], w, d);
      }
      ServedWithinPatience(s', ms[1..], w, d);
    }
  }

  /** The no-starvation bound.  A device that stands at place k of the turn order of its class
      and stays ready is served within 9 * (k + 1) grants if the class is background, and
      within k + 2 + k / 8 if it is foreground, whatever else happens in between. */
  lemma NoStarvation(s: State, ms: seq<Micro>, w: Workload, d: Device)
    requires Inv(s) && Legal(s, ms) && AlwaysReady(s, ms, w, d)
    requires Grants(ms) >= Bound(w, Place(s.Lane(w).turns, d))
    ensures IsServed(s, ms, w, d)
  {
    PatienceIsBounded(s, w, d);
    ServedWithinPatience(s, ms, w, d);
  }

  lemma PatienceIsBounded(s: State, w: Workload, d: Device)
    requires d in s.Lane(w).turns && 0 <= s.streak
    ensures Patience(s, w, d) <= Bound(w, Place(s.Lane(w).turns, d))
  {}

  // ----- Single steps and critical sections are the same histories -----

  /** The single steps of the grant loop. */
  function GrantSteps(s: State): seq<Micro>
    decreases s.waiting
  {
    if s.waiting > 0 && Grantable(s) && GrantOne(s).waiting < s.waiting then [Grant] + GrantSteps(GrantOne(s)) else []
  }

  function Expand(s: State, es: seq<Event>): seq<Micro>
    decreases |es|
  {
    if es == [] || !Enabled(s, es[0]) then []
    else
      var s1 := MicroStep(s, Entry(s, es[0]));
      [Entry(s, es[0])] + (if Entry(s, es[0]).TurnAway? then [] else GrantSteps(s1)) + Expand(Step(s, es[0]), es[1..])
  }

  lemma {:induction false} LegalConcat(s: State, ms: seq<Micro>, ns: seq<Micro>)
    requires Legal(s, ms) && Legal(After(s, ms), ns)
    ensures Legal(s, ms + ns) && After(s, ms + ns) == After(After(s, ms), ns)
    decreases |ms|
  {
    if ms == [] {
      assert ms + ns == ns;
    } else {
      assert (ms + ns)[1..] == ms[1..] + ns;
      LegalConcat(MicroStep(s, ms[0]), ms[1..], ns);
    }
  }

  lemma {:induction false} GrantStepsAreGrantAll(s: State)
    requires Inv(s)
    ensures Legal(s, GrantSteps(s)) && After(s, GrantSteps(s)) == GrantAll(s)
    decreases s.waiting
  {
    hide Inv, Grantable, GrantOne;
    if s.waiting > 0 && Grantable(s) {
      assert Inv(GrantOne(s)) && GrantOne(s).waiting < s.waiting by { GrantOneInv(s); }
      GrantStepsAreGrantAll(GrantOne(s));
      assert GrantSteps(s)[1..] == GrantSteps(GrantOne(s));
    }
  }

  /** Every run of critical sections is a history of single steps with the same end. */
  lemma {:induction false} RunsAreHistories(s: State, es: seq<Event>)
    requires Inv(s) && Conserving(s) && Runs(s, es)
    ensures Legal(s, Expand(s, es)) && After(s, Expand(s, es)) == Run(s, es)
    decreases |es|
  {
    hide Inv, Conserving, GrantAll, GrantOne, Grantable;
    if es != [] {
      var m := Entry(s, es[0]);
      var s1 := MicroStep(s, m);
      var grants := if m.TurnAway? then [] else GrantSteps(s1);
      MicroInv(s, m);
      GrantStepsAreGrantAll(s1);
      StepInv(s, es[0]);
      RunsAreHistories(Step(s, es[0]), es[1..]);
      assert ([m] + grants)[1..] == grants;
      LegalConcat(s, [m] + grants, Expand(Step(s, es[0]), es[1..]));
    }
  }

  /** The bound for whole runs of critical sections. */
  lemma NoStarvationInRuns(s: State, es: seq<Event>, w: Workload, d: Device)
    requires Inv(s) && Conserving(s) && Runs(s, es)
    requires Legal(s, Expand(s, es)) && AlwaysReady(s, Expand(s, es), w, d)
    requires Grants(Expand(s, es)) >= Bound(w, Place(s.Lane(w).turns, d))
    ensures IsServed(s, Expand(s, es), w, d)
    ensures After(s, Expand(s, es)) == Run(s, es)
  {
    NoStarvation(s, Expand(s, es), w, d);
    RunsAreHistories(s, es);
  }
}
