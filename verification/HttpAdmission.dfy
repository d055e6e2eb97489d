/** The portal's bounded HTTP server: admission under a lock, a work queue, a fixed set of
    workers, and draining on shutdown.  A transition is one semaphore, counter or queue
    operation, so that acceptor, workers and drain interleave between any two of them. */
module HttpAdmission {
  import opened Counting
  import opened Sequences

  /** Where the accept thread is inside its locked section. */
  datatype Acceptor = Outside | HasSlot | Counted | Failing | Uncounted

  datatype Request = Queued | Running(worker: nat) | Finished

  /** SawEmpty: the queue was empty, and the closing flag is still to be looked at. */
  datatype Worker = Free | SawEmpty | Serving(id: nat) | Releasing | Gone

  /** `late`: this drain was called after server_close. */
  datatype Drain = Waiting(late: bool) | SawZero(late: bool) | Joining(late: bool) | Returned(late: bool, result: bool)

  datatype State = State(
    taken: int,
    active: int,
    queue: seq<nat>,
    requests: seq<Request>,
    workers: seq<Worker>,
    acceptor: Acceptor,
    closing: bool,
    drains: seq<Drain>)
  {
    function Max(): nat { |workers| }
  }

  function Init(maxWorkers: nat): State {
    State(0, 0, [], [], seq(maxWorkers, _ => Free), Outside, false, [])
  }

  datatype Step =
    | AdmitSlot
    | AdmitCount
    | AdmitPut(ok: bool)
    | AdmitUncount
    | AdmitFree
    | CloseServer
    | WorkerGet(w: nat)
    | WorkerEmpty(w: nat)
    | WorkerLook(w: nat)
    | HandlerEnds(w: nat)
    | SlotBack(w: nat)
    | DrainStarts
    | DrainSees(d: nat)
    | DrainLooks(d: nat)
    | DrainJoins(d: nat)
    | DrainExpires(d: nat)

  predicate Is(s: State, w: nat, p: Worker) { w < |s.workers| && s.workers[w] == p }

  predicate Enabled(s: State, e: Step) {
    match e
    case AdmitSlot => s.acceptor.Outside?
    case AdmitCount => s.acceptor.HasSlot?
    case AdmitPut(_) => s.acceptor.Counted?
    case AdmitUncount => s.acceptor.Failing?
    case AdmitFree => s.acceptor.Uncounted?
    case CloseServer => s.acceptor.Outside?
    case WorkerGet(w) => Is(s, w, Free) && s.queue != [] && s.queue[0] < |s.requests|
    case WorkerEmpty(w) => Is(s, w, Free) && s.queue == []
    case WorkerLook(w) => Is(s, w, SawEmpty)
    case HandlerEnds(w) => w < |s.workers| && s.workers[w].Serving? && s.workers[w].id < |s.requests|
    case SlotBack(w) => Is(s, w, Releasing)
    case DrainStarts => true
    case DrainSees(d) => d < |s.drains| && s.drains[d].Waiting? && s.active == 0
    case DrainLooks(d) => d < |s.drains| && s.drains[d].SawZero?
    case DrainJoins(d) => d < |s.drains| && s.drains[d].Joining?
                          && forall w :: 0 <= w < |s.workers| ==> s.workers[w].Gone?
    case DrainExpires(d) => d < |s.drains| && !s.drains[d].Returned?
  }

  function Next(s: State, e: Step): State
    requires Enabled(s, e)
  {
    match e
    case AdmitSlot => if s.closing || s.taken >= s.Max() then s else s.(taken := s.taken + 1, acceptor := HasSlot)
    case AdmitCount => s.(active := s.active + 1, acceptor := Counted)
    case AdmitPut(ok) =>
      if ok && |s.queue| < s.Max() then
        s.(queue := s.queue + [|s.requests|], requests := s.requests + [Queued], acceptor := Outside)
      else s.(acceptor := Failing)
    case AdmitUncount => s.(active := s.active - 1, acceptor := Uncounted)
    case AdmitFree => s.(taken := s.taken - 1, acceptor := Outside)
    case CloseServer => s.(closing := true)
    case WorkerGet(w) =>
      s.(queue := s.queue[1..], workers := s.workers[w := Serving(s.queue[0])],
         requests := s.requests[s.queue[0] := Running(w)])
    case WorkerEmpty(w) => s.(workers := s.workers[w := SawEmpty])
    case WorkerLook(w) => s.(workers := s.workers[w := if s.closing then Gone else Free])
    case HandlerEnds(w) =>
      s.(active := s.active - 1, workers := s.workers[w := Releasing],
         requests := s.requests[s.workers[w].id := Finished])
    case SlotBack(w) => s.(taken := s.taken - 1, workers := s.workers[w := Free])
    case DrainStarts => s.(drains := s.drains + [Waiting(s.closing)])
    case DrainSees(d) => s.(drains := s.drains[d := SawZero(s.drains[d].late)])
    case DrainLooks(d) =>
      s.(drains := s.drains[d := if s.closing then Joining(s.drains[d].late) else Returned(s.drains[d].late, true)])
    case DrainJoins(d) => s.(drains := s.drains[d := Returned(s.drains[d].late, true)])
    case DrainExpires(d) => s.(drains := s.drains[d := Returned(s.drains[d].late, false)])
  }

  ghost predicate Runs(s: State, es: seq<Step>)
    decreases |es|
  {
    es == [] || (Enabled(s, es[0]) && Runs(Next(s, es[0]), es[1..]))
  }

  ghost function Run(s: State, es: seq<Step>): State
    requires Runs(s, es)
    decreases |es|
  {
    if es == [] then s else Run(Next(s, es[0]), es[1..])
  }

  lemma Cons(s: State, e: Step, es: seq<Step>)
    requires Enabled(s, e) && Runs(Next(s, e), es)
    ensures Runs(s, [e] + es) && Run(s, [e] + es) == Run(Next(s, e), es)
  {
    assert ([e] + es)[1..] == es;
  }

  lemma Just(s: State, e: Step)
    requires Enabled(s, e)
    ensures Runs(s, [e]) && Run(s, [e]) == Next(s, e)
  {
    Cons(s, e, []);
    assert [e] + [] == [e];
  }

  // ----- The invariant -----

  predicate IsServing(w: Worker) { w.Serving? }
  predicate HoldsSlot(w: Worker) { w.Serving? || w.Releasing? }

  function AtDoor(a: Acceptor): nat { if a.Outside? then 0 else 1 }
  function CountedAtDoor(a: Acceptor): nat { if a.Counted? || a.Failing? then 1 else 0 }

  ghost predicate CountsOk(s: State) {
    && s.taken == |s.queue| + Count(s.workers, HoldsSlot) + AtDoor(s.acceptor)
    && s.active == |s.queue| + Count(s.workers, IsServing) + CountedAtDoor(s.acceptor)
    && s.taken <= s.Max()
  }

  ghost predicate PlacesOk(s: State) {
    && Distinct(s.queue)
    && (forall id: nat :: id in s.queue <==> id < |s.requests| && s.requests[id] == Queued)
    && (forall id: nat :: id < |s.requests| && s.requests[id].Running? ==> Is(s, s.requests[id].worker, Serving(id)))
    && (forall w: nat :: w < |s.workers| && s.workers[w].Serving? ==>
          s.workers[w].id < |s.requests| && s.requests[s.workers[w].id] == Running(w))
  }

  predicate DrainOk(s: State, d: Drain) {
    && (d.late || d.Joining? ==> s.closing)
    && (d.late && !d.Waiting? && d != Returned(true, false) ==> s.active == 0)
    && (d == Returned(true, true) ==> forall w :: 0 <= w < |s.workers| ==> s.workers[w].Gone?)
  }

  ghost predicate ClosingOk(s: State) {
    && (s.closing ==> s.acceptor.Outside?)
    && (forall d :: 0 <= d < |s.drains| ==> DrainOk(s, s.drains[d]))
  }

  ghost predicate Inv(s: State) {
    CountsOk(s) && PlacesOk(s) && ClosingOk(s)
  }

  lemma {:induction false} InitInv(maxWorkers: nat)
    ensures Inv(Init(maxWorkers))
  {
    CountZero(Init(maxWorkers).workers, HoldsSlot);
    CountZero(Init(maxWorkers).workers, IsServing);
  }

  lemma MoveWorker(s: State, w: nat, p: Worker)
    requires w < |s.workers|
    ensures Count(s.workers[w := p], HoldsSlot)
         == Count(s.workers, HoldsSlot) - (if HoldsSlot(s.workers[w]) then 1 else 0) + (if HoldsSlot(p) then 1 else 0)
    ensures Count(s.workers[w := p], IsServing)
         == Count(s.workers, IsServing) - (if IsServing(s.workers[w]) then 1 else 0) + (if IsServing(p) then 1 else 0)
  {
    CountUpdate(s.workers, w, p, HoldsSlot);
    CountUpdate(s.workers, w, p, IsServing);
  }

  lemma NextCounts(s: State, e: Step)
    requires CountsOk(s) && Enabled(s, e)
    ensures CountsOk(Next(s, e))
  {
    hide Count;
    match e
    case AdmitSlot =>
    case AdmitCount =>
    case AdmitPut(ok) =>
    case AdmitUncount =>
    case AdmitFree =>
    case CloseServer =>
    case WorkerGet(w) => MoveWorker(s, w, Serving(s.queue[0]));
    case WorkerEmpty(w) => MoveWorker(s, w, SawEmpty);
    case WorkerLook(w) => MoveWorker(s, w, if s.closing then Gone else Free);
    case HandlerEnds(w) => MoveWorker(s, w, Releasing);
    case SlotBack(w) => MoveWorker(s, w, Free);
    case DrainStarts =>
    case DrainSees(d) =>
    case DrainLooks(d) =>
    case DrainJoins(d) =>
    case DrainExpires(d) =>
  }

  lemma NextPlaces(s: State, e: Step)
    requires PlacesOk(s) && Enabled(s, e)
    ensures PlacesOk(Next(s, e))
  {
    if e.WorkerGet? {
      GetPlaces(s, e.w);
    } else if e.HandlerEnds? {
      EndPlaces(s, e.w);
    } else if e.AdmitPut? {
      PutPlaces(s, e);
    } else if e.WorkerEmpty? || e.WorkerLook? || e.SlotBack? {
      IdlePlaces(s, e.w, Next(s, e).workers[e.w]);
    }
  }

  lemma PutPlaces(s: State, e: Step)
    requires PlacesOk(s) && e.AdmitPut? && Enabled(s, e)
    ensures PlacesOk(Next(s, e))
  {
    assert |s.requests| !in s.queue;
  }

  lemma IdlePlaces(s: State, w: nat, p: Worker)
    requires PlacesOk(s) && w < |s.workers| && !s.workers[w].Serving? && !p.Serving?
    ensures PlacesOk(s.(workers := s.workers[w := p]))
  {
    var t := s.(workers := s.workers[w := p]);
    assert forall v: nat, id: nat :: Is(s, v, Serving(id)) ==> Is(t, v, Serving(id));
  }

  lemma EndPlaces(s: State, w: nat)
    requires PlacesOk(s) && Enabled(s, HandlerEnds(w))
    ensures PlacesOk(Next(s, HandlerEnds(w)))
  {
    var id := s.workers[w].id;
    assert s.requests[id] == Running(w) && id !in s.queue;
  }

  lemma GetPlaces(s: State, w: nat)
    requires PlacesOk(s) && Enabled(s, WorkerGet(w))
    ensures PlacesOk(Next(s, WorkerGet(w)))
  {
    assert s.queue[0] in s.queue;
    assert forall x :: x in s.queue[1..] <==> x in s.queue && x != s.queue[0];
  }

  lemma NextClosing(s: State, e: Step)
    requires Inv(s) && Enabled(s, e)
    ensures ClosingOk(Next(s, e))
  {
    CountZero(s.workers, IsServing);
    forall d | 0 <= d < |Next(s, e).drains| ensures DrainOk(Next(s, e), Next(s, e).drains[d]) {
      if d < |s.drains| { assert DrainOk(s, s.drains[d]); }
    }
  }

  lemma NextMax(s: State, e: Step)
    requires Enabled(s, e)
    ensures Next(s, e).Max() == s.Max()
  {}

  lemma {:induction false} RunInv(s: State, es: seq<Step>)
    requires Inv(s) && Runs(s, es)
    ensures Inv(Run(s, es)) && Run(s, es).Max() == s.Max()
    decreases |es|
  {
    hide CountsOk, PlacesOk, ClosingOk, Enabled, Next;
    if es != [] {
      NextCounts(s, es[0]);
      NextPlaces(s, es[0]);
      NextClosing(s, es[0]);
      NextMax(s, es[0]);
      RunInv(Next(s, es[0]), es[1..]);
    }
  }

  // ----- The main results -----

  /** In every interleaving the queued and running requests are covered by slots, the slots by
      the number of workers, and the queue has room when the acceptor puts into it. */
  lemma AdmissionIsBounded(maxWorkers: nat, es: seq<Step>)
    requires Runs(Init(maxWorkers), es)
    ensures var s := Run(Init(maxWorkers), es);
            && |s.queue| + Count(s.workers, IsServing) <= s.taken <= maxWorkers
            && |s.queue| + Count(s.workers, IsServing) <= s.active <= s.taken
            && (s.acceptor.Counted? ==> |s.queue| < maxWorkers)
  {
    InitInv(maxWorkers);
    RunInv(Init(maxWorkers), es);
    var s := Run(Init(maxWorkers), es);
    CountMonotone(s.workers, IsServing, HoldsSlot);
  }

  lemma {:induction false} NoneAfterClose(s: State, es: seq<Step>)
    requires s.closing && s.acceptor.Outside? && Runs(s, es)
    ensures Run(s, es).closing && |Run(s, es).requests| == |s.requests|
    decreases |es|
  {
    if es != [] { NoneAfterClose(Next(s, es[0]), es[1..]); }
  }

  /** drain returning True after server_close: every admitted request is finished, every worker
      has left, and nothing is admitted in whatever happens later. */
  lemma DrainedMeansFinished(maxWorkers: nat, es: seq<Step>, d: nat, later: seq<Step>)
    requires Runs(Init(maxWorkers), es)
    requires d < |Run(Init(maxWorkers), es).drains| && Run(Init(maxWorkers), es).drains[d] == Returned(true, true)
    requires Runs(Run(Init(maxWorkers), es), later)
    ensures var s := Run(Init(maxWorkers), es);
            && (forall id :: 0 <= id < |s.requests| ==> s.requests[id] == Finished)
            && (forall w :: 0 <= w < |s.workers| ==> s.workers[w].Gone?)
            && s.queue == [] && s.active == 0
            && |Run(s, later).requests| == |s.requests|
  {
    var s := Run(Init(maxWorkers), es);
    InitInv(maxWorkers);
    RunInv(Init(maxWorkers), es);
    assert DrainOk(s, s.drains[d]);
    CountZero(s.workers, IsServing);
    NoneAfterClose(s, later);
    forall id: nat | id < |s.requests| ensures s.requests[id] == Finished {
      assert id in s.queue <==> s.requests[id] == Queued;
    }
  }

  // ----- An admitted request can be left behind -----

  ghost predicate Stranded(s: State) {
    && s.queue != [] && s.closing && s.acceptor.Outside? && s.active > 0
    && (forall w :: 0 <= w < |s.workers| ==> s.workers[w].Gone?)
  }

  /** The server closes while requests are queued and every worker has either left or found the
      queue empty without having looked at the flag since. */
  predicate Doomed(s: State) {
    s.queue != [] && forall w :: 0 <= w < |s.workers| ==> s.workers[w].SawEmpty? || s.workers[w].Gone?
  }

  predicate Shut(s: State) { s.closing && s.acceptor.Outside? }

  lemma ShutStep(s: State, e: Step)
    requires Shut(s) && Enabled(s, e)
    ensures Shut(Next(s, e)) && (Doomed(Next(s, e)) <==> Doomed(s))
    ensures Doomed(s) ==> Next(s, e).queue == s.queue
  {
    if e.WorkerGet? || e.WorkerEmpty? || e.WorkerLook? || e.HandlerEnds? || e.SlotBack? { WorkerStep(s, e); }
  }

  lemma WorkerStep(s: State, e: Step)
    requires Shut(s) && Enabled(s, e)
    requires e.WorkerGet? || e.WorkerEmpty? || e.WorkerLook? || e.HandlerEnds? || e.SlotBack?
    ensures Shut(Next(s, e)) && (Doomed(Next(s, e)) <==> Doomed(s))
    ensures Doomed(s) ==> Next(s, e).queue == s.queue
  {
    var t := Next(s, e);
    if s.queue != [] && !Doomed(s) {
      var w :| 0 <= w < |s.workers| && !s.workers[w].SawEmpty? && !s.workers[w].Gone?;
      assert !t.workers[w].SawEmpty? && !t.workers[w].Gone?;
    }
  }

  /** Whether the queued requests are doomed is settled when the server closes. */
  lemma {:induction false} DoomIsSettled(s: State, es: seq<Step>)
    requires Shut(s) && Runs(s, es)
    ensures Doomed(Run(s, es)) <==> Doomed(s)
    ensures Doomed(s) ==> Run(s, es).queue == s.queue
    decreases |es|
  {
    if es != [] {
      ShutStep(s, es[0]);
      DoomIsSettled(Next(s, es[0]), es[1..]);
    }
  }

  /** The steps in which the workers from w on look at the flag. */
  function Looks(s: State, w: nat): seq<Step>
    requires w <= |s.workers|
    decreases |s.workers| - w
  {
    if w == |s.workers| then []
    else (if s.workers[w].SawEmpty? then [WorkerLook(w)] else []) + Looks(s, w + 1)
  }

  lemma {:induction false} LooksOnlyAhead(s: State, t: State, w: nat)
    requires w <= |s.workers| == |t.workers| && s.workers[w..] == t.workers[w..]
    ensures Looks(s, w) == Looks(t, w)
    decreases |s.workers| - w
  {
    if w < |s.workers| {
      assert s.workers[w] == s.workers[w..][0] && t.workers[w] == t.workers[w..][0];
      assert s.workers[w + 1..] == s.workers[w..][1..] && t.workers[w + 1..] == t.workers[w..][1..];
      LooksOnlyAhead(s, t, w + 1);
    }
  }

  lemma {:induction false} AllLeave(s: State, w: nat)
    requires Shut(s) && Doomed(s) && s.active > 0 && w <= |s.workers|
    requires forall v :: 0 <= v < w ==> s.workers[v].Gone?
    ensures Runs(s, Looks(s, w)) && Stranded(Run(s, Looks(s, w)))
    decreases |s.workers| - w
  {
    if w == |s.workers| {
    } else if s.workers[w].SawEmpty? {
      var t := Next(s, WorkerLook(w));
      AllLeave(t, w + 1);
      assert s.workers[w + 1..] == t.workers[w + 1..];
      LooksOnlyAhead(s, t, w + 1);
      Cons(s, WorkerLook(w), Looks(s, w + 1));
    } else {
      AllLeave(s, w + 1);
      assert [] + Looks(s, w + 1) == Looks(s, w + 1);
    }
  }

  ghost predicate Strands(s: State, later: seq<Step>) { Runs(s, later) && Stranded(Run(s, later)) }

  /** Exactly when an admitted request can be left behind, over all runs: if and only if it is doomed
      once the server is closed.  Then nothing else can happen to it. */
  lemma StrandsIff(maxWorkers: nat, es: seq<Step>)
    requires Runs(Init(maxWorkers), es) && Run(Init(maxWorkers), es).closing
    ensures var s := Run(Init(maxWorkers), es);
            && (Doomed(s) <==> exists later :: Strands(s, later))
            && (Doomed(s) ==> forall later :: Runs(s, later) ==> Run(s, later).queue == s.queue)
  {
    var s := Run(Init(maxWorkers), es);
    InitInv(maxWorkers);
    RunInv(Init(maxWorkers), es);
    forall later | Runs(s, later)
      ensures !Doomed(s) ==> !Strands(s, later)
      ensures Doomed(s) ==> Run(s, later).queue == s.queue
    {
      DoomIsSettled(s, later);
    }
    if Doomed(s) {
      AllLeave(s, 0);
      assert Strands(s, Looks(s, 0));
    }
  }

  /** No drain called after server_close can succeed over doomed requests. */
  lemma DoomedNeverDrains(maxWorkers: nat, es: seq<Step>, later: seq<Step>, d: nat)
    requires Runs(Init(maxWorkers), es) && Run(Init(maxWorkers), es).closing && Doomed(Run(Init(maxWorkers), es))
    requires Runs(Run(Init(maxWorkers), es), later)
    ensures var t := Run(Run(Init(maxWorkers), es), later);
            d < |t.drains| ==> t.drains[d] != Returned(true, true)
  {
    var s := Run(Init(maxWorkers), es);
    InitInv(maxWorkers);
    RunInv(Init(maxWorkers), es);
    RunInv(s, later);
    DoomIsSettled(s, later);
    var t := Run(s, later);
    assert d < |t.drains| ==> DrainOk(t, t.drains[d]);
  }

  /** Once every worker has left with a request still queued, that request is never served, and
      no drain called after server_close can succeed. */
  lemma {:induction false} StrandedForever(s: State, es: seq<Step>)
    requires Stranded(s) && Runs(s, es)
    ensures Stranded(Run(s, es)) && Run(s, es).queue == s.queue
    decreases |es|
  {
    if es != [] { StrandedForever(Next(s, es[0]), es[1..]); }
  }

  /** It happens when a worker finds the queue empty, a request is admitted, and the server is
      closed before the worker looks at the flag. */
  lemma StrandingHappens()
    ensures var es := [WorkerEmpty(0), AdmitSlot, AdmitCount, AdmitPut(true), CloseServer, WorkerLook(0)];
            Runs(Init(1), es) && Stranded(Run(Init(1), es))
  {
    var s0, s1 := Init(1), State(0, 0, [], [], [SawEmpty], Outside, false, []);
    assert s0.workers == [Free] && [Free][0 := SawEmpty] == [SawEmpty];
    StrandsNext();
    var rest := [AdmitSlot] + ([AdmitCount] + ([AdmitPut(true)] + ([CloseServer] + [WorkerLook(0)])));
    Cons(s0, WorkerEmpty(0), rest);
    assert [WorkerEmpty(0)] + rest
        == [WorkerEmpty(0), AdmitSlot, AdmitCount, AdmitPut(true), CloseServer, WorkerLook(0)];
  }

  lemma StrandsNext()
    ensures var s := State(0, 0, [], [], [SawEmpty], Outside, false, []);
            var es := [AdmitSlot] + ([AdmitCount] + ([AdmitPut(true)] + ([CloseServer] + [WorkerLook(0)])));
            Runs(s, es) && Stranded(Run(s, es))
  {
    var s1 := State(0, 0, [], [], [SawEmpty], Outside, false, []);
    var s2 := s1.(taken := 1, acceptor := HasSlot);
    var s3 := s2.(active := 1, acceptor := Counted);
    var s4 := s3.(queue := [0], requests := [Queued], acceptor := Outside);
    var s5 := s4.(closing := true);
    assert [SawEmpty][0 := Gone] == [Gone];
    Just(s5, WorkerLook(0));
    Cons(s4, CloseServer, [WorkerLook(0)]);
    Cons(s3, AdmitPut(true), [CloseServer] + [WorkerLook(0)]);
    Cons(s2, AdmitCount, [AdmitPut(true)] + ([CloseServer] + [WorkerLook(0)]));
    Cons(s1, AdmitSlot, [AdmitCount] + ([AdmitPut(true)] + ([CloseServer] + [WorkerLook(0)])));
  }

  // ----- The server's own code: what a thread does that is not interrupted -----

  /** Busy: refused.  Raised: admitted, but the request could not be put into the queue. */
  datatype Admission = Admitted | Busy | Raised

  function Outcome(s: State, ok: bool): Admission {
    if s.closing || s.taken >= s.Max() then Busy else if ok && |s.queue| < s.Max() then Admitted else Raised
  }

  function Processed(s: State, ok: bool): State {
    if Outcome(s, ok).Admitted? then
      s.(taken := s.taken + 1, active := s.active + 1,
         queue := s.queue + [|s.requests|], requests := s.requests + [Queued])
    else s
  }

  function ProcessSteps(s: State, ok: bool): seq<Step> {
    match Outcome(s, ok)
    case Busy => [AdmitSlot]
    case Admitted => [AdmitSlot] + ([AdmitCount] + [AdmitPut(ok)])
    case Raised => [AdmitSlot] + ([AdmitCount] + ([AdmitPut(ok)] + ([AdmitUncount] + [AdmitFree])))
  }

  /** process_request is a run of the machine; a request that is not admitted leaves no trace. */
  lemma ProcessIsRun(s: State, ok: bool)
    requires s.acceptor.Outside?
    ensures Runs(s, ProcessSteps(s, ok)) && Run(s, ProcessSteps(s, ok)) == Processed(s, ok)
  {
    if Outcome(s, ok).Busy? {
      Just(s, AdmitSlot);
    } else {
      var s1 := Next(s, AdmitSlot);
      var s2 := Next(s1, AdmitCount);
      var s3 := Next(s2, AdmitPut(ok));
      if Outcome(s, ok).Admitted? {
        Just(s2, AdmitPut(ok));
        Cons(s1, AdmitCount, [AdmitPut(ok)]);
        Cons(s, AdmitSlot, [AdmitCount] + [AdmitPut(ok)]);
      } else {
        var s4 := Next(s3, AdmitUncount);
        Just(s4, AdmitFree);
        Cons(s3, AdmitUncount, [AdmitFree]);
        Cons(s2, AdmitPut(ok), [AdmitUncount] + [AdmitFree]);
        Cons(s1, AdmitCount, [AdmitPut(ok)] + ([AdmitUncount] + [AdmitFree]));
        Cons(s, AdmitSlot, [AdmitCount] + ([AdmitPut(ok)] + ([AdmitUncount] + [AdmitFree])));
      }
    }
  }

  /** Whenever the server is open and a slot is free there is room in the queue as well: the request is
      admitted, joins the queue at its end, and no answer but this is given. */
  lemma FreeSlotAdmits(s: State)
    requires Inv(s) && s.acceptor.Outside?
    ensures Outcome(s, true) == Admitted <==> !s.closing && s.taken < |s.workers|
    ensures !s.closing && s.taken < |s.workers| ==>
              var es := [AdmitSlot, AdmitCount, AdmitPut(true)];
              && Runs(s, es)
              && Run(s, es).queue == s.queue + [|s.requests|] && Run(s, es).requests == s.requests + [Queued]
  {
    ProcessIsRun(s, true);
    assert [AdmitSlot, AdmitCount, AdmitPut(true)] == [AdmitSlot] + ([AdmitCount] + [AdmitPut(true)]);
  }

  function Turned(s: State, w: nat): State
    requires Is(s, w, Free) && (s.queue != [] ==> s.queue[0] < |s.requests|)
  {
    if s.queue == [] then s.(workers := s.workers[w := if s.closing then Gone else Free])
    else s.(queue := s.queue[1..], requests := s.requests[s.queue[0] := Finished],
            active := s.active - 1, taken := s.taken - 1)
  }

  function TurnSteps(s: State, w: nat): seq<Step> {
    if s.queue == [] then [WorkerEmpty(w)] + [WorkerLook(w)]
    else [WorkerGet(w)] + ([HandlerEnds(w)] + [SlotBack(w)])
  }

  /** A turn of a worker's loop is a run of the machine. */
  lemma TurnIsRun(s: State, w: nat)
    requires Is(s, w, Free) && (s.queue != [] ==> s.queue[0] < |s.requests|)
    ensures Runs(s, TurnSteps(s, w)) && Run(s, TurnSteps(s, w)) == Turned(s, w)
  {
    if s.queue == [] {
      var s1 := Next(s, WorkerEmpty(w));
      UpdateTwice(s.workers, w, SawEmpty, if s.closing then Gone else Free);
      Just(s1, WorkerLook(w));
      Cons(s, WorkerEmpty(w), [WorkerLook(w)]);
    } else {
      ServeIsRun(s, w, s.queue[0]);
    }
  }

  lemma ServeIsRun(s: State, w: nat, id: nat)
    requires Is(s, w, Free) && s.queue != [] && id == s.queue[0] < |s.requests|
    ensures Runs(s, TurnSteps(s, w)) && Run(s, TurnSteps(s, w)) == Turned(s, w)
  {
    var s1 := Next(s, WorkerGet(w));
    var s2 := Next(s1, HandlerEnds(w));
    UpdateTwice(s.workers, w, Serving(id), Releasing);
    UpdateTwice(s.workers, w, Releasing, Free);
    assert s.workers[w := Free] == s.workers;
    UpdateTwice(s.requests, id, Running(w), Finished);
    Just(s2, SlotBack(w));
    Cons(s1, HandlerEnds(w), [SlotBack(w)]);
    Cons(s, WorkerGet(w), [HandlerEnds(w)] + [SlotBack(w)]);
  }

  predicate AllGone(s: State) { forall w :: 0 <= w < |s.workers| ==> s.workers[w].Gone? }

  /** What drain answers when nobody else does anything while it waits. */
  predicate DrainAnswer(s: State) { s.active == 0 && (s.closing ==> AllGone(s)) }

  function Drained(s: State): State {
    s.(drains := s.drains + [Returned(s.closing, DrainAnswer(s))])
  }

  function DrainSteps(s: State): seq<Step> {
    var d := |s.drains|;
    if s.active != 0 then [DrainStarts] + [DrainExpires(d)]
    else [DrainStarts] + ([DrainSees(d)] + ([DrainLooks(d)] +
           if !s.closing then [] else if AllGone(s) then [DrainJoins(d)] else [DrainExpires(d)]))
  }

  /** drain is a run of the machine. */
  lemma DrainIsRun(s: State)
    ensures Runs(s, DrainSteps(s)) && Run(s, DrainSteps(s)) == Drained(s)
  {
    var d := |s.drains|;
    var s1 := Next(s, DrainStarts);
    if s.active != 0 {
      assert s1.drains[d := Returned(s.closing, false)] == s.drains + [Returned(s.closing, false)];
      Just(s1, DrainExpires(d));
      Cons(s, DrainStarts, [DrainExpires(d)]);
    } else {
      var s2 := s.(drains := s.drains + [SawZero(s.closing)]);
      assert s1.drains[d := SawZero(s.closing)] == s2.drains;
      LooksIsRun(s2, s.drains);
      var rest := [DrainLooks(d)] +
        if !s.closing then [] else if AllGone(s) then [DrainJoins(d)] else [DrainExpires(d)];
      Cons(s1, DrainSees(d), rest);
      Cons(s, DrainStarts, [DrainSees(d)] + rest);
    }
  }

  lemma LooksIsRun(s: State, others: seq<Drain>)
    requires s.drains == others + [SawZero(s.closing)]
    ensures var d := |others|;
            var es := [DrainLooks(d)] +
              if !s.closing then [] else if AllGone(s) then [DrainJoins(d)] else [DrainExpires(d)];
            && Runs(s, es)
            && Run(s, es) == s.(drains := others + [Returned(s.closing, s.closing ==> AllGone(s))])
  {
    var d := |others|;
    var s1 := Next(s, DrainLooks(d));
    if s.closing {
      var last := if AllGone(s) then DrainJoins(d) else DrainExpires(d);
      assert s1.drains[d := Returned(true, AllGone(s))] == others + [Returned(true, AllGone(s))];
      Just(s1, last);
      Cons(s, DrainLooks(d), [last]);
    } else {
      assert s.drains[d := Returned(false, true)] == others + [Returned(false, true)];
      Cons(s, DrainLooks(d), []);
    }
  }

  /** So the server's own code keeps the invariant. */
  lemma CodeKeepsInv(s: State, ok: bool, w: nat)
    requires Inv(s) && s.acceptor.Outside?
    ensures Inv(Processed(s, ok))
    ensures Is(s, w, Free) ==> (s.queue != [] ==> s.queue[0] < |s.requests|) && Inv(Turned(s, w))
    ensures Inv(Drained(s))
    ensures Inv(s.(closing := true))
  {
    ProcessIsRun(s, ok);
    RunInv(s, ProcessSteps(s, ok));
    if Is(s, w, Free) {
      if s.queue != [] { assert s.queue[0] in s.queue; }
      TurnIsRun(s, w);
      RunInv(s, TurnSteps(s, w));
    }
    DrainIsRun(s);
    RunInv(s, DrainSteps(s));
    Just(s, CloseServer);
    RunInv(s, [CloseServer]);
  }

  /** `ids` numbers the admitted requests; `workers` are the worker threads. */
  class BoundedServer {
    var taken: int
    var active: int
    var queue: seq<nat>
    var workers: seq<Worker>
    var closing: bool
    var ids: nat
    ghost var requests: seq<Request>
    ghost var drains: seq<Drain>

    ghost function Abs(): State
      reads this
    {
      State(taken, active, queue, requests, workers, Outside, closing, drains)
    }

    ghost predicate Valid()
      reads this
    {
      ids == |requests| && forall i :: 0 <= i < |queue| ==> queue[i] < ids
    }

    constructor (maxWorkers: nat)
      ensures Valid() && Abs() == Init(maxWorkers)
    {
      taken, active, queue := 0, 0, [];
      workers := seq(maxWorkers, _ => Free);
      closing, ids, requests, drains := false, 0, [], [];
    }

    /** `ok`: whether the request can be put into the queue if there is room. */
    method ProcessRequest(ok: bool) returns (r: Admission)
      requires Valid()
      modifies this
      ensures Valid() && Abs() == Processed(old(Abs()), ok) && r == Outcome(old(Abs()), ok)
      ensures r == Busy <==> closing || old(taken) >= |workers|
      ensures r == Admitted <==> !closing && old(taken) < |workers| && ok && |old(queue)| < |workers|
      ensures (taken, active) == if r == Admitted then (old(taken) + 1, old(active) + 1) else (old(taken), old(active))
      ensures queue == if r == Admitted then old(queue) + [old(ids)] else old(queue)
    {
      if closing || taken >= |workers| { return Busy; }
      taken := taken + 1;
      active := active + 1;
      if ok && |queue| < |workers| {
        queue := queue + [ids];
        ids := ids + 1;
        requests := requests + [Queued];
        r := Admitted;
      } else {
        active := active - 1;
        taken := taken - 1;
        r := Raised;
      }
    }

    /** One turn of the loop of worker `w`, which leaves if it finds nothing and the server closes. */
    method WorkerTurn(w: nat)
      requires Valid() && w < |workers| && workers[w].Free?
      modifies this
      ensures old(queue) != [] ==> old(queue)[0] < |old(requests)|
      ensures Valid() && Abs() == Turned(old(Abs()), w)
      ensures old(queue) == [] ==>
        queue == [] && workers == if closing then old(workers)[w := Gone] else old(workers)
      ensures old(queue) != [] ==>
        && queue == old(queue)[1..] && workers == old(workers)
        && requests == old(requests)[old(queue)[0] := Finished]
        && (taken, active) == (old(taken) - 1, old(active) - 1)
    {
      if queue == [] {
        workers := workers[w := if closing then Gone else Free];
      } else {
        var id := queue[0];
        queue := queue[1..];
        ProcessRequestThread();
        requests := requests[id := Finished];
      }
    }

    method ProcessRequestThread()
      modifies this`active, this`taken
      ensures active == old(active) - 1 && taken == old(taken) - 1
    {
      active := active - 1;
      taken := taken - 1;
    }

    method Drain() returns (r: bool)
      requires Valid()
      modifies this
      ensures Valid() && Abs() == Drained(old(Abs())) && r == DrainAnswer(old(Abs()))
      ensures r <==> active == 0 && (closing ==> forall i :: 0 <= i < |workers| ==> workers[i] == Gone)
    {
      r := active == 0;
      if r && closing {
        for w := 0 to |workers|
          invariant r <==> forall i :: 0 <= i < w ==> workers[i].Gone?
        {
          if !workers[w].Gone? { r := false; }
        }
      }
      drains := drains + [Returned(closing, r)];
    }

    method ServerClose()
      requires Valid()
      modifies this
      ensures Valid() && Abs() == old(Abs()).(closing := true)
    {
      closing := true;
    }
  }
}
