/** The audit recorder: callers accept events, a bounded queue hands them to one writer, a
    caller that finds the queue full writes its event itself, and close drains the lot.  A
    transition is one critical section, or one append to the audit file, of one thread. */
module AuditRecorder {
  import opened Counting
  import opened Sequences

  /** How far an accepted event has come.
      Putting: accepted, not yet offered to the queue.  Queued, Writing: with the queue, with
      the writer.  FallingBack: the queue was full.  Losing: the caller's one write failed.
      Finishing: written or lost, not yet finished.  Done: finished. */
  datatype Phase =
    | Putting | Queued | Writing | FallingBack | Losing
    | Finishing(saved: bool) | Done(saved: bool)

  datatype Writer = Idle | Busy(id: nat) | Stopped

  /** A call of close.  Waiting for the pending events; Drained when it saw none; Signalled when
      it has told the writer to stop; Checked when it has read the loss counter. */
  datatype Closer = Waiting | Drained | Signalled | Checked(clean: bool) | Returned(result: bool)

  datatype State = State(
    capacity: nat,
    accepting: bool,
    stop: bool,
    pending: int,
    unpersisted: int,
    queue: seq<nat>,
    writer: Writer,
    file: seq<nat>,
    events: seq<Phase>,
    closers: seq<Closer>)

  function Init(capacity: nat): State {
    State(capacity, true, false, 0, 0, [], Idle, [], [], [])
  }

  datatype Step =
    | Accept
    | Put(id: nat)
    | FallbackWrite(id: nat, ok: bool)
    | FallbackLose(id: nat)
    | FallbackFinish(id: nat)
    | WriterTake
    | WriterTry(ok: bool)
    | WriterFinish
    | WriterExit
    | CloseStart
    | CloseExpires(c: nat)
    | CloseSees(c: nat)
    | CloseSignals(c: nat)
    | CloseChecks(c: nat)
    | CloseReturns(c: nat)

  predicate At(s: State, id: nat, p: Phase) { id < |s.events| && s.events[id] == p }

  predicate Closing(s: State, c: nat, p: Closer) { c < |s.closers| && s.closers[c] == p }

  predicate Enabled(s: State, e: Step) {
    match e
    case Accept => s.accepting
    case Put(id) => At(s, id, Putting)
    case FallbackWrite(id, _) => At(s, id, FallingBack)
    case FallbackLose(id) => At(s, id, Losing)
    case FallbackFinish(id) => id < |s.events| && s.events[id].Finishing? && s.writer != Busy(id)
    case WriterTake => s.writer.Idle? && s.queue != []
    case WriterTry(_) => s.writer.Busy? && At(s, s.writer.id, Writing)
    case WriterFinish => s.writer.Busy? && s.writer.id < |s.events| && s.events[s.writer.id].Finishing?
    case WriterExit => s.writer.Idle? && s.stop && s.pending == 0
    case CloseStart => true
    case CloseExpires(c) => Closing(s, c, Waiting) && s.pending != 0
    case CloseSees(c) => Closing(s, c, Waiting) && s.pending == 0
    case CloseSignals(c) => Closing(s, c, Drained)
    case CloseChecks(c) => Closing(s, c, Signalled)
    case CloseReturns(c) => c < |s.closers| && s.closers[c].Checked?
  }

  function Move(s: State, id: nat, p: Phase): State
    requires id < |s.events|
  {
    s.(events := s.events[id := p])
  }

  function Advance(s: State, c: nat, p: Closer): State
    requires c < |s.closers|
  {
    s.(closers := s.closers[c := p])
  }

  function Next(s: State, e: Step): State
    requires Enabled(s, e)
  {
    match e
    case Accept => s.(pending := s.pending + 1, events := s.events + [Putting])
    case Put(id) =>
      if |s.queue| < s.capacity then Move(s, id, Queued).(queue := s.queue + [id]) else Move(s, id, FallingBack)
    case FallbackWrite(id, ok) =>
      if ok then Move(s, id, Finishing(true)).(file := s.file + [id]) else Move(s, id, Losing)
    case FallbackLose(id) => Move(s, id, Finishing(false)).(unpersisted := s.unpersisted + 1)
    case FallbackFinish(id) => Move(s, id, Done(s.events[id].saved)).(pending := s.pending - 1)
    case WriterTake =>
      if s.queue[0] < |s.events|
        then Move(s, s.queue[0], Writing).(queue := s.queue[1..], writer := Busy(s.queue[0])) else s
    case WriterTry(ok) => if ok then Move(s, s.writer.id, Finishing(true)).(file := s.file + [s.writer.id]) else s
    case WriterFinish =>
      Move(s, s.writer.id, Done(s.events[s.writer.id].saved)).(pending := s.pending - 1, writer := Idle)
    case WriterExit => s.(writer := Stopped)
    case CloseStart => s.(accepting := false, closers := s.closers + [Waiting])
    case CloseExpires(c) => Advance(s, c, Returned(false))
    case CloseSees(c) => Advance(s, c, Drained)
    case CloseSignals(c) => Advance(s, c, Signalled).(stop := true)
    case CloseChecks(c) => Advance(s, c, Checked(s.unpersisted == 0))
    case CloseReturns(c) => Advance(s, c, Returned(s.writer.Stopped? && s.closers[c].clean))
  }

  ghost predicate Runs(s: State, es: seq<Step>)
    decreases |es|
  {
    es == [] || (Enabled(s, es[0]) && Runs(Next(s, es[0]), es[1..]))
  }

  ghost function Run(s: State, es: seq<Step>): State
    requires Runs(s, es)
    decreases |es|
  {
    if es == [] then s else Run(Next(s, es[0]), es[1..])
  }

  // ----- The invariant -----

  predicate Unfinished(p: Phase) { !p.Done? }
  predicate Lost(p: Phase) { (p.Done? || p.Finishing?) && !p.saved }
  predicate Saved(p: Phase) { (p.Done? || p.Finishing?) && p.saved }

  ghost predicate CountsOk(s: State) {
    && s.pending == Count(s.events, Unfinished)
    && s.unpersisted == Count(s.events, Lost)
  }

  ghost predicate PlacesOk(s: State) {
    && |s.queue| <= s.capacity && Distinct(s.queue) && Distinct(s.file)
    && (forall id: nat :: id in s.queue <==> At(s, id, Queued))
    && (forall id: nat :: id in s.file <==> id < |s.events| && Saved(s.events[id]))
    && (forall id: nat :: At(s, id, Writing) ==> s.writer == Busy(id))
    && (s.writer.Busy? ==> At(s, s.writer.id, Writing) || At(s, s.writer.id, Finishing(true)))
  }

  /** What a call of close may rely on once it has come so far. */
  predicate CloserOk(s: State, p: Closer) {
    && !s.accepting
    && (!p.Waiting? && p != Returned(false) ==> s.pending == 0)
    && (p.Signalled? || p.Checked? || p == Returned(true) ==> s.stop)
    && (p == Checked(true) || p == Returned(true) ==> s.unpersisted == 0)
    && (p == Returned(true) ==> s.writer.Stopped?)
  }

  ghost predicate CloseOk(s: State) {
    && (forall c :: 0 <= c < |s.closers| ==> CloserOk(s, s.closers[c]))
    && (s.stop ==> !s.accepting && s.pending == 0)
    && (s.writer.Stopped? ==> s.stop)
  }

  ghost predicate Inv(s: State) {
    CountsOk(s) && PlacesOk(s) && CloseOk(s)
  }

  lemma MoveCounts(s: State, id: nat, p: Phase)
    requires id < |s.events|
    ensures Count(s.events[id := p], Unfinished)
         == Count(s.events, Unfinished) - (if Unfinished(s.events[id]) then 1 else 0) + (if Unfinished(p) then 1 else 0)
    ensures Count(s.events[id := p], Lost)
         == Count(s.events, Lost) - (if Lost(s.events[id]) then 1 else 0) + (if Lost(p) then 1 else 0)
    ensures Unfinished(s.events[id]) ==> Count(s.events, Unfinished) > 0
  {
    CountUpdate(s.events, id, p, Unfinished);
    CountUpdate(s.events, id, p, Lost);
    CountZero(s.events, Unfinished);
  }

  function Subject(s: State, e: Step): (id: int)
    requires Enabled(s, e)
    ensures -1 <= id < |s.events|
  {
    match e
    case Put(id) => id
    case FallbackWrite(id, _) => id
    case FallbackLose(id) => id
    case FallbackFinish(id) => id
    case WriterTake => if s.queue[0] < |s.events| then s.queue[0] else -1
    case WriterTry(_) => s.writer.id
    case WriterFinish => s.writer.id
    case _ => -1
  }

  lemma NextCounts(s: State, e: Step)
    requires CountsOk(s) && Enabled(s, e) && (e.WriterTake? ==> At(s, s.queue[0], Queued))
    ensures CountsOk(Next(s, e))
  {
    hide Count;
    var id := Subject(s, e);
    if id >= 0 {
      MoveCounts(s, id, Next(s, e).events[id]);
    } else if e.Accept? {
      CountAppend(s.events, Putting, Unfinished);
      CountAppend(s.events, Putting, Lost);
    }
  }

  lemma DistinctGrows(xs: seq<nat>, x: nat)
    requires Distinct(xs) && x !in xs
    ensures Distinct(xs + [x])
  {
  }

  lemma NextPlaces(s: State, e: Step)
    requires PlacesOk(s) && Enabled(s, e)
    ensures PlacesOk(Next(s, e))
  {
    hide Distinct, Count;
    match e
    case Accept => AcceptPlaces(s);
    case Put(id) => PutPlaces(s, id);
    case FallbackWrite(id, ok) => SavePlaces(s, e, id);
    case FallbackLose(id) => SettlePlaces(s, e);
    case FallbackFinish(id) => SettlePlaces(s, e);
    case WriterTake => TakePlaces(s);
    case WriterTry(ok) => SavePlaces(s, e, s.writer.id);
    case WriterFinish => SettlePlaces(s, e);
    case WriterExit =>
    case CloseStart =>
    case CloseExpires(c) =>
    case CloseSees(c) =>
    case CloseSignals(c) =>
    case CloseChecks(c) =>
    case CloseReturns(c) =>
  }

  lemma SavePlaces(s: State, e: Step, id: nat)
    requires PlacesOk(s) && Enabled(s, e)
    requires e == FallbackWrite(id, true) || e == FallbackWrite(id, false) || (e.WriterTry? && id == s.writer.id)
    ensures PlacesOk(Next(s, e))
  {
    assert id !in s.file && id !in s.queue;
    DistinctGrows(s.file, id);
  }

  /** Steps that settle an event's fate, or finish it. */
  lemma SettlePlaces(s: State, e: Step)
    requires PlacesOk(s) && Enabled(s, e) && (e.FallbackLose? || e.FallbackFinish? || e.WriterFinish?)
    ensures PlacesOk(Next(s, e))
  {
    hide Distinct;
  }

  lemma AcceptPlaces(s: State)
    requires PlacesOk(s) && s.accepting
    ensures PlacesOk(Next(s, Accept))
  {
    assert |s.events| !in s.queue && |s.events| !in s.file;
  }

  lemma PutPlaces(s: State, id: nat)
    requires PlacesOk(s) && Enabled(s, Put(id))
    ensures PlacesOk(Next(s, Put(id)))
  {
    assert id !in s.queue;
    if |s.queue| < s.capacity {
      DistinctGrows(s.queue, id);
      hide Distinct;
    }
  }

  lemma TakePlaces(s: State)
    requires PlacesOk(s) && Enabled(s, WriterTake)
    ensures PlacesOk(Next(s, WriterTake))
  {
    assert s.queue[0] in s.queue;
    assert forall x :: x in s.queue[1..] <==> x in s.queue && x != s.queue[0];
  }

  lemma NextCloses(s: State, e: Step)
    requires CountsOk(s) && CloseOk(s) && Enabled(s, e) && (e.WriterTake? ==> At(s, s.queue[0], Queued))
    ensures CloseOk(Next(s, e))
  {
    var id := Subject(s, e);
    if id >= 0 {
      SubjectPending(s, id);
    }
  }

  lemma SubjectPending(s: State, id: nat)
    requires CountsOk(s) && id < |s.events| && Unfinished(s.events[id])
    ensures s.pending > 0
  {
    CountZero(s.events, Unfinished);
  }

  lemma NextInv(s: State, e: Step)
    requires Inv(s) && Enabled(s, e)
    ensures Inv(Next(s, e))
  {
    hide CountsOk, CloseOk;
    if e.WriterTake? { assert s.queue[0] in s.queue; }
    NextCounts(s, e);
    NextPlaces(s, e);
    NextCloses(s, e);
  }

  lemma {:induction false} RunInv(s: State, es: seq<Step>)
    requires Inv(s) && Runs(s, es)
    ensures Inv(Run(s, es))
    decreases |es|
  {
    hide Inv, Next, Enabled;
    if es != [] {
      NextInv(s, es[0]);
      RunInv(Next(s, es[0]), es[1..]);
    }
  }

  // ----- The main results -----

  /** In every interleaving the pending counter is the number of accepted events that are not
      finished, and the file holds each saved event once and nothing else. */
  lemma PendingIsExact(capacity: nat, es: seq<Step>, id: nat)
    requires Runs(Init(capacity), es)
    ensures var s := Run(Init(capacity), es);
            && s.pending == Count(s.events, Unfinished)
            && s.unpersisted == Count(s.events, Lost)
            && |s.queue| <= capacity
            && Distinct(s.file)
            && (id in s.file <==> id < |s.events| && Saved(s.events[id]))
  {
    RunInv(Init(capacity), es);
    CapacityStays(Init(capacity), es);
  }

  lemma {:induction false} CapacityStays(s: State, es: seq<Step>)
    requires Runs(s, es)
    ensures Run(s, es).capacity == s.capacity
    decreases |es|
  {
    if es != [] { CapacityStays(Next(s, es[0]), es[1..]); }
  }

  lemma {:induction false} NothingAfterClose(s: State, es: seq<Step>)
    requires !s.accepting && Runs(s, es)
    ensures !Run(s, es).accepting && |Run(s, es).events| == |s.events|
    decreases |es|
  {
    if es != [] { NothingAfterClose(Next(s, es[0]), es[1..]); }
  }

  /** close returning True means that every accepted event was written, exactly once, and that
      no event is accepted in whatever happens later. */
  lemma CleanCloseMeansAllWritten(capacity: nat, es: seq<Step>, c: nat, later: seq<Step>, id: nat)
    requires Runs(Init(capacity), es)
    requires Closing(Run(Init(capacity), es), c, Returned(true))
    requires Runs(Run(Init(capacity), es), later)
    ensures var s := Run(Init(capacity), es);
            && (id < |s.events| ==> s.events[id] == Done(true) && id in s.file)
            && Distinct(s.file)
            && s.queue == [] && s.writer.Stopped?
            && |Run(s, later).events| == |s.events|
  {
    RunInv(Init(capacity), es);
    var s := Run(Init(capacity), es);
    assert s.queue != [] ==> s.queue[0] in s.queue;
    NothingAfterClose(s, later);
    assert CloserOk(s, s.closers[c]);
    CountZero(s.events, Unfinished);
    CountZero(s.events, Lost);
  }

  // ----- The recorder's own code: what a thread does that is not interrupted -----

  lemma Cons(s: State, e: Step, es: seq<Step>)
    requires Enabled(s, e) && Runs(Next(s, e), es)
    ensures Runs(s, [e] + es) && Run(s, [e] + es) == Run(Next(s, e), es)
  {
    assert ([e] + es)[1..] == es;
  }

  function Recorded(s: State, ok: bool): State {
    if !s.accepting then s
    else if |s.queue| < s.capacity then
      s.(pending := s.pending + 1, queue := s.queue + [|s.events|], events := s.events + [Queued])
    else if ok then s.(file := s.file + [|s.events|], events := s.events + [Done(true)])
    else s.(unpersisted := s.unpersisted + 1, events := s.events + [Done(false)])
  }

  function RecordSteps(s: State, ok: bool): seq<Step> {
    var id := |s.events|;
    if !s.accepting then []
    else if |s.queue| < s.capacity then [Accept] + [Put(id)]
    else [Accept] + ([Put(id)] + FallbackSteps(id, ok))
  }

  function FallbackSteps(id: nat, ok: bool): seq<Step> {
    if ok then [FallbackWrite(id, true)] + [FallbackFinish(id)]
    else [FallbackWrite(id, false)] + ([FallbackLose(id)] + [FallbackFinish(id)])
  }

  /** record is a run of the machine. */
  lemma RecordIsRun(s: State, ok: bool)
    requires PlacesOk(s)
    ensures Runs(s, RecordSteps(s, ok)) && Run(s, RecordSteps(s, ok)) == Recorded(s, ok)
  {
    if s.accepting {
      var id := |s.events|;
      var s1 := s.(pending := s.pending + 1, events := s.events + [Putting]);
      var s2 := Next(s1, Put(id));
      if |s.queue| < s.capacity {
        assert s1.events[id := Queued] == s.events + [Queued];
        Cons(s1, Put(id), []);
        Cons(s, Accept, [Put(id)]);
      } else {
        assert s1.events[id := FallingBack] == s.events + [FallingBack];
        assert s2 == s1.(events := s.events + [FallingBack]);
        FallbackIsRun(s2, id, ok);
        Cons(s1, Put(id), FallbackSteps(id, ok));
        Cons(s, Accept, [Put(id)] + FallbackSteps(id, ok));
      }
    }
  }

  lemma FallbackIsRun(s: State, id: nat, ok: bool)
    requires At(s, id, FallingBack) && s.writer != Busy(id)
    ensures Runs(s, FallbackSteps(id, ok))
    ensures Run(s, FallbackSteps(id, ok)) ==
      var after := s.(pending := s.pending - 1, events := s.events[id := Done(ok)]);
      if ok then after.(file := s.file + [id]) else after.(unpersisted := s.unpersisted + 1)
  {
    var s1 := Next(s, FallbackWrite(id, ok));
    var s2 := if ok then s1 else Next(s1, FallbackLose(id));
    assert s2.events == s.events[id := Finishing(ok)];
    assert s2.events[id := Done(ok)] == s.events[id := Done(ok)];
    Cons(s2, FallbackFinish(id), []);
    if ok {
      Cons(s, FallbackWrite(id, true), [FallbackFinish(id)]);
    } else {
      Cons(s1, FallbackLose(id), [FallbackFinish(id)]);
      Cons(s, FallbackWrite(id, false), [FallbackLose(id)] + [FallbackFinish(id)]);
    }
  }

  function Written(s: State): State
    requires s.queue != [] && s.queue[0] < |s.events|
  {
    var id := s.queue[0];
    s.(queue := s.queue[1..], file := s.file + [id], pending := s.pending - 1, events := s.events[id := Done(true)])
  }

  function TrySteps(failures: nat): seq<Step> {
    if failures == 0 then [WriterTry(true)] + [WriterFinish] else [WriterTry(false)] + TrySteps(failures - 1)
  }

  lemma {:induction false} TriesAreRun(s: State, failures: nat)
    requires s.writer.Busy? && At(s, s.writer.id, Writing)
    ensures Runs(s, TrySteps(failures))
    ensures var id := s.writer.id;
            Run(s, TrySteps(failures)) ==
              s.(file := s.file + [id], pending := s.pending - 1, writer := Idle, events := s.events[id := Done(true)])
  {
    if failures > 0 {
      TriesAreRun(s, failures - 1);
      Cons(s, WriterTry(false), TrySteps(failures - 1));
    } else {
      var s1 := Next(s, WriterTry(true));
      assert s1.events[s.writer.id := Done(true)] == s.events[s.writer.id := Done(true)];
      Cons(s1, WriterFinish, []);
      Cons(s, WriterTry(true), [WriterFinish]);
    }
  }

  /** A turn of the writer that finds an event is a run of the machine, however often it fails. */
  lemma WriteIsRun(s: State, failures: nat)
    requires PlacesOk(s) && s.writer.Idle? && s.queue != []
    ensures s.queue[0] < |s.events|
    ensures var steps := [WriterTake] + TrySteps(failures); Runs(s, steps) && Run(s, steps) == Written(s)
  {
    assert s.queue[0] in s.queue;
    var s1 := Next(s, WriterTake);
    TriesAreRun(s1, failures);
    assert s1.events[s.queue[0] := Done(true)] == s.events[s.queue[0] := Done(true)];
    Cons(s, WriterTake, TrySteps(failures));
  }

  function ClosedBy(s: State, joined: bool): State {
    var writer := if s.pending == 0 && joined && s.writer.Idle? then Stopped else s.writer;
    var clean := s.pending == 0 && writer.Stopped? && s.unpersisted == 0;
    s.(accepting := false, stop := s.stop || s.pending == 0, writer := writer, closers := s.closers + [Returned(clean)])
  }

  function CloseSteps(s: State, joined: bool): seq<Step> {
    var c := |s.closers|;
    if s.pending != 0 then [CloseStart] + [CloseExpires(c)]
    else [CloseStart] + ([CloseSees(c)] + ([CloseSignals(c)] + LeaveSteps(c, joined && s.writer.Idle?)))
  }

  function LeaveSteps(c: nat, leaves: bool): seq<Step> {
    (if leaves then [WriterExit] else []) + ([CloseChecks(c)] + [CloseReturns(c)])
  }

  lemma LeaveIsRun(s: State, c: nat, leaves: bool)
    requires Closing(s, c, Signalled) && (leaves ==> Enabled(s, WriterExit))
    ensures Runs(s, LeaveSteps(c, leaves))
    ensures var writer := if leaves then Stopped else s.writer;
            Run(s, LeaveSteps(c, leaves)) ==
              s.(writer := writer, closers := s.closers[c := Returned(writer.Stopped? && s.unpersisted == 0)])
  {
    var s1 := if leaves then Next(s, WriterExit) else s;
    var s2 := Next(s1, CloseChecks(c));
    assert forall r :: s2.closers[c := Returned(r)] == s.closers[c := Returned(r)];
    Cons(s2, CloseReturns(c), []);
    Cons(s1, CloseChecks(c), [CloseReturns(c)]);
    if leaves {
      Cons(s, WriterExit, [CloseChecks(c)] + [CloseReturns(c)]);
    } else {
      assert [] + ([CloseChecks(c)] + [CloseReturns(c)]) == [CloseChecks(c)] + [CloseReturns(c)];
    }
  }

  /** close is a run of the machine. */
  lemma CloseIsRun(s: State, joined: bool)
    ensures Runs(s, CloseSteps(s, joined)) && Run(s, CloseSteps(s, joined)) == ClosedBy(s, joined)
  {
    var c := |s.closers|;
    var s1 := Next(s, CloseStart);
    if s.pending != 0 {
      assert s1.closers[c := Returned(false)] == s.closers + [Returned(false)];
      Cons(s1, CloseExpires(c), []);
      Cons(s, CloseStart, [CloseExpires(c)]);
    } else {
      var steps := [CloseSignals(c)] + LeaveSteps(c, joined && s.writer.Idle?);
      var s2 := s1.(closers := s.closers + [Drained]);
      assert s1.closers[c := Drained] == s2.closers;
      SignalIsRun(s2, s.closers, joined && s.writer.Idle?);
      Cons(s1, CloseSees(c), steps);
      Cons(s, CloseStart, [CloseSees(c)] + steps);
    }
  }

  lemma SignalIsRun(s: State, others: seq<Closer>, leaves: bool)
    requires s.closers == others + [Drained] && s.pending == 0 && (leaves ==> s.writer.Idle?)
    ensures var c := |others|;
            var steps := [CloseSignals(c)] + LeaveSteps(c, leaves);
            var writer := if leaves then Stopped else s.writer;
            && Runs(s, steps)
            && Run(s, steps) == s.(stop := true, writer := writer,
                                   closers := others + [Returned(writer.Stopped? && s.unpersisted == 0)])
  {
    var c := |others|;
    var s1 := s.(closers := others + [Signalled], stop := true);
    assert s.closers[c := Signalled] == s1.closers;
    assert forall r :: s1.closers[c := Returned(r)] == others + [Returned(r)];
    LeaveIsRun(s1, c, leaves);
    Cons(s, CloseSignals(c), LeaveSteps(c, leaves));
  }

  /** So the recorder's own code keeps the invariant. */
  lemma CodeKeepsInv(s: State, ok: bool, failures: nat, joined: bool)
    requires Inv(s)
    ensures Inv(Recorded(s, ok))
    ensures s.writer.Idle? && s.queue != [] ==> s.queue[0] < |s.events| && Inv(Written(s))
    ensures Inv(ClosedBy(s, joined))
  {
    RecordIsRun(s, ok);
    RunInv(s, RecordSteps(s, ok));
    if s.writer.Idle? && s.queue != [] {
      WriteIsRun(s, failures);
      RunInv(s, [WriterTake] + TrySteps(failures));
    }
    CloseIsRun(s, joined);
    RunInv(s, CloseSteps(s, joined));
  }

  /** `ids` numbers the accepted events; `writer` is the writer thread.  The events' phases and the
      calls of close say where callers are in the code, and so are ghost. */
  class Recorder {
    const capacity: nat
    var accepting: bool
    var stop: bool
    var pending: int
    var ids: nat
    var queue: seq<nat>
    var file: seq<nat>
    var enqueued: nat
    var fallback: nat
    var written: nat
    var unpersisted: nat
    var writer: Writer
    ghost var events: seq<Phase>
    ghost var closers: seq<Closer>

    ghost function Abs(): State
      reads this
    {
      State(capacity, accepting, stop, pending, unpersisted, queue, writer, file, events, closers)
    }

    ghost predicate Valid()
      reads this
    {
      && ids == |events| == enqueued + fallback && written == |file|
      && forall i :: 0 <= i < |queue| ==> queue[i] < ids
    }

    constructor (capacity: nat)
      ensures Valid() && Abs() == Init(capacity)
    {
      this.capacity := capacity;
      accepting, stop, pending, ids := true, false, 0, 0;
      queue, file := [], [];
      enqueued, fallback, written, unpersisted := 0, 0, 0, 0;
      writer, events, closers := Idle, [], [];
    }

    /** `ok`: whether an append to the file would succeed.  An accepted event is queued if there
        is room, and otherwise written by the caller, once. */
    method Record(ok: bool) returns (r: bool)
      requires Valid()
      modifies this
      ensures Valid() && Abs() == Recorded(old(Abs()), ok)
      ensures r <==> old(accepting) && (|old(queue)| < capacity || ok)
      ensures ids == if old(accepting) then old(ids) + 1 else old(ids)
      ensures if old(accepting) && |old(queue)| < capacity then
                queue == old(queue) + [old(ids)] && pending == old(pending) + 1 && file == old(file)
              else
                && queue == old(queue) && pending == old(pending)
                && file == if r then old(file) + [old(ids)] else old(file)
      ensures unpersisted == if old(accepting) && !r then old(unpersisted) + 1 else old(unpersisted)
    {
      if !accepting { return false; }
      var id := ids;
      ids := ids + 1;
      pending := pending + 1;
      if |queue| < capacity {
        events := events + [Queued];
        queue := queue + [id];
        enqueued := enqueued + 1;
        r := true;
      } else {
        fallback := fallback + 1;
        r := WriteFallbackOnce(id, ok);
        pending := pending - 1;
        events := events + [Done(ok)];
      }
    }

    method WriteFallbackOnce(id: nat, ok: bool) returns (r: bool)
      modifies this`file, this`written, this`unpersisted
      ensures r == ok
      ensures file == if ok then old(file) + [id] else old(file)
      ensures written == if ok then old(written) + 1 else old(written)
      ensures unpersisted == if ok then old(unpersisted) else old(unpersisted) + 1
    {
      r := WriteOnce(id, ok);
      if !r {
        unpersisted := unpersisted + 1;
      }
    }

    method WriteOnce(id: nat, ok: bool) returns (r: bool)
      modifies this`file, this`written
      ensures r == ok
      ensures file == if ok then old(file) + [id] else old(file)
      ensures written == if ok then old(written) + 1 else old(written)
    {
      if ok {
        file := file + [id];
        written := written + 1;
      }
      r := ok;
    }

    /** The writer tries until the event is in the file, here after `failures` failed attempts. */
    method WriteWithRetry(id: nat, failures: nat)
      modifies this`file, this`written
      ensures file == old(file) + [id] && written == old(written) + 1
    {
      var attempts := 0;
      var saved := false;
      while !saved
        invariant attempts <= failures + 1 && (saved <==> attempts == failures + 1)
        invariant file == if saved then old(file) + [id] else old(file)
        invariant written == if saved then old(written) + 1 else old(written)
        decreases failures + 1 - attempts
      {
        saved := WriteOnce(id, attempts == failures);
        attempts := attempts + 1;
      }
    }

    /** One turn of the writer that finds an event. */
    method WriteNext(failures: nat)
      requires Valid() && writer.Idle? && queue != []
      modifies this
      ensures old(queue)[0] < |old(events)|
      ensures Valid() && Abs() == Written(old(Abs()))
      ensures queue == old(queue)[1..] && file == old(file) + [old(queue)[0]] && pending == old(pending) - 1
    {
      var id := queue[0];
      queue := queue[1..];
      WriteWithRetry(id, failures);
      pending := pending - 1;
      events := events[id := Done(true)];
    }

    /** `joined`: whether an idle writer leaves while close waits for it. */
    method Close(joined: bool) returns (r: bool)
      requires Valid()
      modifies this
      ensures Valid() && Abs() == ClosedBy(old(Abs()), joined)
      ensures Closing(Abs(), |old(closers)|, Returned(r))
      ensures !accepting && (pending == 0 ==> stop)
      ensures r <==> pending == 0 && unpersisted == 0 && writer == Stopped
      ensures writer == if pending == 0 && joined && old(writer) == Idle then Stopped else old(writer)
    {
      accepting := false;
      if pending != 0 {
        closers := closers + [Returned(false)];
        return false;
      }
      stop := true;
      if joined && writer.Idle? {
        writer := Stopped;
      }
      r := unpersisted == 0 && writer.Stopped?;
      closers := closers + [Returned(r)];
    }
  }
}
