/** The jobs of one plan while they run: their worker threads, and callers that start the plan and
    cancel it at any time.  A transition is one step of the worker of the running job, one call, or
    the last act of an older worker.

    A call of cancel holds the lock but the worker does not: the call takes effect when it raises
    the flag, or just before the job settles if that comes first. */
module DeployRuns {
  import opened Deploy

  /** Where the worker of the newest job is.
      Fresh: it has not taken its flag from the table.  Connect: it has, and has no transport yet.
      Top: before stage i (`cancelled`: the stage before it raised and found the flag up).
      In: stage i is running.  Handler: stage i has raised, and the flag is still to be looked at.
      Out: behind the loop, the job not settled yet.  Over: the job is settled. */
  datatype Place =
    Fresh | Connect
    | Top(i: nat, cancelled: bool) | In(i: nat) | Handler(i: nat) | Out(failed: bool, cancelled: bool)
    | Over

  /** What a job meets: whether its transport can be set up, and what each stage comes to.  An upload
      that the flag interrupts is one that raises. */
  datatype Luck = Luck(transport: bool, results: seq<Result>)

  /** `held`: the table has the flag of the newest job.  `since`: the first look that finds the flag
      up.  `leaving`: workers whose job is settled and who have yet to remove the flag they find.
      `ends`: how the jobs of the plan have ended so far.  `answers`: what the calls of cancel were
      told. */
  datatype World = World(
    plan: Plan,
    luck: Luck,
    place: Place,
    held: bool,
    flag: bool,
    since: nat,
    state: JobState,
    stages: seq<StageState>,
    leaving: nat,
    ends: seq<JobState>,
    answers: seq<bool>)

  function Never(p: Plan): nat { 2 * StageCount(p) + 2 }

  /** A job has just been started. */
  function Started(p: Plan, luck: Luck, leaving: nat, ends: seq<JobState>, answers: seq<bool>): World {
    World(p, luck, Fresh, true, false, Never(p), Active, seq(StageCount(p), _ => Pending), leaving, ends, answers)
  }

  function Begin(p: Plan, luck: Luck): World { Started(p, luck, 0, [], []) }

  datatype Event = Work | CallCancel | CallStart(luck: Luck) | Leave

  predicate Placed(w: World) {
    && |w.luck.results| == |w.stages| == StageCount(w.plan)
    && match w.place
       case Top(i, _) => i <= StageCount(w.plan)
       case In(i) => i < StageCount(w.plan)
       case Handler(i) => i < StageCount(w.plan)
       case _ => true
  }

  predicate Enabled(w: World, e: Event) {
    && Placed(w)
    && match e
       case Work => !w.place.Over?
       case CallCancel => true
       case CallStart(luck) => |luck.results| == StageCount(w.plan)
       case Leave => w.leaving > 0
  }

  /** The look the worker takes next, if it takes one. */
  function NextLook(w: World): nat {
    match w.place
    case Fresh => 0
    case Connect => 0
    case Top(i, _) => if i < StageCount(w.plan) then 2 * i else Never(w.plan)
    case In(i) => 2 * i + 1
    case Handler(i) => 2 * i + 1
    case _ => Never(w.plan)
  }

  /** Every stage that has not run gets the given state. */
  function Settled(stages: seq<StageState>, st: StageState): (r: seq<StageState>)
    ensures |r| == |stages|
    ensures forall i :: 0 <= i < |r| ==> r[i] == if stages[i].Pending? then st else stages[i]
  {
    seq(|stages|, i requires 0 <= i < |stages| => if stages[i].Pending? then st else stages[i])
  }

  /** A worker that finds no flag in the table makes one that nobody else can raise; one without a
      transport ends its job and leaves the table alone. */
  function Worked(w: World): World
    requires Enabled(w, Work)
  {
    var n := StageCount(w.plan);
    match w.place
    case Fresh =>
      w.(place := Connect, flag := w.held && w.flag, since := if w.held then w.since else Never(w.plan))
    case Connect =>
      if w.luck.transport then w.(place := Top(0, false))
      else w.(place := Over, state := Errored, stages := Settled(w.stages, Failed), ends := w.ends + [Errored])
    case Top(i, c) =>
      if i == n then w.(place := Out(false, c))
      else if w.flag then w.(place := Out(false, true))
      else w.(place := In(i), stages := w.stages[i := Running])
    case In(i) =>
      var ended := Outcome(StageAt(w.plan, i).kind, w.luck.results[i]);
      if ended != Failed then w.(place := Top(i + 1, false), stages := w.stages[i := ended])
      else if w.luck.results[i].NonZero? then w.(place := Out(true, false), stages := w.stages[i := Failed])
      else w.(place := Handler(i))
    case Handler(i) =>
      w.(place := if w.flag then Top(i + 1, true) else Out(true, false), stages := w.stages[i := Failed])
    case Out(f, c) =>
      var last := if c then Cancelled else if f then Errored else Succeeded;
      w.(place := Over, state := last, ends := w.ends + [last], leaving := w.leaving + 1,
         stages := if c then Settled(w.stages, Skipped) else if f then Settled(w.stages, Failed) else w.stages)
  }

  function Step(w: World, e: Event): World
    requires Enabled(w, e)
  {
    match e
    case Work => Worked(w)
    case CallCancel =>
      var (answer, flag) := CancelAnswer(w.state, w.flag, w.held);
      w.(answers := w.answers + [answer], flag := flag, since := if flag && !w.flag then NextLook(w) else w.since)
    case CallStart(luck) =>
      if w.state.Active? then w else Started(w.plan, luck, w.leaving, w.ends, w.answers)
    case Leave => w.(held := false, leaving := w.leaving - 1)
  }

  ghost predicate Runs(w: World, es: seq<Event>)
    decreases |es|
  {
    es == [] || (Enabled(w, es[0]) && Runs(Step(w, es[0]), es[1..]))
  }

  ghost function Run(w: World, es: seq<Event>): World
    requires Runs(w, es)
    decreases |es|
  {
    if es == [] then w else Run(Step(w, es[0]), es[1..])
  }

  // ----- Every run ends as the closed form says -----

  lemma StopIs(p: Plan, results: seq<Result>, cancelAt: nat, k: nat)
    requires |results| == StageCount(p) >= k && FineUpTo(p, results, cancelAt, k)
    requires k == StageCount(p) || FlagUp(cancelAt, 2 * k) || Outcome(StageAt(p, k).kind, results[k]) == Failed
    ensures Stop(p, results, cancelAt, 0) == k
  {
    forall i | 0 <= i < k { WellIsNotFailed(p, results, i); }
  }

  /** Stages before k have ended well, stage k is as given, the others have not started. */
  ghost predicate StagesAre(w: World, k: nat, at: StageState)
    requires Placed(w)
  {
    forall j :: 0 <= j < |w.stages| ==>
      w.stages[j] ==
        if j < k then Outcome(StageAt(w.plan, j).kind, w.luck.results[j])
        else if j == k then at else Pending
  }

  predicate FailedAt(w: World, k: nat)
    requires Placed(w) && k < StageCount(w.plan)
  {
    !GoesWell(w.plan, w.luck.results, k)
  }

  /** What is left to settle, once the loop is over. */
  ghost predicate AlmostFinal(w: World, failed: bool, cancelled: bool)
    requires Placed(w)
  {
    && FinalState(w.plan, w.luck.results, w.since) ==
         (if cancelled then Cancelled else if failed then Errored else Succeeded)
    && forall j :: 0 <= j < |w.stages| ==>
         var last := FinalStage(w.plan, w.luck.results, w.since, j);
         !last.Pending? && (w.stages[j] == last
           || (w.stages[j].Pending? && (failed || cancelled) && last == if cancelled then Skipped else Failed))
  }

  ghost predicate Agrees(w: World) {
    && Placed(w)
    && (w.flag || w.since == Never(w.plan))
    && (w.state.Active? <==> !w.place.Over?)
    && (w.luck.transport || w.place.Fresh? || w.place.Connect? || w.place.Over?)
    && match w.place
       case Fresh => StagesAre(w, 0, Pending)
       case Connect => StagesAre(w, 0, Pending)
       case Top(i, false) => FineUpTo(w.plan, w.luck.results, w.since, i) && StagesAre(w, i, Pending)
       case Top(i, true) =>
         && i > 0 && w.flag && FineUpTo(w.plan, w.luck.results, w.since, i - 1) && StagesAre(w, i - 1, Failed)
         && FailedAt(w, i - 1) && !w.luck.results[i - 1].NonZero?
         && !FlagUp(w.since, 2 * (i - 1)) && FlagUp(w.since, 2 * (i - 1) + 1)
       case In(i) =>
         FineUpTo(w.plan, w.luck.results, w.since, i) && !FlagUp(w.since, 2 * i) && StagesAre(w, i, Running)
       case Handler(i) =>
         && FineUpTo(w.plan, w.luck.results, w.since, i) && !FlagUp(w.since, 2 * i) && StagesAre(w, i, Running)
         && FailedAt(w, i) && !w.luck.results[i].NonZero?
       case Out(f, c) => AlmostFinal(w, f, c)
       case Over => EndsRight(w)
  }

  /** A settled job is in the states specified for the look at which its flag went up, or its
      transport could not be set up. */
  ghost predicate EndsRight(w: World)
    requires Placed(w)
  {
    && w.ends != [] && w.ends[|w.ends| - 1] == w.state
    && if w.luck.transport
       then w.state == FinalState(w.plan, w.luck.results, w.since)
            && w.stages == FinalStages(w.plan, w.luck.results, w.since)
       else w.state == Errored && forall st :: st in w.stages ==> st == Failed
  }

  /** The flag is up exactly from the recorded look on, as far as the worker's next look goes. */
  ghost predicate FlagKnown(w: World) {
    w.flag ==> w.since <= NextLook(w)
  }

  lemma LeaveLoop(w: World, k: nat, at: StageState, failed: bool, cancelled: bool)
    requires Placed(w) && k <= StageCount(w.plan) && FineUpTo(w.plan, w.luck.results, w.since, k) && StagesAre(w, k, at)
    requires k == StageCount(w.plan) || FlagUp(w.since, 2 * k) || FailedAt(w, k)
    requires failed || cancelled <==> k < StageCount(w.plan)
    requires k < StageCount(w.plan) ==>
      && cancelled == (FlagUp(w.since, 2 * k) || (FlagUp(w.since, 2 * k + 1) && !w.luck.results[k].NonZero?))
      && at == if FlagUp(w.since, 2 * k) then Pending else Failed
    ensures AlmostFinal(w, failed, cancelled)
  {
    StopIs(w.plan, w.luck.results, w.since, k);
  }

  lemma ConnectAgrees(w: World)
    requires Agrees(w) && FlagKnown(w) && (w.place.Fresh? || w.place.Connect?)
    ensures Agrees(Worked(w)) && FlagKnown(Worked(w))
  {}

  lemma TopAgrees(w: World)
    requires Agrees(w) && FlagKnown(w) && w.place.Top?
    ensures Agrees(Worked(w)) && FlagKnown(Worked(w))
  {
    var i, n := w.place.i, StageCount(w.plan);
    if w.place.cancelled {
      LeaveLoop(w, i - 1, Failed, false, true);
    } else if i == n {
      LeaveLoop(w, i, Pending, false, false);
    } else if w.flag {
      LeaveLoop(w, i, Pending, false, true);
    }
  }

  lemma InAgrees(w: World)
    requires Agrees(w) && FlagKnown(w) && w.place.In?
    ensures Agrees(Worked(w)) && FlagKnown(Worked(w))
  {
    var i := w.place.i;
    WellIsNotFailed(w.plan, w.luck.results, i);
    hide GoesWell, Outcome, Became, StageAt, Stop, FinalState, FinalStage, AlmostFinal, Settled;
    if FailedAt(w, i) && w.luck.results[i].NonZero? {
      LeaveLoop(Worked(w), i, Failed, true, false);
    }
  }

  lemma HandlerAgrees(w: World)
    requires Agrees(w) && FlagKnown(w) && w.place.Handler?
    ensures Agrees(Worked(w)) && FlagKnown(Worked(w))
  {
    if !w.flag { LeaveLoop(Worked(w), w.place.i, Failed, true, false); }
  }

  lemma OutAgrees(w: World)
    requires Agrees(w) && FlagKnown(w) && w.place.Out?
    ensures Agrees(Worked(w)) && FlagKnown(Worked(w))
  {
    assert Worked(w).stages == FinalStages(w.plan, w.luck.results, w.since);
  }

  lemma CallAgrees(w: World, e: Event)
    requires Agrees(w) && FlagKnown(w) && Enabled(w, e) && !e.Work?
    ensures Agrees(Step(w, e)) && FlagKnown(Step(w, e))
  {}

  lemma StepAgrees(w: World, e: Event)
    requires Agrees(w) && FlagKnown(w) && Enabled(w, e)
    ensures Agrees(Step(w, e)) && FlagKnown(Step(w, e))
  {
    if !e.Work? {
      CallAgrees(w, e);
    } else {
      match w.place
      case Top(_, _) => TopAgrees(w);
      case In(_) => InAgrees(w);
      case Handler(_) => HandlerAgrees(w);
      case Out(_, _) => OutAgrees(w);
      case _ => ConnectAgrees(w);
    }
  }

  lemma {:induction false} RunAgrees(w: World, es: seq<Event>)
    requires Agrees(w) && FlagKnown(w) && Runs(w, es)
    ensures Agrees(Run(w, es)) && FlagKnown(Run(w, es))
    decreases |es|
  {
    if es != [] {
      StepAgrees(w, es[0]);
      RunAgrees(Step(w, es[0]), es[1..]);
    }
  }

  /** However starts, cancels and the last acts of older workers come in between, a job that is
      settled has ended as `Job.Abort` or `Job.Run` does, for a flag that goes up at the look the
      machine recorded. */
  lemma RunsEndAsSpecified(p: Plan, luck: Luck, es: seq<Event>)
    requires |luck.results| == StageCount(p) && Runs(Begin(p, luck), es)
    requires !Run(Begin(p, luck), es).state.Active?
    ensures var w := Run(Begin(p, luck), es);
            && w.plan == p && Placed(w) && EndsRight(w)
            && if w.luck.transport then EndsBy(p, w.luck.results, w.since, w.state, w.stages)
               else w.state == Errored && forall st :: st in w.stages ==> st == Failed
  {
    RunAgrees(Begin(p, luck), es);
    SamePlan(Begin(p, luck), es);
    var w := Run(Begin(p, luck), es);
    EndsAsResults(p, w.luck.results, w.since);
    hide EndsBy, Agrees, FlagKnown;
  }

  lemma {:induction false} SamePlan(w: World, es: seq<Event>)
    requires Runs(w, es)
    ensures Run(w, es).plan == w.plan
    decreases |es|
  {
    if es != [] { SamePlan(Step(w, es[0]), es[1..]); }
  }

  // ----- What a cancel that answered True comes to -----

  /** The worker is about to look at the flag. */
  predicate Looking(w: World) {
    (w.place.Top? && w.place.i < StageCount(w.plan)) || w.place.Handler?
  }

  /** The worker of this job looks at its flag some time in the run. */
  ghost predicate Looks(w: World, es: seq<Event>)
    requires Runs(w, es)
    decreases |es|
  {
    && es != [] && !w.place.Over?
    && ((es[0].Work? && Looking(w)) || Looks(Step(w, es[0]), es[1..]))
  }

  /** Whether the worker looks at the flag once more: not without a transport, nor after the last
      stage, nor after a command that ended by its exit code. */
  predicate WillLook(w: World)
    requires Placed(w)
  {
    match w.place
    case Fresh => w.luck.transport && StageCount(w.plan) > 0
    case Connect => w.luck.transport && StageCount(w.plan) > 0
    case Top(i, _) => i < StageCount(w.plan)
    case In(i) => if FailedAt(w, i) then !w.luck.results[i].NonZero? else i + 1 < StageCount(w.plan)
    case Handler(_) => true
    case _ => false
  }

  /** An earlier call has already been noticed. */
  predicate Noticed(w: World) {
    (w.place.Top? || w.place.Out?) && w.place.cancelled
  }

  /** The worker takes its next step before any older worker leaves. */
  ghost predicate WorkFirst(es: seq<Event>) {
    es != [] && (es[0].Work? || (!es[0].Leave? && WorkFirst(es[1..])))
  }

  /** The flag the worker goes by is up, or will be when it takes it from the table. */
  ghost predicate Reached(w: World, es: seq<Event>) {
    w.flag && (w.place.Fresh? ==> w.held && WorkFirst(es))
  }

  /** The job of w ends in the run. */
  ghost predicate Ends(w: World, es: seq<Event>) {
    Runs(w, es) && |w.ends| < |Run(w, es).ends|
  }

  ghost function End(w: World, es: seq<Event>): JobState
    requires Ends(w, es)
  {
    Run(w, es).ends[|w.ends|]
  }

  lemma {:induction false} EndsStay(w: World, es: seq<Event>)
    requires Runs(w, es)
    ensures w.ends <= Run(w, es).ends
    decreases |es|
  {
    if es != [] { EndsStay(Step(w, es[0]), es[1..]); }
  }

  /** Once no call can raise the flag any more, or it is up, whether it reaches the worker and the
      worker looks decides how the job ends. */
  lemma {:induction false} FlagDecides(w: World, es: seq<Event>)
    requires Placed(w) && w.state.Active? && !w.place.Over? && Ends(w, es)
    requires w.flag || (!w.held && !Noticed(w))
    ensures End(w, es) == Cancelled <==> Noticed(w) || (Reached(w, es) && Looks(w, es))
    ensures Looks(w, es) <==> WillLook(w)
    decreases |es|
  {
    var t := Step(w, es[0]);
    StepDecides(w, es);
    hide Step, Enabled, Placed, WillLook, Looking, Noticed, Reached;
    EndsStay(t, es[1..]);
    if !t.place.Over? { FlagDecides(t, es[1..]); }
  }

  lemma StepDecides(w: World, es: seq<Event>)
    requires Placed(w) && w.state.Active? && !w.place.Over? && es != [] && Enabled(w, es[0])
    requires w.flag || (!w.held && !Noticed(w))
    ensures var t := Step(w, es[0]);
            if t.place.Over? then
              t.ends == w.ends + [if Noticed(w) then Cancelled else t.state] && (t.state.Cancelled? <==> Noticed(w))
              && !WillLook(w) && !Looking(w)
            else
              && t.ends == w.ends && Placed(t) && t.state.Active? && (t.flag || (!t.held && !Noticed(t)))
              && (WillLook(w) <==> (es[0].Work? && Looking(w)) || WillLook(t))
              && (Noticed(t) || (Reached(t, es[1..]) && WillLook(t)) <==>
                  Noticed(w) || (Reached(w, es) && WillLook(w)))
  {
    hide StageAt, StageCount, Settled;
  }

  /** Every call of cancel on an active job answers True.  The job ends cancelled exactly when an
      earlier call has been noticed, or the flag reaches the worker and the worker looks once more.
      The flag reaches a worker that has taken it if the table still has it, or an earlier call
      raised it; a worker that has not, if the table has it until then.  Whether the worker looks
      once more is settled by where it is, and by what it meets there, when the call is made. */
  lemma CancelDecides(p: Plan, luck: Luck, before: seq<Event>, after: seq<Event>)
    requires |luck.results| == StageCount(p) && Runs(Begin(p, luck), before)
    requires var w := Run(Begin(p, luck), before);
             w.state.Active? && Enabled(w, CallCancel) && Ends(Step(w, CallCancel), after)
    ensures var w := Run(Begin(p, luck), before);
            var w' := Step(w, CallCancel);
            && w'.answers == w.answers + [true]
            && (End(w', after) == Cancelled <==> Noticed(w) || (Reached(w', after) && Looks(w', after)))
            && (Reached(w', after) <==> if w.place.Fresh? then w.held && WorkFirst(after) else w.held || w.flag)
            && (Looks(w', after) <==> WillLook(w))
  {
    RunAgrees(Begin(p, luck), before);
    var w := Run(Begin(p, luck), before);
    FlagDecides(Step(w, CallCancel), after);
  }

  // ----- While no older worker can interfere -----

  /** No worker of an earlier job is still to leave, and the table has the flag. */
  predicate Alone(w: World) { w.held && w.leaving == 0 }

  lemma {:induction false} AloneUntilSettled(w: World, es: seq<Event>)
    requires Alone(w) && Runs(w, es) && Run(w, es).ends == w.ends
    ensures Alone(Run(w, es))
    decreases |es|
  {
    if es != [] {
      EndsStay(Step(w, es[0]), es[1..]);
      AloneUntilSettled(Step(w, es[0]), es[1..]);
    }
  }

  lemma {:induction false} AloneWorksFirst(w: World, es: seq<Event>)
    requires w.leaving == 0 && w.state.Active? && Ends(w, es)
    ensures WorkFirst(es)
    decreases |es|
  {
    if !es[0].Work? { AloneWorksFirst(Step(w, es[0]), es[1..]); }
  }

  /** The first job of a plan: only the worker decides. */
  lemma CancelOfFirstJob(p: Plan, luck: Luck, before: seq<Event>, after: seq<Event>)
    requires |luck.results| == StageCount(p) && Runs(Begin(p, luck), before)
    requires var w := Run(Begin(p, luck), before);
             w.ends == [] && w.state.Active? && Enabled(w, CallCancel) && Ends(Step(w, CallCancel), after)
    ensures var w := Run(Begin(p, luck), before);
            End(Step(w, CallCancel), after) == Cancelled <==> Noticed(w) || WillLook(w)
  {
    CancelDecides(p, luck, before, after);
    var w := Run(Begin(p, luck), before);
    AloneUntilSettled(Begin(p, luck), before);
    AloneWorksFirst(Step(w, CallCancel), after);
  }

  // ----- Cancels that come to nothing -----

  lemma Cons(w: World, e: Event, es: seq<Event>)
    requires Enabled(w, e) && Runs(Step(w, e), es)
    ensures Runs(w, [e] + es) && Run(w, [e] + es) == Run(Step(w, e), es)
  {
    assert ([e] + es)[1..] == es;
  }

  lemma {:induction false} RunConcat(w: World, a: seq<Event>, b: seq<Event>)
    requires Runs(w, a) && Runs(Run(w, a), b)
    ensures Runs(w, a + b) && Run(w, a + b) == Run(Run(w, a), b)
    decreases |a|
  {
    if a == [] {
      assert a + b == b;
    } else {
      RunConcat(Step(w, a[0]), a[1..], b);
      assert a + b == [a[0]] + (a[1..] + b);
      Cons(w, a[0], a[1..] + b);
    }
  }

  predicate AllWork(luck: Luck) {
    luck.transport && forall i :: 0 <= i < |luck.results| ==> luck.results[i].Worked?
  }

  /** Steps of a worker that nobody disturbs. */
  function Undisturbed(n: nat): seq<Event> {
    if n == 0 then [] else [Work] + Undisturbed(n - 1)
  }

  lemma {:induction false} LoopPasses(w: World, k: nat)
    requires Placed(w) && !w.flag && w.state.Active? && AllWork(w.luck)
    requires k <= StageCount(w.plan) && w.place == Top(StageCount(w.plan) - k, false)
    ensures Runs(w, Undisturbed(2 * k + 1))
    ensures var t := Run(w, Undisturbed(2 * k + 1));
            Placed(t) && t == w.(place := Out(false, false), stages := t.stages)
    decreases k
  {
    if k == 0 {
      Cons(w, Work, []);
    } else {
      var t := Worked(w);
      LoopPasses(Worked(t), k - 1);
      Cons(t, Work, Undisturbed(2 * k - 1));
      Cons(w, Work, Undisturbed(2 * k));
    }
  }

  /** How long a job is from its start to the point before it is settled. */
  function Length(p: Plan): nat { 2 * StageCount(p) + 3 }

  lemma JobPasses(w: World)
    requires Placed(w) && !(w.flag && w.held) && w.state.Active? && AllWork(w.luck) && w.place.Fresh?
    ensures Runs(w, Undisturbed(Length(w.plan)))
    ensures var t := Run(w, Undisturbed(Length(w.plan)));
            Placed(t) && t == w.(place := Out(false, false), flag := false, since := t.since, stages := t.stages)
  {
    var t, n := Worked(w), StageCount(w.plan);
    LoopPasses(Worked(t), n);
    Cons(t, Work, Undisturbed(2 * n + 1));
    Cons(w, Work, Undisturbed(2 * n + 2));
  }

  /** A cancel that answers True can come too late: every plan whose stages all work has a run in
      which cancel answers True and the job succeeds. */
  lemma CancelCanComeTooLate(p: Plan, luck: Luck)
    requires |luck.results| == StageCount(p) && AllWork(luck)
    ensures var es := Undisturbed(Length(p)) + [CallCancel, Work];
            && Runs(Begin(p, luck), es)
            && Run(Begin(p, luck), es).answers == [true] && Run(Begin(p, luck), es).ends == [Succeeded]
  {
    JobPasses(Begin(p, luck));
    var w := Run(Begin(p, luck), Undisturbed(Length(p)));
    TwoSteps(w, CallCancel, Work);
    RunConcat(Begin(p, luck), Undisturbed(Length(p)), [CallCancel, Work]);
  }

  lemma TwoSteps(w: World, e: Event, f: Event)
    requires Enabled(w, e) && Enabled(Step(w, e), f)
    ensures Runs(w, [e, f]) && Run(w, [e, f]) == Step(Step(w, e), f)
  {
    Cons(Step(w, e), f, []);
    assert [f] + [] == [f];
    Cons(w, e, [f]);
    assert [e] + [f] == [e, f];
  }

  /** It can come before the transport fails. */
  lemma CancelBeforeNoTransport(p: Plan, luck: Luck)
    requires |luck.results| == StageCount(p) && !luck.transport
    ensures var es := [Work, CallCancel] + [Work];
            && Runs(Begin(p, luck), es)
            && Run(Begin(p, luck), es).answers == [true] && Run(Begin(p, luck), es).ends == [Errored]
  {
    var w := Begin(p, luck);
    TwoSteps(w, Work, CallCancel);
    Cons(Run(w, [Work, CallCancel]), Work, []);
    assert [Work] + [] == [Work];
    RunConcat(w, [Work, CallCancel], [Work]);
  }

  /** A plan is started again before the worker of its first job has left. */
  function Again(p: Plan, luck: Luck): seq<Event> { Undisturbed(Length(p)) + [Work, CallStart(luck)] }

  lemma AgainStarts(p: Plan, luck: Luck)
    requires |luck.results| == StageCount(p) && AllWork(luck)
    ensures Runs(Begin(p, luck), Again(p, luck))
    ensures Run(Begin(p, luck), Again(p, luck)) == Started(p, luck, 1, [Succeeded], [])
  {
    JobPasses(Begin(p, luck));
    var w := Run(Begin(p, luck), Undisturbed(Length(p)));
    TwoSteps(w, Work, CallStart(luck));
    RunConcat(Begin(p, luck), Undisturbed(Length(p)), [Work, CallStart(luck)]);
  }

  /** And it can go to a flag that the worker of an older job removes, before the call or after it:
      the new job runs all its stages. */
  lemma RestartLosesCancel(p: Plan, luck: Luck, first: Event, second: Event)
    requires |luck.results| == StageCount(p) && AllWork(luck)
    requires (first, second) == (Leave, CallCancel) || (first, second) == (CallCancel, Leave)
    ensures var es := Again(p, luck) + ([first, second] + (Undisturbed(Length(p)) + [Work]));
            && Runs(Begin(p, luck), es)
            && Run(Begin(p, luck), es).answers == [true]
            && Run(Begin(p, luck), es).ends == [Succeeded, Succeeded]
  {
    AgainStarts(p, luck);
    var w := Started(p, luck, 1, [Succeeded], []);
    TwoSteps(w, first, second);
    var t := Run(w, [first, second]);
    JobPasses(t);
    var u := Run(t, Undisturbed(Length(p)));
    Cons(u, Work, []);
    assert [Work] + [] == [Work];
    RunConcat(t, Undisturbed(Length(p)), [Work]);
    RunConcat(w, [first, second], Undisturbed(Length(p)) + [Work]);
    RunConcat(Begin(p, luck), Again(p, luck), [first, second] + (Undisturbed(Length(p)) + [Work]));
  }
}
