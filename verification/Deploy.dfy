/** A deployment: its stages, the worker that carries them out in order, and the table of jobs. */
module Deploy {
  import opened Sequences

  datatype Kind = Upload | Chmod | Exec | Restart

  datatype StageState = Pending | Running | Done | Skipped | Failed

  /** `file`: the file an upload or chmod stage is labelled with, -1 for the others. */
  datatype Stage = Stage(kind: Kind, file: int, state: StageState)

  datatype JobState = Active | Succeeded | Errored | Cancelled

  /** A plan has some files, and may have a command to run and a restart to do. */
  datatype Plan = Plan(files: nat, cmd: bool, restart: bool)

  /** What happened to a stage: it worked; chmod is not supported; the command ended with a code
      other than 0; or something was raised. */
  datatype Result = Worked | Unsupported | NonZero | Raised

  // ----- Building the stages -----

  function StageCount(p: Plan): nat {
    2 * p.files + (if p.cmd then 1 else 0) + (if p.restart then 1 else 0)
  }

  /** Stages 2j and 2j + 1 are about file j; the command and the restart come last. */
  function StageAt(p: Plan, i: nat): Stage
    requires i < StageCount(p)
  {
    if i < 2 * p.files then Stage(if i % 2 == 0 then Upload else Chmod, i / 2, Pending)
    else if i == 2 * p.files && p.cmd then Stage(Exec, -1, Pending)
    else Stage(Restart, -1, Pending)
  }

  method BuildStages(p: Plan) returns (stages: seq<Stage>)
    ensures |stages| == StageCount(p)
    ensures forall i :: 0 <= i < |stages| ==> stages[i] == StageAt(p, i)
    ensures forall j :: 0 <= j < p.files ==>
      stages[2 * j] == Stage(Upload, j, Pending) && stages[2 * j + 1] == Stage(Chmod, j, Pending)
    ensures stages[2 * p.files..] ==
      (if p.cmd then [Stage(Exec, -1, Pending)] else []) + (if p.restart then [Stage(Restart, -1, Pending)] else [])
  {
    stages := [];
    for j := 0 to p.files
      invariant |stages| == 2 * j
      invariant forall i :: 0 <= i < |stages| ==> stages[i] == StageAt(p, i)
    {
      stages := stages + [Stage(Upload, j, Pending)];
      stages := stages + [Stage(Chmod, j, Pending)];
    }
    if p.cmd { stages := stages + [Stage(Exec, -1, Pending)]; }
    if p.restart { stages := stages + [Stage(Restart, -1, Pending)]; }
    StagesAre(p, stages);
  }

  lemma StagesAre(p: Plan, stages: seq<Stage>)
    requires |stages| == StageCount(p) && forall i :: 0 <= i < |stages| ==> stages[i] == StageAt(p, i)
    ensures forall j :: 0 <= j < p.files ==>
      stages[2 * j] == Stage(Upload, j, Pending) && stages[2 * j + 1] == Stage(Chmod, j, Pending)
    ensures stages[2 * p.files..] ==
      (if p.cmd then [Stage(Exec, -1, Pending)] else []) + (if p.restart then [Stage(Restart, -1, Pending)] else [])
  {
    forall j | 0 <= j < p.files
      ensures stages[2 * j] == Stage(Upload, j, Pending) && stages[2 * j + 1] == Stage(Chmod, j, Pending) {
      assert stages[2 * j] == StageAt(p, 2 * j) && stages[2 * j + 1] == StageAt(p, 2 * j + 1);
    }
  }

  // ----- Carrying them out -----

  /** How a stage that ran ends. */
  function Outcome(kind: Kind, r: Result): StageState {
    match kind
    case Upload => if r.Worked? then Done else Failed
    case Chmod => if r.Worked? then Done else if r.Unsupported? then Skipped else Failed
    case Exec => if r.Worked? then Done else Failed
    case Restart => Skipped
  }

  /** A stage that runs and does not fail: a restart, one that worked, or a chmod that the device does
      not support. */
  predicate GoesWell(p: Plan, results: seq<Result>, i: nat)
    requires i < StageCount(p) == |results|
  {
    var kind := StageAt(p, i).kind;
    kind.Restart? || results[i].Worked? || (kind.Chmod? && results[i].Unsupported?)
  }

  /** What a stage that ran has become. */
  ghost predicate Became(kind: Kind, r: Result, ended: StageState) {
    && (ended == Done <==> r == Worked && kind != Restart)
    && (ended == Skipped <==> kind == Restart || (kind == Chmod && r == Unsupported))
    && (ended == Done || ended == Skipped || ended == Failed)
  }

  /** The worker looks at the cancel flag before stage i (look 2i) and when stage i has raised
      (look 2i + 1); the flag is up from look `cancelAt` on. */
  predicate FlagUp(cancelAt: nat, look: nat) { look >= cancelAt }

  /** The stage at which the worker stops: it finds itself cancelled before it, or it fails. */
  function Stop(p: Plan, results: seq<Result>, cancelAt: nat, i: nat): (k: nat)
    requires i <= StageCount(p) == |results|
    ensures i <= k <= StageCount(p)
    ensures forall j :: i <= j < k ==> !FlagUp(cancelAt, 2 * j) && Outcome(StageAt(p, j).kind, results[j]) != Failed
    ensures k < StageCount(p) ==> FlagUp(cancelAt, 2 * k) || Outcome(StageAt(p, k).kind, results[k]) == Failed
    decreases StageCount(p) - i
  {
    if i == StageCount(p) || FlagUp(cancelAt, 2 * i) || Outcome(StageAt(p, i).kind, results[i]) == Failed then i
    else Stop(p, results, cancelAt, i + 1)
  }

  function FinalState(p: Plan, results: seq<Result>, cancelAt: nat): JobState
    requires |results| == StageCount(p)
  {
    var k := Stop(p, results, cancelAt, 0);
    if k == StageCount(p) then Succeeded
    else if FlagUp(cancelAt, 2 * k) then Cancelled
    else if FlagUp(cancelAt, 2 * k + 1) && !results[k].NonZero? then Cancelled
    else Errored
  }

  /** What became of stage i. */
  function FinalStage(p: Plan, results: seq<Result>, cancelAt: nat, i: nat): StageState
    requires |results| == StageCount(p) && i < StageCount(p)
  {
    var k := Stop(p, results, cancelAt, 0);
    if i < k then Outcome(StageAt(p, i).kind, results[i])
    else if i == k && !FlagUp(cancelAt, 2 * k) then Failed
    else if FinalState(p, results, cancelAt).Cancelled? then Skipped
    else Failed
  }

  /** A command that ends is the only stage with an exit code. */
  predicate Sensible(p: Plan, results: seq<Result>) {
    && |results| == StageCount(p)
    && forall i :: 0 <= i < |results| ==>
         && (results[i].NonZero? ==> StageAt(p, i).kind.Exec?)
         && (results[i].Unsupported? ==> StageAt(p, i).kind.Chmod?)
  }

  lemma WellIsNotFailed(p: Plan, results: seq<Result>, i: nat)
    requires i < StageCount(p) == |results|
    ensures GoesWell(p, results, i) <==> Outcome(StageAt(p, i).kind, results[i]) != Failed
    ensures Became(StageAt(p, i).kind, results[i], Outcome(StageAt(p, i).kind, results[i]))
  {}

  /** The first k stages run well, and no look at the flag before them finds it up. */
  ghost predicate FineUpTo(p: Plan, results: seq<Result>, cancelAt: nat, k: nat)
    requires k <= StageCount(p) == |results|
  {
    forall i :: 0 <= i < k ==> !FlagUp(cancelAt, 2 * i) && GoesWell(p, results, i)
  }

  /** Stage k is cancelled: before it starts, or because it raises with the flag up. */
  predicate CancelledAt(p: Plan, results: seq<Result>, cancelAt: nat, k: nat)
    requires k < StageCount(p) == |results|
  {
    || FlagUp(cancelAt, 2 * k)
    || (FlagUp(cancelAt, 2 * k + 1) && !GoesWell(p, results, k) && !results[k].NonZero?)
  }

  /** Exactly when a job succeeds, and exactly when it ends cancelled; an error otherwise. */
  lemma FinalStateExactly(p: Plan, results: seq<Result>, cancelAt: nat)
    requires |results| == StageCount(p)
    ensures FinalState(p, results, cancelAt) == Succeeded <==> FineUpTo(p, results, cancelAt, StageCount(p))
    ensures FinalState(p, results, cancelAt) == Cancelled <==>
            exists k :: 0 <= k < StageCount(p) && FineUpTo(p, results, cancelAt, k)
                        && CancelledAt(p, results, cancelAt, k)
    ensures !FinalState(p, results, cancelAt).Active?
  {
    var n, k := StageCount(p), Stop(p, results, cancelAt, 0);
    forall i | 0 <= i < n { WellIsNotFailed(p, results, i); }
    assert FineUpTo(p, results, cancelAt, k);
    if k < n {
      assert !FineUpTo(p, results, cancelAt, n);
      forall j | 0 <= j < n && FineUpTo(p, results, cancelAt, j) && CancelledAt(p, results, cancelAt, j)
        ensures j == k {
      }
    }
  }

  /** Stage i is carried out: everything before it goes well, and no look up to its start finds the
      flag up. */
  ghost predicate Ran(p: Plan, results: seq<Result>, cancelAt: nat, i: nat)
    requires i < StageCount(p) == |results|
  {
    FineUpTo(p, results, cancelAt, i) && !FlagUp(cancelAt, 2 * i)
  }

  /** How a job and its stages end, from the results and the looks alone. */
  ghost predicate EndsBy(p: Plan, results: seq<Result>, cancelAt: nat, state: JobState, stages: seq<StageState>)
    requires |stages| == StageCount(p) == |results|
  {
    var n := StageCount(p);
    && (state == Succeeded <==> FineUpTo(p, results, cancelAt, n))
    && (state == Cancelled <==>
          exists k :: 0 <= k < n && FineUpTo(p, results, cancelAt, k) && CancelledAt(p, results, cancelAt, k))
    && state != Active
    && (state != Cancelled ==> (state == Succeeded <==> forall i :: 0 <= i < n ==> GoesWell(p, results, i)))
    && forall i :: 0 <= i < n ==>
         if Ran(p, results, cancelAt, i) then Became(StageAt(p, i).kind, results[i], stages[i])
         else stages[i] == if state == Cancelled then Skipped else Failed
  }

  lemma EndsAsResults(p: Plan, results: seq<Result>, cancelAt: nat)
    requires |results| == StageCount(p)
    ensures EndsBy(p, results, cancelAt, FinalState(p, results, cancelAt), FinalStages(p, results, cancelAt))
  {
    var n, k := StageCount(p), Stop(p, results, cancelAt, 0);
    FinalStateExactly(p, results, cancelAt);
    assert FineUpTo(p, results, cancelAt, k);
    forall i | 0 <= i < n ensures Ran(p, results, cancelAt, i) <==> i < k || (i == k && !FlagUp(cancelAt, 2 * k)) {}
    forall i | 0 <= i < n { WellIsNotFailed(p, results, i); }
  }

  class Job {
    const plan: Plan
    var state: JobState
    var stages: seq<Stage>
    // Which file each upload or chmod stage was applied to.
    var acted: seq<(nat, nat)>

    ghost function States(): (ss: seq<StageState>)
      reads this
      ensures |ss| == |stages| && forall i :: 0 <= i < |ss| ==> ss[i] == stages[i].state
    {
      var all := stages;
      seq(|all|, i requires 0 <= i < |all| => all[i].state)
    }

    ghost predicate Fresh()
      reads this
    {
      && state.Active? && acted == [] && |stages| == StageCount(plan)
      && forall i :: 0 <= i < |stages| ==> stages[i] == StageAt(plan, i)
    }

    constructor (plan: Plan)
      ensures Fresh() && this.plan == plan
    {
      this.plan := plan;
      state := Active;
      acted := [];
      new;
      stages := BuildStages(plan);
    }

    method SetStage(i: nat, st: StageState)
      requires i < |stages|
      modifies `stages
      ensures stages == old(stages)[i := old(stages)[i].(state := st)]
    {
      stages := stages[i := stages[i].(state := st)];
    }

    /** Every stage that has not run gets the given state. */
    method SettlePending(st: StageState)
      modifies `stages
      ensures |stages| == |old(stages)|
      ensures forall i :: 0 <= i < |stages| ==>
        stages[i] == if old(stages)[i].state.Pending? then old(stages)[i].(state := st) else old(stages)[i]
    {
      for i := 0 to |stages|
        invariant |stages| == |old(stages)|
        invariant forall j :: 0 <= j < i ==>
          stages[j] == if old(stages)[j].state.Pending? then old(stages)[j].(state := st) else old(stages)[j]
        invariant forall j :: i <= j < |stages| ==> stages[j] == old(stages)[j]
      {
        if stages[i].state.Pending? { SetStage(i, st); }
      }
    }

    /** The transport could not be set up. */
    method Abort()
      requires Fresh()
      modifies this
      ensures state == Errored && acted == []
      ensures |stages| == StageCount(plan) && forall i :: 0 <= i < |stages| ==> stages[i].state == Failed
    {
      state := Errored;
      SettlePending(Failed);
    }

    /** Uploads and chmods act on the file of their stage. */
    ghost predicate ActedRight()
      reads this
    {
      forall a :: a in acted ==>
        a.0 < 2 * plan.files && a.1 == StageAt(plan, a.0).file && (a.0 == 2 * a.1 || a.0 == 2 * a.1 + 1)
    }

    method RunStage(i: nat, r: Result) returns (ended: StageState)
      requires i < |stages| == StageCount(plan) && stages[i] == StageAt(plan, i) && ActedRight()
      modifies `stages, `acted
      ensures ended == Outcome(StageAt(plan, i).kind, r) && Became(StageAt(plan, i).kind, r, ended)
      ensures stages == old(stages)[i := StageAt(plan, i).(state := ended)]
      ensures ActedRight()
    {
      SetStage(i, Running);
      var kind := stages[i].kind;
      if kind.Upload? {
        acted := acted + [(i, i / 2)];
      } else if kind.Chmod? {
        acted := acted + [(i, (i - 1) / 2)];
      }
      ended := Outcome(kind, r);
      SetStage(i, ended);
    }

    /** The stages before `upTo` have ended, the others are pending. */
    ghost predicate RanUpTo(results: seq<Result>, upTo: nat)
      requires |results| == StageCount(plan)
      reads this
    {
      && |stages| == StageCount(plan)
      && forall j :: 0 <= j < |stages| ==>
           stages[j] ==
             StageAt(plan, j).(state := if j < upTo then Outcome(StageAt(plan, j).kind, results[j]) else Pending)
    }

    method RunStages(results: seq<Result>, cancelAt: nat) returns (failed: bool, cancelled: bool)
      requires Fresh() && Sensible(plan, results)
      modifies `stages, `acted
      ensures ActedRight() && !(failed && cancelled)
      ensures var k := Stop(plan, results, cancelAt, 0);
              && RanUpTo(results, if k < StageCount(plan) && !FlagUp(cancelAt, 2 * k) then k + 1 else k)
              && (failed || cancelled <==> k < StageCount(plan))
              && FinalState(plan, results, cancelAt) ==
                   if cancelled then Cancelled else if failed then Errored else Succeeded
    {
      failed, cancelled := false, false;
      ghost var k := Stop(plan, results, cancelAt, 0);
      var i := 0;
      while i < |stages|
        invariant i <= |stages| == StageCount(plan)
        invariant RanUpTo(results, i) && ActedRight() && !failed
        invariant if cancelled
                  then i == k + 1 && FlagUp(cancelAt, 2 * k + 1) && !FlagUp(cancelAt, 2 * k) && !results[k].NonZero?
                  else i <= k && Stop(plan, results, cancelAt, i) == k
      {
        if FlagUp(cancelAt, 2 * i) {
          cancelled := true;
          break;
        }
        var ended := RunStage(i, results[i]);
        if ended.Failed? {
          if !results[i].NonZero? && FlagUp(cancelAt, 2 * i + 1) {
            cancelled := true;
          } else {
            failed := true;
          }
        }
        i := i + 1;
        if failed { break; }
      }
    }

    method Run(results: seq<Result>, cancelAt: nat)
      requires Fresh() && Sensible(plan, results)
      modifies this
      ensures state == FinalState(plan, results, cancelAt)
      ensures |stages| == StageCount(plan)
      ensures forall i :: 0 <= i < |stages| ==>
        stages[i] == StageAt(plan, i).(state := FinalStage(plan, results, cancelAt, i))
      ensures ActedRight()
      ensures EndsBy(plan, results, cancelAt, state, States())
    {
      hide EndsBy;
      var failed, cancelled := RunStages(results, cancelAt);
      if cancelled {
        state := Cancelled;
        SettlePending(Skipped);
      } else if failed {
        state := Errored;
        SettlePending(Failed);
      } else {
        state := Succeeded;
      }
      EndsAsResults(plan, results, cancelAt);
      assert States() == FinalStages(plan, results, cancelAt);
    }
  }

  // ----- The terminal shape -----

  predicate Fine(s: StageState) { s.Done? || s.Skipped? }

  predicate AllFine(ss: seq<StageState>) { forall i :: 0 <= i < |ss| ==> Fine(ss[i]) }

  /** The shape a finished job has: a prefix that went well; after it nothing, or only failures,
      or at most one failure and then skipped stages. */
  ghost predicate Shaped(state: JobState, ss: seq<StageState>) {
    match state
    case Active => false
    case Succeeded => AllFine(ss)
    case Errored =>
      exists k :: 0 <= k < |ss| && AllFine(ss[..k]) && forall i :: k <= i < |ss| ==> ss[i].Failed?
    case Cancelled =>
      exists k :: 0 <= k < |ss| && AllFine(ss[..k]) && (ss[k].Failed? || ss[k].Skipped?)
               && forall i :: k < i < |ss| ==> ss[i].Skipped?
  }

  function FinalStages(p: Plan, results: seq<Result>, cancelAt: nat): (ss: seq<StageState>)
    requires |results| == StageCount(p)
    ensures |ss| == StageCount(p)
    ensures forall i :: 0 <= i < |ss| ==> ss[i] == FinalStage(p, results, cancelAt, i)
  {
    seq(StageCount(p), i requires 0 <= i < StageCount(p) => FinalStage(p, results, cancelAt, i))
  }

  /** Whatever the stages do and whenever it is cancelled, a run ends in a proper shape, with no
      stage pending or running. */
  lemma RunsEndShaped(p: Plan, results: seq<Result>, cancelAt: nat)
    requires |results| == StageCount(p)
    ensures Shaped(FinalState(p, results, cancelAt), FinalStages(p, results, cancelAt))
    ensures forall s :: s in FinalStages(p, results, cancelAt) ==> !s.Pending? && !s.Running?
  {
    var k := Stop(p, results, cancelAt, 0);
    var ss := FinalStages(p, results, cancelAt);
    assert AllFine(ss[..k]);
    if k < StageCount(p) {
      assert ss[k].Failed? || ss[k].Skipped?;
      assert forall i :: k < i < |ss| ==>
        ss[i] == if FinalState(p, results, cancelAt).Cancelled? then Skipped else Failed;
    }
  }

  // ----- The table of jobs -----

  const KEEP_JOBS := 20

  /** What a call of cancel is told, and the flag it leaves.  Every active job is reported as
      cancelled, but the flag is raised only if the table still has it. */
  function CancelAnswer(state: JobState, flag: bool, held: bool): (bool, bool) {
    (state.Active?, flag || (state.Active? && held))
  }

  class Store {
    var jobs: map<string, JobState>
    var history: seq<string>
    // The cancel flags of the jobs whose worker has not left yet.
    var flags: map<string, bool>

    ghost predicate Valid()
      reads this
    {
      && |history| <= KEEP_JOBS
      && Distinct(history)
      && (forall id :: id in history ==> id in jobs)
    }

    constructor ()
      ensures Valid() && jobs == map[] && history == [] && flags == map[]
    {
      jobs, history, flags := map[], [], map[];
    }

    predicate Flagged(id: string)
      reads this
    {
      id in flags && flags[id]
    }

    /** Start a plan: refused while it is running; otherwise it becomes the newest of the jobs
        remembered, with a flag of its own, and finished jobs that are no longer remembered are
        dropped. */
    method Start(id: string) returns (started: bool)
      requires Valid()
      modifies this
      ensures Valid()
      ensures started == !(id in old(jobs) && old(jobs)[id].Active?)
      ensures !started ==> jobs == old(jobs) && history == old(history) && flags == old(flags)
      ensures started ==> history == Remember(old(history), id) && flags == old(flags)[id := false]
      ensures started ==> forall p :: 0 <= p <= |old(history)| && FoundAt(old(history), id, p) ==>
        var all := [id] + old(history)[..p] + (if p < |old(history)| then old(history)[p + 1..] else []);
        history == if |all| <= 20 then all else all[..20]
      ensures started ==> forall j ::
        j in jobs <==> j == id || (j in old(jobs) && (j in history || old(jobs)[j].Active?))
      ensures started ==> forall j :: j in jobs ==> jobs[j] == if j == id then Active else old(jobs)[j]
    {
      if id in jobs && jobs[id].Active? {
        return false;
      }
      RememberKeeps(history, id);
      RememberIs(history, id);
      jobs := jobs[id := Active];
      flags := flags[id := false];
      history := [id] + Without(history, id);
      if |history| > KEEP_JOBS { history := history[..KEEP_JOBS]; }
      jobs := map j | j in jobs && (j in history || jobs[j].Active?) :: jobs[j];
      started := true;
    }

    /** Cancelling raises the flag of a running job, if it is there; it does not decide the outcome. */
    method Cancel(id: string) returns (found: bool, cancelled: bool)
      requires Valid()
      modifies `flags
      ensures found == (id in jobs)
      ensures cancelled <==> found && jobs[id] == Active
      ensures found ==> (Flagged(id) <==> old(Flagged(id)) || (cancelled && id in old(flags)))
      ensures found ==> (cancelled, Flagged(id)) == CancelAnswer(jobs[id], old(Flagged(id)), id in old(flags))
      ensures flags.Keys == old(flags).Keys
      ensures forall j :: j in flags && (j != id || !found) ==> flags[j] == old(flags)[j]
    {
      found, cancelled := id in jobs, false;
      if found && jobs[id].Active? {
        if id in flags { flags := flags[id := true]; }
        cancelled := true;
      }
    }

    /** The last act of a worker that carried a plan out: it removes the flag it finds, be it its own
        or that of a newer job of the same plan. */
    method Leave(id: string)
      requires Valid()
      modifies `flags
      ensures Valid() && flags == old(flags) - {id}
    {
      flags := flags - {id};
    }
  }

  /** The newest jobs, this one first. */
  function Remember(ids: seq<string>, id: string): seq<string> {
    var all := [id] + Without(ids, id);
    if |all| > KEEP_JOBS then all[..KEEP_JOBS] else all
  }

  /** The first place where x is found, or the end. */
  predicate FoundAt(xs: seq<string>, x: string, p: nat)
    requires p <= |xs|
  {
    if p < |xs| then xs[p] == x else x !in xs
  }

  /** A job that was remembered moves to the front; the oldest beyond twenty is forgotten. */
  lemma RememberIs(ids: seq<string>, id: string)
    requires Distinct(ids)
    ensures forall p :: 0 <= p <= |ids| && FoundAt(ids, id, p) ==>
              var all := [id] + ids[..p] + (if p < |ids| then ids[p + 1..] else []);
              Remember(ids, id) == if |all| <= 20 then all else all[..20]
  {
    forall p | 0 <= p <= |ids| && FoundAt(ids, id, p)
      ensures [id] + Without(ids, id) == [id] + ids[..p] + (if p < |ids| then ids[p + 1..] else []) {
      WithoutAt(ids, id, p);
      Assoc([id], ids[..p], if p < |ids| then ids[p + 1..] else []);
    }
  }

  lemma RememberKeeps(ids: seq<string>, id: string)
    requires Distinct(ids)
    ensures var r := Remember(ids, id);
            && 0 < |r| <= KEEP_JOBS && r[0] == id && Distinct(r)
            && (forall x :: x in r ==> x == id || x in ids)
            && (|ids| < KEEP_JOBS ==> forall x :: x in ids ==> x in r)
  {
    WithoutIsDistinct(ids, id);
    var rest := Without(ids, id);
    assert forall i :: 0 <= i < |rest| ==> rest[i] in rest;
    assert Distinct([id] + rest);
  }
}
