/** Command slots shared by all exec stores, across every interleaving of runs, readers and
    close.  A transition is one critical section of one thread, or one semaphore operation. */
module ExecSlots {
  import opened Counting
  import opened Sequences

  const MAX_CONCURRENT := 8
  const MAX_JOBS := 100

  /** Opening: registered, its command not started yet.  Reading: its reader thread is at work. */
  datatype Phase = Opening | Reading | Ended

  /** `listed`: still in the store's table.  `frees`: how often it gave a slot back. */
  datatype Job = Job(phase: Phase, running: bool, slotReleased: bool, listed: bool, frees: nat)

  /** `arriving` runs hold a slot and have not reached the store's lock yet. */
  datatype Store = Store(closed: bool, arriving: nat, jobs: seq<Job>)

  datatype State = State(taken: int, stores: seq<Store>)

  datatype Step =
    | Take(store: nat)
    | Register(store: nat, expired: set<nat>)
    | OpenFails(store: nat, job: nat)
    | OpenWorks(store: nat, job: nat)
    | ReaderEnds(store: nat, job: nat)
    | CloseStarts(store: nat)

  predicate Listed(j: Job) { j.listed }
  predicate HoldsSlot(j: Job) { !j.slotReleased }

  predicate Has(s: State, store: nat, job: nat, p: Phase) {
    store < |s.stores| && job < |s.stores[store].jobs| && s.stores[store].jobs[job].phase == p
  }

  predicate Enabled(s: State, e: Step) {
    match e
    case Take(k) => k < |s.stores|
    case Register(k, expired) =>
      k < |s.stores| && s.stores[k].arriving > 0
      && forall j :: j in expired ==> j < |s.stores[k].jobs| && !s.stores[k].jobs[j].running
    case OpenFails(k, j) => Has(s, k, j, Opening)
    case OpenWorks(k, j) => Has(s, k, j, Opening)
    case ReaderEnds(k, j) => Has(s, k, j, Reading)
    case CloseStarts(k) => k < |s.stores|
  }

  /** release_slot_locked: a job that already gave its slot back does not do it again. */
  function Finish(j: Job): Job {
    if j.slotReleased then j.(phase := Ended, running := false)
    else j.(phase := Ended, running := false, slotReleased := true, frees := j.frees + 1)
  }

  function Evict(jobs: seq<Job>, expired: set<nat>): (r: seq<Job>)
    ensures |r| == |jobs|
    ensures forall i :: 0 <= i < |r| ==> r[i] == if i in expired then jobs[i].(listed := false) else jobs[i]
  {
    seq(|jobs|, i requires 0 <= i < |jobs| => if i in expired then jobs[i].(listed := false) else jobs[i])
  }

  function With(s: State, k: nat, store: Store): State
    requires k < |s.stores|
  {
    s.(stores := s.stores[k := store])
  }

  /** A run reaches the store's lock: refused when the store is closing or its table is full
      even without the finished jobs that have expired. */
  function Arrive(store: Store, expired: set<nat>): Store
    requires store.arriving > 0
  {
    var jobs := Evict(store.jobs, expired);
    if store.closed then store.(arriving := store.arriving - 1)
    else if Count(jobs, Listed) >= MAX_JOBS then Store(false, store.arriving - 1, jobs)
    else Store(false, store.arriving - 1, jobs + [Job(Opening, true, false, true, 0)])
  }

  function Next(s: State, e: Step): State
    requires Enabled(s, e)
  {
    match e
    case Take(k) =>
      if s.taken >= MAX_CONCURRENT then s
      else With(s, k, s.stores[k].(arriving := s.stores[k].arriving + 1)).(taken := s.taken + 1)
    case Register(k, expired) =>
      var store := Arrive(s.stores[k], expired);
      With(s, k, store).(taken := if |store.jobs| > |s.stores[k].jobs| then s.taken else s.taken - 1)
    case OpenFails(k, j) => EndJob(s, k, j)
    case OpenWorks(k, j) =>
      var jobs := s.stores[k].jobs;
      With(s, k, s.stores[k].(jobs := jobs[j := jobs[j].(phase := Reading)]))
    case ReaderEnds(k, j) => EndJob(s, k, j)
    case CloseStarts(k) => With(s, k, s.stores[k].(closed := true))
  }

  function EndJob(s: State, k: nat, j: nat): State
    requires k < |s.stores| && j < |s.stores[k].jobs|
  {
    var jobs := s.stores[k].jobs;
    With(s, k, s.stores[k].(jobs := jobs[j := Finish(jobs[j])]))
     .(taken := if jobs[j].slotReleased then s.taken else s.taken - 1)
  }

  /** What close reports once it is done waiting. */
  predicate CloseIsClean(store: Store) {
    store.closed && forall j :: 0 <= j < |store.jobs| ==> store.jobs[j].listed ==> !store.jobs[j].running
  }

  ghost predicate Runs(s: State, es: seq<Step>)
    decreases |es|
  {
    es == [] || (Enabled(s, es[0]) && Runs(Next(s, es[0]), es[1..]))
  }

  ghost function Run(s: State, es: seq<Step>): State
    requires Runs(s, es)
    decreases |es|
  {
    if es == [] then s else Run(Next(s, es[0]), es[1..])
  }

  function Init(stores: nat): State {
    State(0, seq(stores, _ => Store(false, 0, [])))
  }

  // ----- The invariant -----

  /** Slots a store accounts for: runs on their way in, and jobs that have not given theirs back. */
  function Held(store: Store): nat { store.arriving + Count(store.jobs, HoldsSlot) }

  function Total(stores: seq<Store>): nat {
    if stores == [] then 0 else Total(stores[..|stores| - 1]) + Held(stores[|stores| - 1])
  }

  lemma {:induction false} TotalUpdate(stores: seq<Store>, k: nat, store: Store)
    requires k < |stores|
    ensures Total(stores[k := store]) == Total(stores) - Held(stores[k]) + Held(store)
  {
    var n := |stores| - 1;
    if k == n {
      assert stores[k := store][..n] == stores[..n];
    } else {
      assert stores[k := store][..n] == stores[..n][k := store];
      TotalUpdate(stores[..n], k, store);
    }
  }

  predicate JobOk(j: Job) {
    && (j.running <==> !j.slotReleased)
    && (j.slotReleased <==> j.phase.Ended?)
    && (j.running ==> j.listed)
    && j.frees == if j.slotReleased then 1 else 0
  }

  predicate StoreOk(store: Store) {
    && (forall i :: 0 <= i < |store.jobs| ==> JobOk(store.jobs[i]))
    && Count(store.jobs, Listed) <= MAX_JOBS
  }

  ghost predicate Inv(s: State) {
    && s.taken == Total(s.stores)
    && s.taken <= MAX_CONCURRENT
    && forall k :: 0 <= k < |s.stores| ==> StoreOk(s.stores[k])
  }

  lemma {:induction false} EvictCounts(jobs: seq<Job>, expired: set<nat>)
    ensures Count(Evict(jobs, expired), HoldsSlot) == Count(jobs, HoldsSlot)
    ensures Count(Evict(jobs, expired), Listed) <= Count(jobs, Listed)
  {
    if jobs != [] {
      var n := |jobs| - 1;
      assert Evict(jobs, expired)[..n] == Evict(jobs[..n], expired);
      EvictCounts(jobs[..n], expired);
    }
  }

  lemma ArriveHeld(store: Store, expired: set<nat>)
    requires StoreOk(store) && store.arriving > 0
    requires forall j :: j in expired ==> j < |store.jobs| && !store.jobs[j].running
    ensures StoreOk(Arrive(store, expired))
    ensures Held(Arrive(store, expired))
         == if |Arrive(store, expired).jobs| > |store.jobs| then Held(store) else Held(store) - 1
  {
    hide Count;
    var jobs := Evict(store.jobs, expired);
    var job := Job(Opening, true, false, true, 0);
    EvictCounts(store.jobs, expired);
    CountAppend(jobs, job, HoldsSlot);
    CountAppend(jobs, job, Listed);
  }

  lemma ChangeHeld(store: Store, j: nat, job: Job)
    requires StoreOk(store) && j < |store.jobs| && JobOk(job) && job.listed == store.jobs[j].listed
    ensures var after := store.(jobs := store.jobs[j := job]);
            && StoreOk(after)
            && Held(after) == Held(store)
                 - (if HoldsSlot(store.jobs[j]) then 1 else 0) + (if HoldsSlot(job) then 1 else 0)
  {
    hide Count;
    CountUpdate(store.jobs, j, job, HoldsSlot);
    CountUpdate(store.jobs, j, job, Listed);
  }

  lemma NextInv(s: State, e: Step)
    requires Inv(s) && Enabled(s, e)
    ensures Inv(Next(s, e))
  {
    hide Count, Total;
    var k := e.store;
    var store, after := s.stores[k], Next(s, e).stores[k];
    TotalUpdate(s.stores, k, after);
    match e
    case Take(_) =>
    case Register(_, expired) => ArriveHeld(store, expired);
    case OpenFails(_, j) => ChangeHeld(store, j, Finish(store.jobs[j]));
    case OpenWorks(_, j) => ChangeHeld(store, j, store.jobs[j].(phase := Reading));
    case ReaderEnds(_, j) => ChangeHeld(store, j, Finish(store.jobs[j]));
    case CloseStarts(_) =>
  }

  lemma {:induction false} InitInv(stores: nat)
    ensures Inv(Init(stores))
  {
    if stores > 0 {
      InitInv(stores - 1);
      assert Init(stores).stores[..stores - 1] == Init(stores - 1).stores;
    }
  }

  lemma {:induction false} RunInv(s: State, es: seq<Step>)
    requires Inv(s) && Runs(s, es)
    ensures Inv(Run(s, es))
    decreases |es|
  {
    if es != [] {
      NextInv(s, es[0]);
      RunInv(Next(s, es[0]), es[1..]);
    }
  }

  // ----- The main results -----

  /** Across all stores and interleavings: the slots taken are the runs on their way in plus the
      jobs that have not given theirs back; at most eight; a job runs exactly while it holds its
      slot, and gives it back once. */
  lemma SlotsAreConserved(stores: nat, es: seq<Step>, k: nat, j: nat)
    requires Runs(Init(stores), es)
    ensures var s := Run(Init(stores), es);
            && 0 <= s.taken == Total(s.stores) <= MAX_CONCURRENT
            && (k < |s.stores| && j < |s.stores[k].jobs| ==>
                  var job := s.stores[k].jobs[j];
                  && (job.running <==> !job.slotReleased)
                  && job.frees == if job.phase.Ended? then 1 else 0)
            && (k < |s.stores| ==> Count(s.stores[k].jobs, Listed) <= MAX_JOBS)
  {
    InitInv(stores);
    RunInv(Init(stores), es);
  }

  /** Giving back a slot never overfills the semaphore. */
  lemma {:induction false} HolderIsCounted(stores: seq<Store>, k: nat, j: nat)
    requires k < |stores| && j < |stores[k].jobs| && HoldsSlot(stores[k].jobs[j])
    ensures Total(stores) > 0
  {
    if k == |stores| - 1 {
      CountZero(stores[k].jobs, HoldsSlot);
    } else {
      HolderIsCounted(stores[..|stores| - 1], k, j);
    }
  }

  lemma NoOverRelease(s: State, e: Step)
    requires Inv(s) && Enabled(s, e)
    ensures Next(s, e).taken >= 0
    ensures e.OpenFails? || e.ReaderEnds? ==> s.taken > 0 && Next(s, e).taken == s.taken - 1
  {
    NextInv(s, e);
    if e.OpenFails? || e.ReaderEnds? {
      assert JobOk(s.stores[e.store].jobs[e.job]);
      HolderIsCounted(s.stores, e.store, e.job);
    }
  }

  ghost predicate Quiet(s: State, k: nat, jobs: nat) {
    && k < |s.stores| && s.stores[k].closed && |s.stores[k].jobs| == jobs
    && forall j :: 0 <= j < jobs ==> !s.stores[k].jobs[j].running
  }

  lemma {:induction false} StaysQuiet(s: State, k: nat, jobs: nat, es: seq<Step>)
    requires Inv(s) && Quiet(s, k, jobs) && Runs(s, es)
    ensures Quiet(Run(s, es), k, jobs)
    decreases |es|
  {
    if es != [] {
      var e := es[0];
      NextInv(s, e);
      assert forall j :: 0 <= j < jobs ==> JobOk(s.stores[k].jobs[j]);
      StaysQuiet(Next(s, e), k, jobs, es[1..]);
    }
  }

  /** close reporting success means that no job of that store runs, then or ever after. */
  lemma CleanCloseMeansQuiet(stores: nat, es: seq<Step>, k: nat, later: seq<Step>)
    requires Runs(Init(stores), es)
    requires k < |Run(Init(stores), es).stores| && CloseIsClean(Run(Init(stores), es).stores[k])
    requires Runs(Run(Init(stores), es), later)
    ensures var s := Run(Init(stores), es);
            Quiet(Run(s, later), k, |s.stores[k].jobs|)
  {
    var s := Run(Init(stores), es);
    InitInv(stores);
    RunInv(Init(stores), es);
    assert StoreOk(s.stores[k]);
    StaysQuiet(s, k, |s.stores[k].jobs|, later);
  }

  // ----- The store's own code: what a thread does that is not interrupted -----

  lemma Cons(s: State, e: Step, es: seq<Step>)
    requires Enabled(s, e) && Runs(Next(s, e), es)
    ensures Runs(s, [e] + es) && Run(s, [e] + es) == Run(Next(s, e), es)
  {
    assert ([e] + es)[1..] == es;
  }

  function NewJob(opens: bool): Job {
    if opens then Job(Reading, true, false, true, 0) else Job(Ended, false, true, true, 1)
  }

  /** `stale`: the jobs that ended too long ago, if they have ended. */
  function Expired(store: Store, stale: set<nat>): set<nat> {
    set j | j in stale && j < |store.jobs| && !store.jobs[j].running
  }

  datatype RunResult = NoSlot | StoreClosed | HistoryFull | Started(job: nat)

  function RunOutcome(s: State, k: nat, stale: set<nat>): RunResult
    requires k < |s.stores|
  {
    var store := s.stores[k];
    if s.taken >= MAX_CONCURRENT then NoSlot
    else if store.closed then StoreClosed
    else if Count(Evict(store.jobs, Expired(store, stale)), Listed) >= MAX_JOBS then HistoryFull
    else Started(|store.jobs|)
  }

  /** What one call of run leaves. */
  function RanIn(s: State, k: nat, stale: set<nat>, opens: bool): State
    requires k < |s.stores|
  {
    var store := s.stores[k];
    var jobs := Evict(store.jobs, Expired(store, stale));
    match RunOutcome(s, k, stale)
    case NoSlot => s
    case StoreClosed => s
    case HistoryFull => With(s, k, store.(jobs := jobs))
    case Started(_) =>
      With(s, k, store.(jobs := jobs + [NewJob(opens)])).(taken := if opens then s.taken + 1 else s.taken)
  }

  /** The finished jobs that are stale, and no others, have left the list. */
  ghost predicate StaleDropped(before: seq<Job>, after: seq<Job>, stale: set<nat>) {
    && |after| == |before|
    && forall j: nat :: j < |before| ==>
         after[j] == if j in stale && !before[j].running then before[j].(listed := false) else before[j]
  }

  /** What a call of run has done to the jobs and the slots of its store. */
  ghost predicate RunDid(before: Store, taken: int, stale: set<nat>, opens: bool,
                         r: RunResult, after: Store, taken': int)
  {
    var n := |before.jobs|;
    && after.closed == before.closed
    && (r == NoSlot <==> taken >= 8)
    && (r == StoreClosed <==> taken < 8 && before.closed)
    && (r == NoSlot || r == StoreClosed ==> after.jobs == before.jobs)
    && (taken < 8 && !before.closed ==>
          && n <= |after.jobs| && StaleDropped(before.jobs, after.jobs[..n], stale)
          && (r == HistoryFull <==> Count(after.jobs[..n], Listed) >= 100))
    && (if r.Started? then
          && r.job == n && |after.jobs| == n + 1
          && after.jobs[n].listed && (after.jobs[n].running <==> opens) && (after.jobs[n].slotReleased <==> !opens)
          && taken' == if opens then taken + 1 else taken
        else |after.jobs| == n && taken' == taken)
  }

  lemma RunDoes(s: State, k: nat, stale: set<nat>, opens: bool)
    requires k < |s.stores|
    ensures var t := RanIn(s, k, stale, opens);
            && |t.stores| == |s.stores|
            && RunDid(s.stores[k], s.taken, stale, opens, RunOutcome(s, k, stale), t.stores[k], t.taken)
  {
    var t, n := RanIn(s, k, stale, opens), |s.stores[k].jobs|;
    var jobs := Evict(s.stores[k].jobs, Expired(s.stores[k], stale));
    hide Count;
    assert |t.stores[k].jobs| >= n;
    if s.taken < 8 && !s.stores[k].closed { assert t.stores[k].jobs[..n] == jobs; }
  }

  function RunSteps(s: State, k: nat, stale: set<nat>, opens: bool): seq<Step>
    requires k < |s.stores|
  {
    var job := |s.stores[k].jobs|;
    match RunOutcome(s, k, stale)
    case NoSlot => [Take(k)]
    case StoreClosed => [Take(k)] + [Register(k, Expired(s.stores[k], stale))]
    case HistoryFull => [Take(k)] + [Register(k, Expired(s.stores[k], stale))]
    case Started(_) =>
      [Take(k)] +
        ([Register(k, Expired(s.stores[k], stale))] + [if opens then OpenWorks(k, job) else OpenFails(k, job)])
  }

  /** A call of run is a run of the machine; refused, it leaves its slot as it found it. */
  lemma RunIsRun(s: State, k: nat, stale: set<nat>, opens: bool)
    requires k < |s.stores|
    ensures Runs(s, RunSteps(s, k, stale, opens)) && Run(s, RunSteps(s, k, stale, opens)) == RanIn(s, k, stale, opens)
  {
    if s.taken >= MAX_CONCURRENT {
      Cons(s, Take(k), []);
      assert [Take(k)] + [] == [Take(k)];
    } else {
      var e := Register(k, Expired(s.stores[k], stale));
      var s1 := Next(s, Take(k));
      RegisterIsRun(s, k, stale);
      if RunOutcome(s, k, stale).Started? {
        var job := |s.stores[k].jobs|;
        var last := if opens then OpenWorks(k, job) else OpenFails(k, job);
        OpenedIsRun(s, k, stale, opens);
        Cons(s1, e, [last]);
        Cons(s, Take(k), [e] + [last]);
      } else {
        Cons(s1, e, []);
        assert [e] + [] == [e];
        Cons(s, Take(k), [e]);
      }
    }
  }

  lemma OpenedIsRun(s: State, k: nat, stale: set<nat>, opens: bool)
    requires k < |s.stores| && RunOutcome(s, k, stale).Started?
    ensures var job := |s.stores[k].jobs|;
            var e := if opens then OpenWorks(k, job) else OpenFails(k, job);
            && Runs(Registered(s, k, stale), [e])
            && Run(Registered(s, k, stale), [e]) == RanIn(s, k, stale, opens)
  {
    var s1, after := Registered(s, k, stale), RanIn(s, k, stale, opens);
    OpeningIsRun(s1, k, |s.stores[k].jobs|, opens, Evict(s.stores[k].jobs, Expired(s.stores[k], stale)));
    UpdateTwice(s.stores, k, s1.stores[k], after.stores[k]);
  }

  function Registered(s: State, k: nat, stale: set<nat>): State
    requires k < |s.stores|
  {
    var store := s.stores[k];
    var jobs := Evict(store.jobs, Expired(store, stale));
    match RunOutcome(s, k, stale)
    case HistoryFull => With(s, k, store.(jobs := jobs))
    case Started(_) => With(s, k, store.(jobs := jobs + [Job(Opening, true, false, true, 0)])).(taken := s.taken + 1)
    case _ => s
  }

  lemma RegisterIsRun(s: State, k: nat, stale: set<nat>)
    requires k < |s.stores| && !RunOutcome(s, k, stale).NoSlot?
    ensures var e := Register(k, Expired(s.stores[k], stale));
            var s1 := Next(s, Take(k));
            Enabled(s1, e) && Next(s1, e) == Registered(s, k, stale)
  {
    var s1 := Next(s, Take(k));
    var after := Registered(s, k, stale);
    UpdateTwice(s.stores, k, s1.stores[k], after.stores[k]);
    assert s.stores[k := s.stores[k]] == s.stores;
  }

  lemma OpeningIsRun(s: State, k: nat, job: nat, opens: bool, others: seq<Job>)
    requires k < |s.stores| && s.stores[k].jobs == others + [Job(Opening, true, false, true, 0)] && job == |others|
    ensures var e := if opens then OpenWorks(k, job) else OpenFails(k, job);
            && Runs(s, [e])
            && Run(s, [e]) == With(s, k, s.stores[k].(jobs := others + [NewJob(opens)]))
                              .(taken := if opens then s.taken else s.taken - 1)
  {
    var e := if opens then OpenWorks(k, job) else OpenFails(k, job);
    assert s.stores[k].jobs[job := NewJob(opens)] == others + [NewJob(opens)];
    Cons(s, e, []);
    assert [e] + [] == [e];
  }

  /** A bounded semaphore: more may not be given back than was taken. */
  class Semaphore {
    var taken: int

    constructor ()
      ensures taken == 0
    {
      taken := 0;
    }

    method Acquire() returns (ok: bool)
      modifies this
      ensures ok <==> old(taken) < MAX_CONCURRENT
      ensures taken == if ok then old(taken) + 1 else old(taken)
    {
      ok := taken < MAX_CONCURRENT;
      if ok { taken := taken + 1; }
    }

    method Release()
      requires taken > 0
      modifies this
      ensures taken == old(taken) - 1
    {
      taken := taken - 1;
    }
  }

  class ExecJobStore {
    const slots: Semaphore
    var closed: bool
    var jobs: seq<Job>
    ghost var arriving: nat

    /** This store's part of the state, as the machine's only store. */
    ghost function Abs(): State
      reads this, slots
    {
      State(slots.taken, [Store(closed, arriving, jobs)])
    }

    constructor (slots: Semaphore)
      ensures this.slots == slots && Abs() == State(slots.taken, [Store(false, 0, [])])
    {
      this.slots := slots;
      closed, jobs, arriving := false, [], 0;
    }

    method CountListed() returns (n: nat)
      ensures n == Count(jobs, Listed)
    {
      n := 0;
      for i := 0 to |jobs|
        invariant n == Count(jobs[..i], Listed)
      {
        CountAppend(jobs[..i], jobs[i], Listed);
        assert jobs[..i + 1] == jobs[..i] + [jobs[i]];
        if jobs[i].listed { n := n + 1; }
      }
      assert jobs[..|jobs|] == jobs;
    }

    method DropExpired(stale: set<nat>)
      modifies this`jobs
      ensures jobs == Evict(old(jobs), Expired(old(Abs()).stores[0], stale))
      ensures StaleDropped(old(jobs), jobs, stale)
    {
      ghost var before := jobs;
      for i := 0 to |jobs|
        invariant |jobs| == |before|
        invariant forall j :: 0 <= j < i ==>
          jobs[j] == if j in stale && !before[j].running then before[j].(listed := false) else before[j]
        invariant forall j :: i <= j < |jobs| ==> jobs[j] == before[j]
      {
        if !jobs[i].running && i in stale {
          jobs := jobs[i := jobs[i].(listed := false)];
        }
      }
    }

    /** The part of run up to where the job is in the table. */
    method Admit(stale: set<nat>) returns (r: RunResult)
      requires slots.taken >= 0
      modifies this`jobs, slots
      ensures r == RunOutcome(old(Abs()), 0, stale)
      ensures Abs() == if r.NoSlot? then old(Abs()) else Registered(old(Abs()), 0, stale)
    {
      var ok := slots.Acquire();
      if !ok { return NoSlot; }
      if closed {
        slots.Release();
        return StoreClosed;
      }
      DropExpired(stale);
      var n := CountListed();
      if n >= MAX_JOBS {
        slots.Release();
        return HistoryFull;
      }
      r := Started(|jobs|);
      jobs := jobs + [Job(Opening, true, false, true, 0)];
    }

    /** `opens`: whether the command can be started. */
    method Run(stale: set<nat>, opens: bool) returns (r: RunResult)
      requires slots.taken >= 0
      modifies this`jobs, slots
      ensures r == RunOutcome(old(Abs()), 0, stale)
      ensures Abs() == RanIn(old(Abs()), 0, stale, opens)
      ensures RunDid(old(Abs()).stores[0], old(slots.taken), stale, opens, r, Abs().stores[0], slots.taken)
    {
      RunDoes(Abs(), 0, stale, opens);
      hide RunDid;
      r := Admit(stale);
      if r.Started? {
        ghost var s0 := Abs();
        OpenedIsRun(old(Abs()), 0, stale, opens);
        if opens {
          jobs := jobs[r.job := jobs[r.job].(phase := Reading)];
          assert Abs() == Next(s0, OpenWorks(0, r.job));
        } else {
          FinishJob(r.job);
          assert Abs() == Next(s0, OpenFails(0, r.job));
        }
      }
    }

    /** Gives the job's slot back unless it has done so before. */
    method ReleaseSlotLocked(job: nat)
      requires job < |jobs| && (jobs[job].slotReleased || slots.taken > 0)
      modifies this`jobs, slots
      ensures jobs == if old(jobs)[job].slotReleased then old(jobs)
                      else old(jobs)[job := old(jobs)[job].(slotReleased := true, frees := old(jobs)[job].frees + 1)]
      ensures slots.taken == if old(jobs)[job].slotReleased then old(slots.taken) else old(slots.taken) - 1
    {
      if !jobs[job].slotReleased {
        jobs := jobs[job := jobs[job].(slotReleased := true, frees := jobs[job].frees + 1)];
        slots.Release();
      }
    }

    method FinishJob(job: nat)
      requires job < |jobs| && (jobs[job].slotReleased || slots.taken > 0)
      modifies this`jobs, slots
      ensures Abs() == EndJob(old(Abs()), 0, job)
      ensures |jobs| == |old(jobs)| && jobs[job].phase == Ended && !jobs[job].running && jobs[job].slotReleased
      ensures jobs[job].listed == old(jobs)[job].listed
      ensures forall j :: 0 <= j < |jobs| && j != job ==> jobs[j] == old(jobs)[j]
      ensures slots.taken == if old(jobs)[job].slotReleased then old(slots.taken) else old(slots.taken) - 1
    {
      ghost var before := jobs;
      jobs := jobs[job := jobs[job].(phase := Ended, running := false)];
      UpdateTwice(before, job, jobs[job], Finish(before[job]));
      ReleaseSlotLocked(job);
      assert jobs == before[job := Finish(before[job])];
    }

    /** `closes`: whether closing the transport works. */
    method Close(closes: bool) returns (clean: bool)
      modifies this`closed
      ensures Abs() == Next(old(Abs()), CloseStarts(0))
      ensures clean <==> closes && CloseIsClean(Abs().stores[0])
      ensures closed && (clean <==> closes && forall j :: j in jobs ==> j.listed ==> !j.running)
    {
      closed := true;
      clean := closes;
      for j := 0 to |jobs|
        invariant clean <==> closes && forall i :: 0 <= i < j ==> jobs[i].listed ==> !jobs[i].running
      {
        if jobs[j].listed && jobs[j].running {
          clean := false;
        }
      }
    }
  }
}
