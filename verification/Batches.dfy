/** The batch download coordinator: planned jobs, a bounded pool of fetches completing in any order,
    blocked interfaces, cancellation, interrupts and storage errors. */
module Batches {
  import opened Base

  type Api = nat
  type Job = nat

  datatype Status = Succeeded | Skipped | Failed | NotExecuted | Interrupted

  /** A report entry. Planned jobs have distinct partitions, so a job is its position in the plan. */
  datatype Task = Task(job: Job, status: Status)

  /** What resume finds for a job before anything is fetched. */
  datatype Lookup = Stored | Unregistered | Missing

  /** How a fetch ends: `Denied` is a permission or schema failure, `Unauthorized` an authentication one. */
  datatype Outcome = Fetched | Denied | Unauthorized | Broken | Cancelled

  /** What can break the coordinator out of its loop. */
  datatype Fault = KeyboardInterrupt | StorageError

  /** Everything the coordinator does not control: what is already stored, how each fetch ends, in which
      order fetches finish, when cancellation is seen and where a fault strikes. */
  datatype World = World(
    lookup: Job -> Lookup,
    outcome: Job -> Outcome,
    finished: (nat, set<Job>) -> seq<Job>,
    cancelledAtStart: bool,
    cancelled: nat -> bool,
    fault: nat -> Option<Fault>,
    collectionValid: bool)

  /** Something could have stopped the run early: a cancellation, a fault or a failed authentication. */
  ghost predicate CutShort(world: World) {
    || world.cancelledAtStart
    || (exists t: nat :: world.cancelled(t))
    || (exists t: nat :: world.fault(t).Some?)
    || (exists job: Job :: world.outcome(job) == Unauthorized)
  }

  /** Waiting on a nonempty pool gives back at least one of its fetches, each once. */
  ghost predicate Live(world: World) {
    forall t: nat, pool: set<Job> | pool != {} ::
      var done := world.finished(t, pool);
      && done != []
      && (forall i | 0 <= i < |done| :: done[i] in pool)
      && (forall i, j | 0 <= i < j < |done| :: done[i] != done[j])
  }

  /** The coordinator's variables. `index` holds the jobs with a registered artifact, `peak` the largest
      number of fetches ever in flight, `clock` counts the points where the world may intervene. */
  datatype Progress = Progress(
    next: nat, exhausted: bool, cancelled: bool, blocked: set<Api>, pending: set<Job>,
    tasks: seq<Task>, index: set<Job>, peak: nat, clock: nat)

  function Count(tasks: seq<Task>, job: Job): nat {
    if tasks == [] then 0
    else Count(tasks[..|tasks| - 1], job) + if tasks[|tasks| - 1].job == job then 1 else 0
  }

  predicate Good(status: Status) {
    status == Succeeded || status == Skipped
  }

  /** No job has two entries, or an entry while it is in flight; the pool is bounded; and a good entry is
      backed by a registered artifact. */
  ghost predicate Tidy(apis: seq<Api>, workers: nat, p: Progress) {
    && p.next <= |apis| && |p.pending| <= p.peak <= workers
    && (forall job | job in p.pending :: job < p.next && Count(p.tasks, job) == 0)
    && (forall job: Job :: Count(p.tasks, job) <= if job < p.next then 1 else 0)
    && (forall i | 0 <= i < |p.tasks| && Good(p.tasks[i].status) :: p.tasks[i].job in p.index)
  }

  /** Between steps nothing is lost either: every job taken is in flight or reported. */
  ghost predicate Settled(apis: seq<Api>, workers: nat, p: Progress) {
    && Tidy(apis, workers, p)
    && forall job | 0 <= job < p.next && job !in p.pending :: Count(p.tasks, job) == 1
  }

  /** Why an entry says what it says. */
  ghost predicate Explained(apis: seq<Api>, world: World, blocked: set<Api>, task: Task) {
    && task.job < |apis|
    && match task.status
       case Skipped => world.lookup(task.job) == Stored
       case Succeeded => world.lookup(task.job) == Unregistered || Ended(world, task.job, Fetched)
       case Failed => || Ended(world, task.job, Denied)
                      || Ended(world, task.job, Unauthorized)
                      || Ended(world, task.job, Broken)
       case Interrupted => Ended(world, task.job, Cancelled)
       case NotExecuted => apis[task.job] in blocked
  }

  /** A job that had to be fetched, and how the fetch ended. */
  ghost predicate Ended(world: World, job: Job, outcome: Outcome) {
    world.lookup(job) == Missing && world.outcome(job) == outcome
  }

  ghost predicate HasDenial(apis: seq<Api>, world: World, tasks: seq<Task>, api: Api) {
    exists i | 0 <= i < |tasks| ::
      tasks[i].job < |apis| && apis[tasks[i].job] == api && tasks[i].status == Failed
        && world.outcome(tasks[i].job) == Denied
  }

  /** Only what must be fetched is in flight, every entry is explained, an interface is blocked only by a
      reported denial, and the run is cancelled only for a cause. */
  ghost predicate Truthful(apis: seq<Api>, world: World, p: Progress) {
    && (p.cancelled ==> CutShort(world))
    && (forall job | job in p.pending :: world.lookup(job) == Missing)
    && (forall i | 0 <= i < |p.tasks| :: Explained(apis, world, p.blocked, p.tasks[i]))
    && (forall api | api in p.blocked :: HasDenial(apis, world, p.tasks, api))
  }

  /** Reporting one more entry, which may be the denial that blocks its own interface. */
  lemma ReportKeepsTruthful(apis: seq<Api>, world: World, p: Progress, pending: set<Job>, blocked: set<Api>, task: Task)
    requires Truthful(apis, world, p) && Explained(apis, world, blocked, task) && pending <= p.pending
    requires blocked == p.blocked
             || (blocked == p.blocked + {apis[task.job]} && task.status == Failed && world.outcome(task.job) == Denied)
    ensures forall q: Progress |
              q.pending == pending && q.blocked == blocked && q.tasks == p.tasks + [task]
                && (q.cancelled ==> CutShort(world)) ::
              Truthful(apis, world, q)
  {
    var tasks := p.tasks + [task];
    forall i | 0 <= i < |tasks|
      ensures Explained(apis, world, blocked, tasks[i])
    {
      if i < |p.tasks| {
        assert Explained(apis, world, p.blocked, p.tasks[i]);
      }
    }
    forall api | api in blocked
      ensures HasDenial(apis, world, tasks, api)
    {
      if api in p.blocked {
        var i :| 0 <= i < |p.tasks| && p.tasks[i].job < |apis| && apis[p.tasks[i].job] == api
                 && p.tasks[i].status == Failed && world.outcome(p.tasks[i].job) == Denied;
        assert tasks[i] == p.tasks[i];
      } else {
        assert tasks[|p.tasks|] == task;
      }
    }
  }

  lemma CountOneMore(tasks: seq<Task>, task: Task, job: Job)
    ensures Count(tasks + [task], job) == Count(tasks, job) + if task.job == job then 1 else 0
  {
    assert (tasks + [task])[..|tasks|] == tasks;
  }

  function Report(p: Progress, task: Task): Progress {
    p.(tasks := p.tasks + [task])
  }

  /** Reporting a job that left the pool, or never entered it, keeps the books. */
  lemma ReportKeepsTidy(apis: seq<Api>, workers: nat, p: Progress, task: Task)
    requires Tidy(apis, workers, p) && task.job < p.next && task.job !in p.pending && Count(p.tasks, task.job) == 0
    requires Good(task.status) ==> task.job in p.index
    ensures Tidy(apis, workers, Report(p, task)) && Count(Report(p, task).tasks, task.job) == 1
    ensures forall job: Job | job != task.job :: Count(Report(p, task).tasks, job) == Count(p.tasks, job)
  {
    forall job: Job
      ensures Count(p.tasks + [task], job) == Count(p.tasks, job) + if task.job == job then 1 else 0
    {
      CountOneMore(p.tasks, task, job);
    }
    hide Count;
  }

  /** The inner loop: hand out jobs until the pool is full, the plan is exhausted or cancellation is seen. */
  method TakeJobs(apis: seq<Api>, workers: nat, world: World, before: Progress)
    returns (p: Progress, fault: Option<Fault>)
    requires Settled(apis, workers, before) && Truthful(apis, world, before)
    ensures Tidy(apis, workers, p) && (if fault.None? then Settled(apis, workers, p) else CutShort(world))
    ensures Truthful(apis, world, p)
    ensures before.next <= p.next && before.tasks <= p.tasks
    ensures p.next == before.next ==> p.pending == before.pending
    ensures before.cancelled ==> p.cancelled && p.next == before.next && p.tasks == before.tasks
    ensures fault.None? ==> p.exhausted || p.cancelled || |p.pending| >= workers
    ensures p.exhausted ==> before.exhausted || p.next == |apis|
    ensures before.exhausted ==> p.exhausted
  {
    hide Count, Good, Explained, HasDenial, TakenAs;
    assert before.next <= |apis|;
    hide Tidy, Truthful;
    p, fault := before, None;
    while !p.exhausted && !p.cancelled && |p.pending| < workers
      invariant Settled(apis, workers, p) && Truthful(apis, world, p) && fault.None?
      invariant before.next <= p.next <= |apis| && before.tasks <= p.tasks
      invariant p.next == before.next ==> p.pending == before.pending
      invariant before.cancelled ==> p.cancelled && p.next == before.next && p.tasks == before.tasks
      invariant p.exhausted ==> before.exhausted || p.next == |apis|
      invariant before.exhausted ==> p.exhausted
      decreases |apis| - p.next, if p.exhausted then 0 else 1
    {
      if p.next == |apis| {
        ExhaustedKeepsBooks(apis, workers, world, p);
        p := p.(exhausted := true);
        break;
      }
      p, fault := TakeOne(apis, workers, world, p);
      if fault.Some? {
        return;
      }
    }
  }

  lemma Explain(apis: seq<Api>, world: World, blocked: set<Api>, job: Job, status: Status)
    requires job < |apis|
    requires match status
             case Skipped => world.lookup(job) == Stored
             case Succeeded => world.lookup(job) == Unregistered
             case NotExecuted => apis[job] in blocked
             case _ => false
    ensures Explained(apis, world, blocked, Task(job, status))
  {
  }

  lemma ExhaustedKeepsBooks(apis: seq<Api>, workers: nat, world: World, p: Progress)
    requires Settled(apis, workers, p) && Truthful(apis, world, p)
    ensures Settled(apis, workers, p.(exhausted := true)) && Truthful(apis, world, p.(exhausted := true))
  {
  }

  /** The coordinator after taking one more job, whatever else it saw meanwhile. */
  ghost predicate Took(before: Progress, p: Progress) {
    && p.next == before.next + 1 && p.tasks == before.tasks && p.pending == before.pending
      && p.blocked == before.blocked
    && p.peak == before.peak && before.index <= p.index
  }

  lemma SeenCancellation(world: World, t: nat)
    ensures world.cancelled(t) || world.fault(t).Some? ==> CutShort(world)
  {
  }

  lemma DeniedAccess(world: World, job: Job)
    ensures world.outcome(job) == Unauthorized ==> CutShort(world)
  {
  }

  lemma TookKeepsTidy(apis: seq<Api>, workers: nat, world: World, before: Progress, p: Progress)
    requires Settled(apis, workers, before) && Truthful(apis, world, before) && before.next < |apis| && Took(before, p)
    requires p.cancelled ==> CutShort(world)
    ensures Tidy(apis, workers, p) && Truthful(apis, world, p)
    ensures before.next !in p.pending && Count(p.tasks, before.next) == 0
  {
    hide Count, Explained, HasDenial, CutShort;
    assert Count(before.tasks, before.next) == 0;
  }

  lemma TookAndReported(apis: seq<Api>, workers: nat, world: World, before: Progress, p: Progress, status: Status)
    requires Settled(apis, workers, before) && Truthful(apis, world, before) && before.next < |apis| && Took(before, p)
    requires p.cancelled ==> CutShort(world)
    requires Explained(apis, world, p.blocked, Task(before.next, status))
    requires Good(status) ==> before.next in p.index
    ensures var q := Report(p, Task(before.next, status));
            Settled(apis, workers, q) && Truthful(apis, world, q)
  {
    hide Count, Explained, HasDenial, Good, CutShort;
    TookKeepsTidy(apis, workers, world, before, p);
    ReportKeepsTidy(apis, workers, p, Task(before.next, status));
    ReportKeepsTruthful(apis, world, p, p.pending, p.blocked, Task(before.next, status));
  }

  lemma TookAndPooled(apis: seq<Api>, workers: nat, world: World, before: Progress, p: Progress)
    requires Settled(apis, workers, before) && Truthful(apis, world, before) && before.next < |apis| && Took(before, p)
    requires p.cancelled ==> CutShort(world)
    requires |before.pending| < workers && world.lookup(before.next) == Missing
    ensures var q := p.(pending := p.pending + {before.next}, peak := Max(p.peak, |p.pending| + 1));
            Settled(apis, workers, q) && Truthful(apis, world, q)
  {
    hide Count, Explained, HasDenial, CutShort;
    TookKeepsTidy(apis, workers, world, before, p);
  }

  /** The next job of the plan. A fault can strike after it is taken and before it is reported or in flight. */
  /** The next job has this entry. */
  predicate Entered(before: Progress, p: Progress, status: Status) {
    p.tasks == before.tasks + [Task(before.next, status)] && p.pending == before.pending
  }

  /** A blocked interface comes before what is stored; what is stored is registered, and what is missing put in
      flight. */
  ghost predicate TakenAs(before: Progress, p: Progress, blocked: bool, found: Lookup) {
    if blocked then Entered(before, p, NotExecuted) && p.index == before.index
    else
      match found
      case Stored => Entered(before, p, Skipped) && p.index == before.index + {before.next}
      case Unregistered => Entered(before, p, Succeeded) && p.index == before.index + {before.next}
      case Missing =>
        p.tasks == before.tasks && p.pending == before.pending + {before.next} && p.index == before.index
  }

  /** A finished fetch blocks its interface on a denial, registers what it fetched and cancels when unauthorized;
      and nothing else does. */
  ghost predicate CollectedAs(before: Progress, p: Progress, api: Api, job: Job, outcome: Outcome) {
    && (if outcome == Denied then p.blocked == before.blocked + {api} else p.blocked == before.blocked)
    && (if outcome == Fetched then p.index == before.index + {job} else p.index == before.index)
    && p.cancelled == (before.cancelled || outcome == Unauthorized)
  }

  lemma ReportEnters(before: Progress, p: Progress, status: Status)
    requires p.tasks == before.tasks && p.pending == before.pending
    ensures var after := Report(p, Task(before.next, status));
            && Entered(before, after, status) && before.tasks <= after.tasks && after.pending == before.pending
            && after == p.(tasks := after.tasks)
  {
  }

  method TakeOne(apis: seq<Api>, workers: nat, world: World, before: Progress)
    returns (p: Progress, fault: Option<Fault>)
    requires Settled(apis, workers, before) && before.next < |apis| && |before.pending| < workers
    requires Truthful(apis, world, before)
    ensures Truthful(apis, world, p)
    ensures Tidy(apis, workers, p) && (if fault.None? then Settled(apis, workers, p) else CutShort(world))
    ensures p.next == before.next + 1 && before.tasks <= p.tasks && p.exhausted == before.exhausted
    ensures before.cancelled ==> p.cancelled
    ensures before.pending <= p.pending <= before.pending + {before.next}
    ensures apis[before.next] in before.blocked ==> p.pending == before.pending
    ensures before.next in p.pending ==> world.lookup(before.next) == Missing
    ensures p.cancelled == (before.cancelled || world.cancelled(before.clock)) && p.blocked == before.blocked
    ensures fault.None? ==> TakenAs(before, p, apis[before.next] in before.blocked, world.lookup(before.next))
  {
    assert before.cancelled ==> CutShort(world);
    hide Tidy, Truthful, Explained, CutShort, Entered, Report;
    var job := before.next;
    SeenCancellation(world, before.clock);
    p := before.(next := job + 1, clock := before.clock + 1,
                 cancelled := before.cancelled || world.cancelled(before.clock));
    TookKeepsTidy(apis, workers, world, before, p);
    fault := world.fault(before.clock);
    if fault.Some? {
      return;
    }
    if apis[job] in p.blocked {
      Explain(apis, world, p.blocked, job, NotExecuted);
      TookAndReported(apis, workers, world, before, p, NotExecuted);
      ReportEnters(before, p, NotExecuted);
      return Report(p, Task(job, NotExecuted)), None;
    }
    match world.lookup(job) {
      case Stored =>
        p := p.(index := p.index + {job});
        Explain(apis, world, p.blocked, job, Skipped);
        TookAndReported(apis, workers, world, before, p, Skipped);
        ReportEnters(before, p, Skipped);
        p := Report(p, Task(job, Skipped));
      case Unregistered =>
        p := p.(index := p.index + {job});
        Explain(apis, world, p.blocked, job, Succeeded);
        TookAndReported(apis, workers, world, before, p, Succeeded);
        ReportEnters(before, p, Succeeded);
        p := Report(p, Task(job, Succeeded));
      case Missing =>
        TookAndPooled(apis, workers, world, before, p);
        p := p.(pending := p.pending + {job}, peak := Max(p.peak, |p.pending| + 1));
    }
  }

  function StatusOf(outcome: Outcome): Status {
    match outcome
    case Fetched => Succeeded
    case Cancelled => Interrupted
    case _ => Failed
  }

  /** The coordinator after one fetch left the pool. */
  ghost predicate Collected(before: Progress, p: Progress, job: Job) {
    && p.next == before.next && p.tasks == before.tasks && p.pending == before.pending - {job}
    && p.peak == before.peak && before.index <= p.index
  }

  lemma CollectedKeepsTidy(apis: seq<Api>, workers: nat, before: Progress, p: Progress, job: Job)
    requires Tidy(apis, workers, before) && job in before.pending && Collected(before, p, job)
    ensures Tidy(apis, workers, p) && Count(p.tasks, job) == 0 && job < p.next
  {
    hide Count;
    assert |p.pending| <= |before.pending|;
  }

  lemma CollectedAndReported(apis: seq<Api>, workers: nat, world: World, before: Progress, p: Progress, job: Job)
    requires Settled(apis, workers, before) && Truthful(apis, world, before) && job in before.pending
             && Collected(before, p, job)
    requires p.cancelled ==> CutShort(world)
    requires p.blocked == if world.outcome(job) == Denied then before.blocked + {apis[job]} else before.blocked
    requires world.outcome(job) == Fetched ==> job in p.index
    ensures var q := Report(p, Task(job, StatusOf(world.outcome(job))));
            Settled(apis, workers, q) && Truthful(apis, world, q)
  {
    hide Count, HasDenial, CutShort;
    var status := StatusOf(world.outcome(job));
    CollectedKeepsTidy(apis, workers, before, p, job);
    assert Explained(apis, world, p.blocked, Task(job, status));
    hide Explained;
    ReportKeepsTidy(apis, workers, p, Task(job, status));
    ReportKeepsTruthful(apis, world, before, p.pending, p.blocked, Task(job, status));
    forall k | 0 <= k < p.next && k !in p.pending
      ensures Count(Report(p, Task(job, status)).tasks, k) == 1
    {
      assert k == job || k !in before.pending;
    }
  }

  lemma CollectedKeepsTruthful(apis: seq<Api>, world: World, before: Progress, p: Progress, job: Job)
    requires Truthful(apis, world, before) && Collected(before, p, job) && p.blocked == before.blocked
    requires p.cancelled ==> CutShort(world)
    ensures Truthful(apis, world, p)
  {
    hide Explained, HasDenial, CutShort;
  }

  /** The result of one finished fetch. A fault can strike after the fetch left the pool and before it is
      reported. */
  method CollectOne(apis: seq<Api>, workers: nat, world: World, before: Progress, job: Job)
    returns (p: Progress, fault: Option<Fault>)
    requires Settled(apis, workers, before) && job in before.pending
    requires Truthful(apis, world, before)
    ensures Truthful(apis, world, p)
    ensures Tidy(apis, workers, p) && (if fault.None? then Settled(apis, workers, p) else CutShort(world))
    ensures p.pending == before.pending - {job} && p.next == before.next && before.tasks <= p.tasks
    ensures p.exhausted == before.exhausted && (before.cancelled ==> p.cancelled)
    ensures fault.None? ==> p.tasks == before.tasks + [Task(job, StatusOf(world.outcome(job)))]
    ensures fault.None? ==> job < |apis| && CollectedAs(before, p, apis[job], job, world.outcome(job))
  {
    assert before.cancelled ==> CutShort(world);
    assert job < |apis|;
    hide Tidy, Truthful, CutShort;
    var outcome := world.outcome(job);
    p := before.(pending := before.pending - {job}, clock := before.clock + 1);
    fault := world.fault(before.clock);
    SeenCancellation(world, before.clock);
    DeniedAccess(world, job);
    if fault.Some? {
      CollectedKeepsTidy(apis, workers, before, p, job);
      CollectedKeepsTruthful(apis, world, before, p, job);
      return;
    }
    if outcome == Fetched {
      p := p.(index := p.index + {job});
    }
    if outcome == Denied {
      p := p.(blocked := p.blocked + {apis[job]});
    }
    if outcome == Unauthorized {
      p := p.(cancelled := true);
    }
    CollectedAndReported(apis, workers, world, before, p, job);
    p := Report(p, Task(job, StatusOf(outcome)));
  }

  lemma ProperSubsetIsSmaller(small: set<Job>, large: set<Job>)
    requires small < large
    ensures |small| < |large|
  {
    assert large == small + (large - small);
  }

  method Collect(apis: seq<Api>, workers: nat, world: World, before: Progress)
    returns (p: Progress, fault: Option<Fault>)
    requires Settled(apis, workers, before) && before.pending != {} && Live(world)
    requires Truthful(apis, world, before)
    ensures Truthful(apis, world, p)
    ensures Tidy(apis, workers, p) && (if fault.None? then Settled(apis, workers, p) else CutShort(world))
    ensures p.next == before.next && before.tasks <= p.tasks && p.exhausted == before.exhausted
    ensures p.pending < before.pending && |p.pending| < |before.pending| && (before.cancelled ==> p.cancelled)
  {
    var done := world.finished(before.clock, before.pending);
    hide Tidy, Truthful, CollectedAs;
    p, fault := before.(clock := before.clock + 1), None;
    ClockKeepsBooks(apis, workers, world, before, p);
    for i := 0 to |done|
      invariant Settled(apis, workers, p) && Truthful(apis, world, p) && fault.None?
      invariant p.next == before.next && before.tasks <= p.tasks && p.exhausted == before.exhausted
      invariant before.cancelled ==> p.cancelled
      invariant p.pending == before.pending - set k | 0 <= k < i :: done[k]
    {
      assert done[i] in p.pending;
      p, fault := CollectOne(apis, workers, world, p, done[i]);
      if fault.Some? {
        assert done[i] in before.pending && done[i] !in p.pending;
        ProperSubsetIsSmaller(p.pending, before.pending);
        return;
      }
    }
    assert done[0] in before.pending && done[0] !in p.pending;
    ProperSubsetIsSmaller(p.pending, before.pending);
  }

  lemma ClockKeepsBooks(apis: seq<Api>, workers: nat, world: World, before: Progress, p: Progress)
    requires Settled(apis, workers, before) && Truthful(apis, world, before) && p == before.(clock := p.clock)
    ensures Settled(apis, workers, p) && Truthful(apis, world, p)
  {
    hide Count, Explained, HasDenial, CutShort;
  }

  /** The interrupt handler waits for every fetch in flight and reports it, unless a second fault strikes. */
  /** The entry that says how the fetch of a job ended. */
  function TrueTask(world: World, job: Job): Task {
    Task(job, StatusOf(world.outcome(job)))
  }

  method Drain(apis: seq<Api>, workers: nat, world: World, before: Progress) returns (p: Progress, fault: Option<Fault>)
    requires Tidy(apis, workers, before) && Truthful(apis, world, before)
    ensures Truthful(apis, world, p)
    ensures fault.None? ==> p.pending == {} && forall job | job in before.pending :: Count(p.tasks, job) == 1
    ensures Tidy(apis, workers, p) && p.next == before.next && before.tasks <= p.tasks
    ensures p.blocked == before.blocked && p.cancelled == before.cancelled
    ensures fault.None? ==> forall job | job in before.pending :: TrueTask(world, job) in p.tasks
  {
    hide Tidy, Truthful, Count;
    p, fault := before, None;
    while p.pending != {}
      invariant Tidy(apis, workers, p) && Truthful(apis, world, p) && fault.None?
      invariant p.next == before.next && before.tasks <= p.tasks && p.pending <= before.pending
      invariant p.blocked == before.blocked && p.cancelled == before.cancelled
      invariant forall job | job in before.pending && job !in p.pending :: Count(p.tasks, job) == 1
      invariant forall job | job in before.pending && job !in p.pending :: TrueTask(world, job) in p.tasks
      decreases |p.pending|
    {
      var job :| job in p.pending;
      ghost var pool := p;
      p := p.(pending := p.pending - {job}, clock := p.clock + 1);
      fault := world.fault(p.clock);
      DrainedKeepsBooks(apis, workers, world, pool, p, job);
      if fault.Some? {
        return;
      }
      if world.outcome(job) == Fetched {
        p := p.(index := p.index + {job});
      }
      DrainedAndReported(apis, workers, world, pool, p, job);
      p := Report(p, Task(job, StatusOf(world.outcome(job))));
    }
  }

  lemma DrainedKeepsBooks(apis: seq<Api>, workers: nat, world: World, before: Progress, p: Progress, job: Job)
    requires Tidy(apis, workers, before) && Truthful(apis, world, before) && job in before.pending
    requires Collected(before, p, job) && p.blocked == before.blocked && p.cancelled == before.cancelled
    ensures Tidy(apis, workers, p) && Truthful(apis, world, p)
  {
    CollectedKeepsTidy(apis, workers, before, p, job);
    CollectedKeepsTruthful(apis, world, before, p, job);
  }

  lemma DrainedAndReported(apis: seq<Api>, workers: nat, world: World, before: Progress, p: Progress, job: Job)
    requires Tidy(apis, workers, before) && Truthful(apis, world, before) && job in before.pending
    requires Collected(before, p, job) && p.blocked == before.blocked && p.cancelled == before.cancelled
    requires world.outcome(job) == Fetched ==> job in p.index
    ensures var q := Report(p, Task(job, StatusOf(world.outcome(job))));
            && Tidy(apis, workers, q) && Truthful(apis, world, q) && Count(q.tasks, job) == 1
            && forall other: Job | other != job :: Count(q.tasks, other) == Count(p.tasks, other)
  {
    hide Count, HasDenial, CutShort;
    var task := Task(job, StatusOf(world.outcome(job)));
    CollectedKeepsTidy(apis, workers, before, p, job);
    assert Explained(apis, world, p.blocked, task);
    hide Explained;
    ReportKeepsTidy(apis, workers, p, task);
    ReportKeepsTruthful(apis, world, before, p.pending, p.blocked, task);
  }

  /** Every planned job without an entry is reported as interrupted. */
  method ReportMissing(apis: seq<Api>, workers: nat, before: Progress) returns (p: Progress)
    requires Tidy(apis, workers, before)
    ensures Tidy(apis, workers, p) && before.tasks <= p.tasks && p.peak == before.peak && p.index == before.index
    ensures forall job | 0 <= job < |apis| :: Count(p.tasks, job) == 1
    ensures forall job: Job | job >= |apis| :: Count(p.tasks, job) == 0
    ensures forall i | |before.tasks| <= i < |p.tasks| :: p.tasks[i].status == Interrupted
    ensures (forall job | 0 <= job < |apis| :: Count(before.tasks, job) == 1) ==> p.tasks == before.tasks
  {
    hide Count;
    p := before.(pending := {}, next := |apis|);
    for job := 0 to |apis|
      invariant Tidy(apis, workers, p) && p.pending == {} && p.next == |apis|
      invariant before.tasks <= p.tasks && p.peak == before.peak && p.index == before.index
      invariant forall k | 0 <= k < job :: Count(p.tasks, k) == 1
      invariant forall i | |before.tasks| <= i < |p.tasks| :: p.tasks[i].status == Interrupted
      invariant (forall k | 0 <= k < |apis| :: Count(before.tasks, k) == 1) ==> p.tasks == before.tasks
    {
      if Count(p.tasks, job) == 0 {
        ReportKeepsTidy(apis, workers, p, Task(job, Interrupted));
        p := Report(p, Task(job, Interrupted));
      }
    }
  }

  /** The pool loop: fill, then wait, until the pool is empty and the plan is exhausted. */
  method RunPool(apis: seq<Api>, workers: nat, world: World, index: set<Job>)
    returns (p: Progress, fault: Option<Fault>)
    requires workers >= 1 && Live(world)
    ensures Tidy(apis, workers, p) && Truthful(apis, world, p) && (fault.Some? ==> CutShort(world))
    ensures fault.None? && !p.cancelled ==> forall job | 0 <= job < |apis| :: Count(p.tasks, job) == 1
  {
    p := Progress(0, false, world.cancelledAtStart, {}, {}, [], index, 0, 0);
    hide Count, Live;
    fault := None;
    while p.pending != {} || !p.exhausted
      invariant Settled(apis, workers, p) && Truthful(apis, world, p) && fault.None?
      invariant p.exhausted && !p.cancelled ==> p.next == |apis|
      decreases if p.exhausted then 0 else 1, |apis| - p.next, |p.pending|
    {
      ghost var start := p;
      p, fault := TakeJobs(apis, workers, world, p);
      if fault.Some? {
        return;
      }
      if p.cancelled {
        ExhaustedKeepsBooks(apis, workers, world, p);
        p := p.(exhausted := true);
      }
      if p.pending != {} {
        p, fault := Collect(apis, workers, world, p);
        if fault.Some? {
          return;
        }
      }
    }
  }

  /** The final report of a batch run. `others` are the entries of the calendar and the security list;
      `cut` says that the run was cancelled or broken off. */
  datatype BatchReport = BatchReport(
    tasks: seq<Task>, others: seq<Status>, complete: bool, index: set<Job>, peak: nat, blocked: set<Api>, cut: bool)

  ghost predicate AllGood(report: BatchReport) {
    && (forall i | 0 <= i < |report.tasks| :: Good(report.tasks[i].status))
    && (forall i | 0 <= i < |report.others| :: Good(report.others[i]))
  }

  /** A run after planning, from any stored collection, under any order of completion, blocking,
      cancellation, interrupt or storage error: exactly one entry per planned job, never more than
      `workers` fetches in flight, and complete exactly when every entry is good and the collection
      validates, in which case every planned job has a registered artifact. */
  method RunBatch(apis: seq<Api>, workers: nat, world: World, index: set<Job>, dependencies: seq<Status>)
    returns (report: BatchReport, ghost broke: Progress, ghost fault: Option<Fault>, ghost second: Option<Fault>)
    requires workers >= 1 && Live(world) && dependencies != []
    ensures forall job | 0 <= job < |apis| :: Count(report.tasks, job) == 1
    ensures forall job: Job | job >= |apis| :: Count(report.tasks, job) == 0
    ensures report.peak <= workers
    ensures forall i | 0 <= i < |report.tasks| ::
              Explained(apis, world, report.blocked, report.tasks[i])
              || (report.cut && report.tasks[i].status == Interrupted)
    ensures forall api | api in report.blocked :: HasDenial(apis, world, report.tasks, api)
    ensures report.cut ==> CutShort(world)
    ensures dependencies <= report.others && (!report.cut && world.collectionValid ==> report.others == dependencies)
    ensures report.complete <==> AllGood(report)
    ensures broke.tasks <= report.tasks
    ensures fault == Some(KeyboardInterrupt) && second.None? ==>
              forall job | job in broke.pending :: TrueTask(world, job) in report.tasks
    ensures report.complete ==> world.collectionValid && forall job | 0 <= job < |apis| :: job in report.index
  {
    var p, ended := RunPool(apis, workers, world, index);
    broke, fault, second := p, ended, None;
    if ended == Some(KeyboardInterrupt) {
      var again;
      p, again := Drain(apis, workers, world, p);
      second := again;
      ended := if again.Some? then again else ended;
    }
    var others := dependencies + if ended == Some(StorageError) then [Failed] else [];
    var pool := p;
    p := ReportMissing(apis, workers, p);
    ExplainedOrCut(apis, world, pool, p);
    var complete :=
      && (forall i | 0 <= i < |p.tasks| :: Good(p.tasks[i].status))
      && (forall i | 0 <= i < |others| :: Good(others[i]));
    if complete && !world.collectionValid {
      complete := false;
      others := others + [Failed];
      assert others[|others| - 1] == Failed;
    }
    report := BatchReport(p.tasks, others, complete, p.index, p.peak, pool.blocked, ended.Some? || pool.cancelled);
    forall job | 0 <= job < |apis| && complete
      ensures job in p.index
    {
      var i := Find(p.tasks, job);
    }
  }

  lemma ExplainedOrCut(apis: seq<Api>, world: World, pool: Progress, p: Progress)
    requires Truthful(apis, world, pool) && pool.tasks <= p.tasks
    requires forall i | |pool.tasks| <= i < |p.tasks| :: p.tasks[i].status == Interrupted
    ensures forall i | 0 <= i < |p.tasks| ::
              Explained(apis, world, pool.blocked, p.tasks[i])
                || (i >= |pool.tasks| && p.tasks[i].status == Interrupted)
    ensures forall api | api in pool.blocked :: HasDenial(apis, world, p.tasks, api)
  {
    hide Explained;
    assert forall i | 0 <= i < |pool.tasks| :: p.tasks[i] == pool.tasks[i];
  }

  lemma {:induction false} Find(tasks: seq<Task>, job: Job) returns (i: nat)
    requires Count(tasks, job) > 0
    ensures i < |tasks| && tasks[i].job == job
  {
    if tasks[|tasks| - 1].job == job {
      i := |tasks| - 1;
    } else {
      i := Find(tasks[..|tasks| - 1], job);
    }
  }
}
