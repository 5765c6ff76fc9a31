/** Optimization trials: checkpointed evaluation in any completion order, crash and resume, the best
    trial, and merging of sharded studies. */
module Trials {
  import opened Base

  type Name = string
  type Hash = nat
  type Metrics = map<Name, real>

  datatype Operator = Greater | AtLeast | Less | AtMost | Exactly
  datatype Constraint = Constraint(metric: Name, operator: Operator, value: real)
  datatype Spec = Spec(metric: Name, maximize: bool, constraints: seq<Constraint>)

  datatype Status = Succeeded | Ineligible | Failed
  datatype Trial = Trial(id: Id, metrics: Metrics, status: Status, hash: Option<Hash>)
  datatype Artifact = Artifact(metrics: Metrics, hash: Hash)

  predicate Accepts(c: Constraint, metrics: Metrics) {
    c.metric in metrics
    && match c.operator
       case Greater => metrics[c.metric] > c.value
       case AtLeast => metrics[c.metric] >= c.value
       case Less => metrics[c.metric] < c.value
       case AtMost => metrics[c.metric] <= c.value
       case Exactly => metrics[c.metric] == c.value
  }

  predicate Rejected(spec: Spec, metrics: Metrics) {
    spec.metric !in metrics || exists i | 0 <= i < |spec.constraints| :: !Accepts(spec.constraints[i], metrics)
  }

  function Judge(spec: Spec, id: Id, metrics: Metrics, hash: Option<Hash>): Trial {
    Trial(id, metrics, if Rejected(spec, metrics) then Ineligible else Succeeded, hash)
  }

  /** What a trial comes to, whatever its artifact hashes to: `None` stands for an evaluation that raises. */
  predicate Settles(spec: Spec, world: Id -> Option<Metrics>, trial: Trial) {
    match world(trial.id)
    case None => trial == FailedTrial(trial.id)
    case Some(metrics) => trial.hash.Some? && trial == Judge(spec, trial.id, metrics, trial.hash)
  }

  /** A worker publishing its artifact, the coordinator saving a finished future, or a worker process dying
      so that its future raises. A worker's artifact can be on disk long before its result is saved. */
  datatype Event = Evaluated(id: Id, hash: Hash) | Saved(id: Id) | WorkerDied(id: Id)

  function FailedTrial(id: Id): Trial {
    Trial(id, map[], Failed, None)
  }

  ghost predicate Ran(events: seq<Event>, k: nat, id: Id)
    requires k <= |events|
  {
    exists i | 0 <= i < k :: events[i].Evaluated? && events[i].id == id
  }

  /** Among the first k events, a worker finished the job and the coordinator saved it afterwards. */
  ghost predicate SavedAfter(events: seq<Event>, k: nat, id: Id)
    requires k <= |events|
  {
    exists j | 0 <= j < k :: events[j] == Saved(id) && Ran(events, j, id)
  }

  ghost predicate Lost(events: seq<Event>, k: nat, id: Id)
    requires k <= |events|
  {
    exists j | 0 <= j < k :: events[j] == WorkerDied(id)
  }

  /** Among the first k events, its worker died before its result was saved. */
  ghost predicate LostFirst(events: seq<Event>, k: nat, id: Id)
    requires k <= |events|
  {
    exists j | 0 <= j < k :: events[j] == WorkerDied(id) && !SavedAfter(events, j, id)
  }

  lemma NoEventYet(events: seq<Event>)
    ensures forall id :: !Ran(events, 0, id) && !SavedAfter(events, 0, id) && !Lost(events, 0, id)
    ensures forall id :: !LostFirst(events, 0, id)
  {
  }

  /** A worker that died and was never saved died first. */
  lemma LostWithoutSaving(events: seq<Event>, k: nat, id: Id)
    requires k <= |events| && Lost(events, k, id) && !SavedAfter(events, k, id)
    ensures LostFirst(events, k, id)
  {
    hide Ran;
    var j :| 0 <= j < k && events[j] == WorkerDied(id);
    assert !SavedAfter(events, j, id);
  }

  lemma OneMoreLostFirst(events: seq<Event>, k: nat, id: Id)
    requires k < |events|
    ensures LostFirst(events, k + 1, id)
            <==> LostFirst(events, k, id) || (events[k] == WorkerDied(id) && !SavedAfter(events, k, id))
  {
    hide SavedAfter;
    if LostFirst(events, k + 1, id) {
      var j :| 0 <= j < k + 1 && events[j] == WorkerDied(id) && !SavedAfter(events, j, id);
      assert j < k ==> LostFirst(events, k, id);
    }
    if LostFirst(events, k, id) {
      var j :| 0 <= j < k && events[j] == WorkerDied(id) && !SavedAfter(events, j, id);
      assert 0 <= j < k + 1 && events[j] == WorkerDied(id) && !SavedAfter(events, j, id);
    }
  }

  lemma OneMoreEvent(events: seq<Event>, k: nat)
    requires k < |events|
    ensures forall id :: Ran(events, k + 1, id) <==> Ran(events, k, id) || (events[k].Evaluated? && events[k].id == id)
    ensures forall id ::
              SavedAfter(events, k + 1, id)
              <==> SavedAfter(events, k, id) || (events[k] == Saved(id) && Ran(events, k, id))
    ensures forall id :: Lost(events, k + 1, id) <==> Lost(events, k, id) || events[k] == WorkerDied(id)
    ensures forall id ::
              LostFirst(events, k + 1, id)
              <==> LostFirst(events, k, id) || (events[k] == WorkerDied(id) && !SavedAfter(events, k, id))
  {
    forall id
      ensures LostFirst(events, k + 1, id)
              <==> LostFirst(events, k, id) || (events[k] == WorkerDied(id) && !SavedAfter(events, k, id))
    {
      OneMoreLostFirst(events, k, id);
    }
    forall id
      ensures Ran(events, k + 1, id) <==> Ran(events, k, id) || (events[k].Evaluated? && events[k].id == id)
    {
      OneMoreEvaluated(events, k, id);
    }
    forall id
      ensures SavedAfter(events, k + 1, id)
              <==> SavedAfter(events, k, id) || (events[k] == Saved(id) && Ran(events, k, id))
    {
      OneMoreSaved(events, k, id);
    }
    forall id
      ensures Lost(events, k + 1, id) <==> Lost(events, k, id) || events[k] == WorkerDied(id)
    {
      OneMoreLost(events, k, id);
    }
  }

  lemma OneMoreEvaluated(events: seq<Event>, k: nat, id: Id)
    requires k < |events|
    ensures Ran(events, k + 1, id) <==> Ran(events, k, id) || (events[k].Evaluated? && events[k].id == id)
  {
    if Ran(events, k + 1, id) {
      var i :| 0 <= i < k + 1 && events[i].Evaluated? && events[i].id == id;
      assert i < k ==> Ran(events, k, id);
    }
    if Ran(events, k, id) {
      var i :| 0 <= i < k && events[i].Evaluated? && events[i].id == id;
      assert 0 <= i < k + 1 && events[i].Evaluated? && events[i].id == id;
    }
  }

  lemma OneMoreSaved(events: seq<Event>, k: nat, id: Id)
    requires k < |events|
    ensures SavedAfter(events, k + 1, id)
            <==> SavedAfter(events, k, id) || (events[k] == Saved(id) && Ran(events, k, id))
  {
    hide Ran;
    if SavedAfter(events, k + 1, id) {
      var j :| 0 <= j < k + 1 && events[j] == Saved(id) && Ran(events, j, id);
      assert j < k ==> SavedAfter(events, k, id);
    }
    if SavedAfter(events, k, id) {
      var j :| 0 <= j < k && events[j] == Saved(id) && Ran(events, j, id);
      assert 0 <= j < k + 1 && events[j] == Saved(id) && Ran(events, j, id);
    }
  }

  lemma OneMoreLost(events: seq<Event>, k: nat, id: Id)
    requires k < |events|
    ensures Lost(events, k + 1, id) <==> Lost(events, k, id) || events[k] == WorkerDied(id)
  {
    if Lost(events, k + 1, id) {
      var j :| 0 <= j < k + 1 && events[j] == WorkerDied(id);
      assert j < k ==> Lost(events, k, id);
    }
    if Lost(events, k, id) {
      var j :| 0 <= j < k && events[j] == WorkerDied(id);
      assert 0 <= j < k + 1 && events[j] == WorkerDied(id);
    }
  }

  /** `Cut` is a process that stops before every result is saved. */
  datatype Ending = Finished(results: seq<Trial>) | Cut | Raised(code: string)

  ghost predicate Distinct(ids: seq<Id>) {
    forall i, j | 0 <= i < j < |ids| :: ids[i] != ids[j]
  }

  /** The results of a finished process: for each job the verdict of a plain evaluation, or a failure because
      its worker died in that process. */
  ghost predicate Verdicts(
    spec: Spec, world: Id -> Option<Metrics>, jobs: seq<Id>, events: seq<Event>, results: seq<Trial>)
  {
    && |results| == |jobs|
    && forall i | 0 <= i < |jobs| ::
         && results[i].id == jobs[i]
         && (Settles(spec, world, results[i])
             || (LostFirst(events, |events|, jobs[i]) && results[i] == FailedTrial(jobs[i])))
  }

  class Study {
    var artifacts: map<Id, Artifact>
    var checkpoint: map<Id, Trial>
    const spec: Spec
    const world: Id -> Option<Metrics>

    /** A new study: no artifact on disk and no checkpoint. */
    constructor (spec: Spec, world: Id -> Option<Metrics>)
      ensures this.spec == spec && this.world == world && artifacts == map[] && checkpoint == map[] && Sound()
    {
      this.spec, this.world := spec, world;
      artifacts, checkpoint := map[], map[];
    }

    /** Artifacts hold what the evaluator computes. */
    ghost predicate Truthful()
      reads this`artifacts
    {
      forall id | id in artifacts :: world(id) == Some(artifacts[id].metrics)
    }

    /** And a completed checkpoint entry has its artifact. */
    ghost predicate Sound()
      reads this
    {
      && Truthful()
      && Saveable(checkpoint)
    }

    /** The two states a resume refuses: an artifact that is not the recorded one, or a recorded one missing. */
    predicate Conflicts(id: Id)
      reads this
    {
      if id in artifacts then
        id in checkpoint && checkpoint[id].hash.Some? && checkpoint[id].hash != Some(artifacts[id].hash)
      else
        id in checkpoint && !checkpoint[id].status.Failed?
    }

    lemma SoundNeverConflicts(jobs: seq<Id>)
      ensures Sound() ==> forall i | 0 <= i < |jobs| :: !Conflicts(jobs[i])
    {
    }

    /** What is already on disk before the workers start. */
    method Recover(jobs: seq<Id>) returns (results: map<Id, Trial>, pending: set<Id>, refused: bool)
      ensures refused <==> exists i | 0 <= i < |jobs| :: Conflicts(jobs[i])
      ensures !refused ==> pending == set id | id in jobs && id !in artifacts
      ensures !refused ==> results == map id | id in jobs && id in artifacts ::
                                        Judge(spec, id, artifacts[id].metrics, Some(artifacts[id].hash))
    {
      results, pending, refused := map[], {}, false;
      for i := 0 to |jobs|
        invariant forall k | 0 <= k < i :: !Conflicts(jobs[k])
        invariant pending == set id | id in jobs[..i] && id !in artifacts
        invariant results == map id | id in jobs[..i] && id in artifacts ::
                                      Judge(spec, id, artifacts[id].metrics, Some(artifacts[id].hash))
      {
        var id := jobs[i];
        assert jobs[..i + 1] == jobs[..i] + [id];
        if Conflicts(id) {
          return results, pending, true;
        }
        if id in artifacts {
          results := results[id := Judge(spec, id, artifacts[id].metrics, Some(artifacts[id].hash))];
        } else {
          pending := pending + {id};
        }
      }
      assert jobs[..|jobs|] == jobs;
    }

    /** A result the checkpoint may hold for a job. */
    ghost predicate Saves(id: Id, trial: Trial)
      reads this`artifacts
    {
      && trial.id == id && (Settles(spec, world, trial) || trial == FailedTrial(id))
      && (!trial.status.Failed? ==> id in artifacts && trial.hash == Some(artifacts[id].hash))
    }

    ghost predicate Saveable(results: map<Id, Trial>)
      reads this`artifacts
    {
      forall id | id in results :: Saves(id, results[id])
    }

    lemma RecoveredAreSaveable(results: map<Id, Trial>)
      requires forall id | id in results :: id in artifacts
                 && results[id] == Judge(spec, id, artifacts[id].metrics, Some(artifacts[id].hash))
      ensures Truthful() ==> Saveable(results) && forall id | id in results :: Settles(spec, world, results[id])
    {
    }

    /** One process, from start to its last event. It refuses exactly the conflicting studies, which a
        sound one never is. Whatever the order of events and wherever it is cut, the study stays sound and
        no artifact is lost or replaced. It finishes once every job without an artifact was saved or lost its
        worker, and then every job has exactly the verdict a plain evaluation gives, or failed because its
        worker died. */
    method RunTrials(jobs: seq<Id>, events: seq<Event>) returns (ending: Ending)
      requires Distinct(jobs)
      modifies this
      ensures ending.Raised? <==> old(exists i | 0 <= i < |jobs| :: Conflicts(jobs[i]))
      ensures old(Sound()) ==> Sound() && !ending.Raised?
      ensures forall id | id in old(artifacts) :: id in artifacts && artifacts[id] == old(artifacts)[id]
      ensures forall id | id in artifacts && id !in old(artifacts) :: id in jobs
      ensures !ending.Raised? ==>
                forall id | id in jobs && world(id).Some? && Ran(events, |events|, id) :: id in artifacts
      ensures old(Sound()) && ending.Finished? ==> Verdicts(spec, world, jobs, events, ending.results)
      ensures !ending.Raised? ==>
                forall id :: id in checkpoint <==>
                  id in jobs && (id in old(artifacts) || SavedAfter(events, |events|, id) || Lost(events, |events|, id))
      ensures !ending.Raised? ==>
                forall id | id in jobs && id !in old(artifacts) && LostFirst(events, |events|, id) ::
                  id in checkpoint && checkpoint[id] == FailedTrial(id)
      ensures ending.Finished? ==>
                checkpoint.Keys == (set id | id in jobs)
                && forall i | 0 <= i < |jobs| :: i < |ending.results| && checkpoint[jobs[i]] == ending.results[i]
      ensures ending.Cut? ==>
                exists id :: id in jobs && id !in checkpoint && id !in old(artifacts)
                             && !SavedAfter(events, |events|, id) && !Lost(events, |events|, id)
    {
      SoundNeverConflicts(jobs);
      var results, pending, refused := Recover(jobs);
      if refused {
        return Raised("OPT_RESULT_INVALID");
      }
      RecoveredAreSaveable(results);
      results := Work(jobs, events, results, pending);
      hide Settles, Saveable, Ran, SavedAfter, Lost, LostFirst;
      if exists i | 0 <= i < |jobs| :: jobs[i] !in results {
        return Cut;
      }
      ending := Finished(seq(|jobs|, i requires 0 <= i < |jobs| && jobs[i] in results => results[jobs[i]]));
    }

    lemma FailureSaves(id: Id)
      ensures Saves(id, FailedTrial(id))
    {
    }

    /** The workers and the coordinator, event by event. */
    method Work(jobs: seq<Id>, events: seq<Event>, recovered: map<Id, Trial>, pending: set<Id>)
      returns (results: map<Id, Trial>)
      requires pending == set id | id in jobs && id !in artifacts
      requires recovered.Keys == set id | id in jobs && id in artifacts
      requires Truthful() ==> Saveable(recovered) && forall id | id in recovered :: Settles(spec, world, recovered[id])
      modifies this
      ensures old(Truthful()) ==>
                Truthful() && Saveable(results)
                && forall id | id in results && !LostFirst(events, |events|, id) :: Settles(spec, world, results[id])
      ensures checkpoint == results
      ensures forall id | id in pending && LostFirst(events, |events|, id) ::
                id in results && results[id] == FailedTrial(id)
      ensures forall id | id in pending && (SavedAfter(events, |events|, id) || Lost(events, |events|, id)) ::
                id in results
      ensures forall id | id in results && id !in recovered ::
                SavedAfter(events, |events|, id) || Lost(events, |events|, id)
      ensures recovered.Keys <= results.Keys <= (set id | id in jobs)
      ensures forall id | id in old(artifacts) :: id in artifacts && artifacts[id] == old(artifacts)[id]
      ensures forall id | id in artifacts && id !in old(artifacts) :: id in pending
      ensures forall id | id in pending && world(id).Some? && Ran(events, |events|, id) :: id in artifacts
    {
      hide Settles, Judge, Ran, SavedAfter, Lost, LostFirst, Rejected, Saves, Truthful;
      NoEventYet(events);
      results := recovered;
      checkpoint := results;
      var futures: map<Id, Trial> := map[];
      for k := 0 to |events|
        invariant old(Truthful()) ==> Truthful() && Saveable(results) && Saveable(futures)
        invariant forall id | id in futures :: Settles(spec, world, futures[id])
        invariant old(Truthful()) ==> forall id | id in results && !LostFirst(events, k, id) ::
                    Settles(spec, world, results[id])
        invariant forall id | id in pending && LostFirst(events, k, id) ::
                    id in results && results[id] == FailedTrial(id)
        invariant checkpoint == results
        invariant forall id | id in old(artifacts) :: id in artifacts && artifacts[id] == old(artifacts)[id]
        invariant forall id | id in artifacts && id !in old(artifacts) :: id in futures
        invariant futures.Keys <= pending
        invariant forall id | id in pending && Ran(events, k, id) :: id in futures
        invariant forall id | id in futures && world(id).Some? :: id in artifacts
        invariant forall id | id in pending && (SavedAfter(events, k, id) || Lost(events, k, id)) :: id in results
        invariant recovered.Keys <= results.Keys <= recovered.Keys + pending
        invariant forall id | id in futures :: Ran(events, k, id)
        invariant forall id | id in results && id !in recovered :: SavedAfter(events, k, id) || Lost(events, k, id)
      {
        OneMoreEvent(events, k);
        match events[k] {
          case Evaluated(id, hash) =>
            if id in pending && id !in futures {
              var trial := Evaluate(id, hash);
              futures := futures[id := trial];
            }
          case Saved(id) =>
            if id in futures && id !in results {
              results := results[id := futures[id]];
              checkpoint := results;
            }
          case WorkerDied(id) =>
            if Lost(events, k, id) && !SavedAfter(events, k, id) {
              LostWithoutSaving(events, k, id);
            }
            if id in pending && id !in results {
              FailureSaves(id);
              results := results[id := FailedTrial(id)];
              checkpoint := results;
            }
        }
      }
    }

    method Evaluate(id: Id, hash: Hash) returns (trial: Trial)
      requires id !in artifacts
      modifies this`artifacts
      ensures Settles(spec, world, trial) && Saves(id, trial) && (old(Truthful()) ==> Truthful())
      ensures forall x, t :: old(Saves(x, t)) ==> Saves(x, t)
      ensures artifacts == if world(id).Some? then old(artifacts)[id := Artifact(world(id).value, hash)]
              else old(artifacts)
    {
      if world(id).None? {
        return FailedTrial(id);
      }
      artifacts := artifacts[id := Artifact(world(id).value, hash)];
      trial := Judge(spec, id, world(id).value, Some(hash));
    }
  }

  /** At the end of process k of a history, a job needs nothing more: its result was saved, its worker died,
      or an earlier process already left its artifact. */
  ghost predicate Settled(history: seq<seq<Event>>, world: Id -> Option<Metrics>, k: nat, id: Id)
    requires k < |history|
  {
    || SavedAfter(history[k], |history[k]|, id)
    || Lost(history[k], |history[k]|, id)
    || (world(id).Some? && exists i | 0 <= i < k :: Ran(history[i], |history[i]|, id))
  }

  ghost predicate Unfinished(history: seq<seq<Event>>, world: Id -> Option<Metrics>, k: nat, jobs: seq<Id>)
    requires k < |history|
  {
    exists id :: id in jobs && !Settled(history, world, k, id)
  }

  /** Any history of processes, each resuming the last, until one finishes. It does finish as soon as some
      process leaves no job unsettled, and then the results are the verdicts of a plain evaluation, except
      for workers that died in that last process. */
  method ResumeUntilDone(spec: Spec, world: Id -> Option<Metrics>, jobs: seq<Id>, history: seq<seq<Event>>)
    returns (ending: Ending, last: nat)
    requires Distinct(jobs)
    ensures !ending.Raised?
    ensures ending.Cut? ==>
              forall k | 0 <= k < |history| :: Unfinished(history, world, k, jobs)
    ensures ending.Finished? ==> last < |history| && Verdicts(spec, world, jobs, history[last], ending.results)
  {
    hide Settles, SavedAfter, Ran, Lost, LostFirst, Unfinished, Verdicts, Left;
    var study := new Study(spec, world);
    assert study.artifacts.Keys == {};
    NothingLeft(history, world, jobs);
    ending, last := Cut, 0;
    for k := 0 to |history|
      invariant study.Sound() && study.spec == spec && study.world == world && ending.Cut?
      invariant Left(history, world, k, jobs, study.artifacts.Keys)
      invariant forall i | 0 <= i < k :: Unfinished(history, world, i, jobs)
    {
      ghost var before := study.artifacts.Keys;
      ending := study.RunTrials(jobs, history[k]);
      last := k;
      if !ending.Cut? {
        return;
      }
      ghost var id :| id in jobs && id !in before && !SavedAfter(history[k], |history[k]|, id)
                      && !Lost(history[k], |history[k]|, id);
      StillUnfinished(history, world, k, jobs, before, id);
      LeftMore(history, world, k, jobs, before, study.artifacts.Keys);
    }
  }

  /** The first k processes left an artifact for every job they evaluated successfully. */
  ghost predicate Left(history: seq<seq<Event>>, world: Id -> Option<Metrics>, k: nat, jobs: seq<Id>,
                       artifacts: set<Id>)
    requires k <= |history|
  {
    forall i, id | 0 <= i < k && id in jobs && world(id).Some? && Ran(history[i], |history[i]|, id) :: id in artifacts
  }

  lemma NothingLeft(history: seq<seq<Event>>, world: Id -> Option<Metrics>, jobs: seq<Id>)
    ensures Left(history, world, 0, jobs, {})
  {
  }

  lemma LeftMore(
    history: seq<seq<Event>>, world: Id -> Option<Metrics>, k: nat, jobs: seq<Id>, before: set<Id>, after: set<Id>)
    requires k < |history| && Left(history, world, k, jobs, before) && before <= after
    requires forall id | id in jobs && world(id).Some? && Ran(history[k], |history[k]|, id) :: id in after
    ensures Left(history, world, k + 1, jobs, after)
  {
    hide Ran;
  }

  lemma StillUnfinished(
    history: seq<seq<Event>>, world: Id -> Option<Metrics>, k: nat, jobs: seq<Id>, artifacts: set<Id>, id: Id)
    requires k < |history| && id in jobs && Left(history, world, k, jobs, artifacts) && id !in artifacts
    requires !SavedAfter(history[k], |history[k]|, id) && !Lost(history[k], |history[k]|, id)
    ensures Unfinished(history, world, k, jobs)
  {
    hide SavedAfter, Lost, Ran;
    assert !Settled(history, world, k, id);
  }

  /** How a metric may stand to a bound. */
  predicate Meets(operator: Operator, x: real, bound: real) {
    if x > bound then operator.Greater? || operator.AtLeast?
    else if x < bound then operator.Less? || operator.AtMost?
    else operator.AtLeast? || operator.AtMost? || operator.Exactly?
  }

  predicate Present(metrics: Metrics, c: Constraint) {
    c.metric in metrics && Meets(c.operator, metrics[c.metric], c.value)
  }

  /** The verdict on a candidate: failed when its evaluation raises; otherwise its own metrics, and a success exactly
      when the objective is among them and every constraint's metric is there and meets its bound. */
  lemma VerdictMeans(spec: Spec, world: Id -> Option<Metrics>, trial: Trial)
    requires Settles(spec, world, trial)
    ensures world(trial.id).None? <==> trial.status.Failed?
    ensures world(trial.id).None? ==> trial.metrics == map[] && trial.hash.None?
    ensures world(trial.id).Some? ==> trial.metrics == world(trial.id).value && trial.hash.Some?
    ensures world(trial.id).Some? ==>
              (trial.status.Succeeded? <==>
                && spec.metric in trial.metrics
                && forall c | c in spec.constraints :: Present(trial.metrics, c))
  {
    if world(trial.id).Some? {
      RejectedMeans(spec, trial.metrics);
    }
  }

  lemma RejectedMeans(spec: Spec, metrics: Metrics)
    ensures Rejected(spec, metrics) <==>
            spec.metric !in metrics || exists c | c in spec.constraints :: !Present(metrics, c)
  {
    forall c: Constraint
      ensures Accepts(c, metrics) <==> Present(metrics, c)
    {
    }
    if spec.metric in metrics && Rejected(spec, metrics) {
      var i :| 0 <= i < |spec.constraints| && !Accepts(spec.constraints[i], metrics);
      assert spec.constraints[i] in spec.constraints;
    }
  }
}
