/** The best trial, shard selection, and merging of sharded studies. */
module StudyMerge {
  import opened Base
  import opened Trials

  function Number(metrics: Metrics, name: Name): real {
    if name in metrics then metrics[name] else 0.0
  }

  function Abs(x: real): real {
    if x < 0.0 then -x else x
  }

  datatype Key = Key(objective: real, annual: real, drawdown: real, id: Id)

  function RankKey(spec: Spec, trial: Trial): Key
    requires spec.metric in trial.metrics
  {
    var objective := trial.metrics[spec.metric];
    Key(if spec.maximize then -objective else objective,
        -Number(trial.metrics, "annualized_return"),
        Abs(Number(trial.metrics, "max_drawdown")),
        trial.id)
  }

  /** Tuple comparison, field by field. */
  predicate Before(x: Key, y: Key) {
    if x.objective != y.objective then x.objective < y.objective
    else if x.annual != y.annual then x.annual < y.annual
    else if x.drawdown != y.drawdown then x.drawdown < y.drawdown
    else x.id < y.id
  }

  /** The trials that may be ranked; what a study saves as succeeded always is one. */
  predicate Rankable(spec: Spec, trial: Trial) {
    trial.status == Succeeded && spec.metric in trial.metrics
  }

  /** The first minimum by rank key among the succeeded trials. */
  method Best(spec: Spec, trials: seq<Trial>) returns (best: Option<Trial>)
    requires forall t | t in trials && t.status == Succeeded :: Rankable(spec, t)
    ensures best.None? <==> forall t | t in trials :: t.status != Succeeded
    ensures best.Some? ==> IsBest(spec, trials, best.value)
  {
    hide RankKey;
    best := None;
    for i := 0 to |trials|
      invariant best.None? <==> forall k | 0 <= k < i :: trials[k].status != Succeeded
      invariant best.Some? ==> best.value in trials[..i] && Rankable(spec, best.value)
                               && forall k | 0 <= k < i && Rankable(spec, trials[k]) ::
                                    !Before(RankKey(spec, trials[k]), RankKey(spec, best.value))
    {
      assert trials[i] in trials;
      if trials[i].status == Succeeded && (best.None? || Before(RankKey(spec, trials[i]), RankKey(spec, best.value))) {
        best := Some(trials[i]);
      }
    }
  }

  ghost predicate IsBest(spec: Spec, trials: seq<Trial>, x: Trial) {
    && x in trials && Rankable(spec, x)
    && forall t | t in trials && Rankable(spec, t) :: !Before(RankKey(spec, t), RankKey(spec, x))
  }

  /** The list holds the verdict of a plain evaluation, not a worker's death. */
  ghost predicate HasVerdict(spec: Spec, world: Id -> Option<Metrics>, trials: seq<Trial>, id: Id) {
    exists t :: t in trials && t.id == id && Settles(spec, world, t)
  }

  /** What a finished run lists: verdicts, and failures of workers that died. */
  ghost predicate Listed(spec: Spec, world: Id -> Option<Metrics>, trials: seq<Trial>) {
    forall t | t in trials :: Settles(spec, world, t) || t == FailedTrial(t.id)
  }

  /** Two trials of one candidate rank the same, whatever their artifacts hash to. */
  lemma SameVerdictRanksTheSame(spec: Spec, world: Id -> Option<Metrics>, x: Trial, y: Trial)
    requires Settles(spec, world, x) && Settles(spec, world, y) && x.id == y.id
    ensures x.metrics == y.metrics && x.status == y.status
    ensures Rankable(spec, x) ==> Rankable(spec, y) && RankKey(spec, x) == RankKey(spec, y)
  {
  }

  /** The best trial depends only on which candidates have a verdict: any two completion orders or crash
      histories that agree on those, with whatever artifact hashes and worker deaths besides, have the same best
      candidate with the same metrics, or both have none. */
  lemma BestIsOrderFree(spec: Spec, world: Id -> Option<Metrics>, left: seq<Trial>, right: seq<Trial>)
    requires Listed(spec, world, left) && Listed(spec, world, right)
    requires forall id :: HasVerdict(spec, world, left, id) <==> HasVerdict(spec, world, right, id)
    ensures (exists t :: t in left && t.status == Succeeded) <==> (exists t :: t in right && t.status == Succeeded)
    ensures forall x, y | IsBest(spec, left, x) && IsBest(spec, right, y) :: x.id == y.id && x.metrics == y.metrics
  {
    hide Settles, RankKey, Before;
    forall t | t in left && t.status == Succeeded
      ensures exists u :: u in right && u.status == Succeeded
    {
      var u := Counterpart(spec, world, left, right, t);
    }
    forall t | t in right && t.status == Succeeded
      ensures exists u :: u in left && u.status == Succeeded
    {
      var u := Counterpart(spec, world, right, left, t);
    }
    forall x, y | IsBest(spec, left, x) && IsBest(spec, right, y)
      ensures x.id == y.id && x.metrics == y.metrics
    {
      var x' := Counterpart(spec, world, left, right, x);
      var y' := Counterpart(spec, world, right, left, y);
      SameVerdictRanksTheSame(spec, world, x, x');
      SameVerdictRanksTheSame(spec, world, y, y');
      BeforeIsTotal(RankKey(spec, x), RankKey(spec, y));
      RankKeyNamesItsTrial(spec, x);
      RankKeyNamesItsTrial(spec, y);
      if x.id == y.id {
        SameVerdictRanksTheSame(spec, world, x, y);
      }
    }
  }

  lemma Counterpart(spec: Spec, world: Id -> Option<Metrics>, left: seq<Trial>, right: seq<Trial>, t: Trial)
    returns (u: Trial)
    requires Listed(spec, world, left) && Listed(spec, world, right)
    requires forall id :: HasVerdict(spec, world, left, id) <==> HasVerdict(spec, world, right, id)
    requires t in left && t.status == Succeeded
    ensures u in right && u.id == t.id && u.status == t.status && u.metrics == t.metrics
    ensures Settles(spec, world, t) && Settles(spec, world, u)
  {
    hide Settles;
    assert HasVerdict(spec, world, left, t.id);
    assert HasVerdict(spec, world, right, t.id);
    u :| u in right && u.id == t.id && Settles(spec, world, u);
    SameVerdictRanksTheSame(spec, world, t, u);
  }

  lemma BeforeIsTotal(x: Key, y: Key)
    ensures Before(x, y) || Before(y, x) || x.id == y.id
  {
  }

  lemma RankKeyNamesItsTrial(spec: Spec, t: Trial)
    requires Rankable(spec, t)
    ensures RankKey(spec, t).id == t.id
  {
  }

  // ----- shards

  /** The candidates whose index is congruent to the shard's. */
  function Shard(candidates: seq<Id>, count: nat, index: nat): seq<Id>
    requires index < count
  {
    if candidates == [] then []
    else
      var n := |candidates| - 1;
      Shard(candidates[..n], count, index) + if n % count == index then [candidates[n]] else []
  }

  lemma {:induction false} ShardMembers(candidates: seq<Id>, count: nat, index: nat, id: Id)
    requires index < count
    ensures id in Shard(candidates, count, index)
            <==> exists i | 0 <= i < |candidates| && i % count == index :: candidates[i] == id
  {
    if candidates != [] {
      var n := |candidates| - 1;
      ShardMembers(candidates[..n], count, index, id);
      if id in Shard(candidates, count, index) {
        if id !in Shard(candidates[..n], count, index) {
          assert candidates[n] == id && n % count == index;
        } else {
          var i :| 0 <= i < n && i % count == index && candidates[..n][i] == id;
          assert candidates[i] == id;
        }
      }
    }
  }

  /** The shards partition the candidates: each is in the shard its index picks and in no other. */
  lemma ShardsPartition(candidates: seq<Id>, count: nat, i: nat, index: nat)
    requires Distinct(candidates) && i < |candidates| && index < count
    ensures candidates[i] in Shard(candidates, count, index) <==> index == i % count
  {
    ShardMembers(candidates, count, index, candidates[i]);
  }

  // ----- merging

  /** Two evaluations of one candidate that cannot both stand. */
  predicate Clash(x: Trial, y: Trial) {
    x.id == y.id && !x.status.Failed? && !y.status.Failed? && x.metrics != y.metrics
  }

  /** What is kept for an id: nothing without a record, a failure only when every record failed, and
      otherwise some successful record. */
  ghost predicate Keeps(merged: map<Id, Trial>, records: seq<Trial>) {
    && (forall id | id in merged :: merged[id].id == id && merged[id] in records)
    && (forall t | t in records :: t.id in merged && (merged[t.id].status.Failed? ==> t.status.Failed?))
  }

  /** The merge loop over every checkpoint record of every input. */
  method Merge(records: seq<Trial>) returns (merged: Result<map<Id, Trial>>)
    ensures merged.Err? <==> exists i, j | 0 <= i < j < |records| :: Clash(records[i], records[j])
    ensures merged.Ok? ==> Keeps(merged.value, records)
  {
    hide Keeps, Clash;
    var results: map<Id, Trial> := map[];
    NothingKept();
    for k := 0 to |records|
      invariant forall i, j | 0 <= i < j < k :: !Clash(records[i], records[j])
      invariant Keeps(results, records[..k])
    {
      var item := records[k];
      if item.id in results && Clash(results[item.id], item) {
        ClashWithKept(records, results, k);
        return Err("OPT_MERGE_INVALID");
      }
      NoClashWithKept(records, results, k);
      KeepsOneMore(records, results, k);
      if item.id !in results || !item.status.Failed? {
        results := results[item.id := item];
      }
    }
    assert records[..|records|] == records;
    return Ok(results);
  }

  lemma NothingKept()
    ensures Keeps(map[], [])
  {
  }

  lemma KeepsOneMore(records: seq<Trial>, results: map<Id, Trial>, k: nat)
    requires k < |records| && Keeps(results, records[..k])
    ensures var item := records[k];
            Keeps(if item.id !in results || !item.status.Failed? then results[item.id := item] else results,
                  records[..k + 1])
  {
    assert records[..k + 1] == records[..k] + [records[k]];
  }

  lemma ClashWithKept(records: seq<Trial>, results: map<Id, Trial>, k: nat)
    requires k < |records| && Keeps(results, records[..k])
    requires records[k].id in results && Clash(results[records[k].id], records[k])
    ensures exists i, j | 0 <= i < j < |records| :: Clash(records[i], records[j])
  {
    var i :| 0 <= i < k && records[..k][i] == results[records[k].id];
    assert Clash(records[i], records[k]);
  }

  lemma NoClashWithKept(records: seq<Trial>, results: map<Id, Trial>, k: nat)
    requires k < |records| && Keeps(results, records[..k])
    requires records[k].id in results ==> !Clash(results[records[k].id], records[k])
    requires forall i, j | 0 <= i < j < k :: !Clash(records[i], records[j])
    ensures forall i | 0 <= i < k :: !Clash(records[i], records[k])
  {
    forall i | 0 <= i < k
      ensures !Clash(records[i], records[k])
    {
      assert records[i] in records[..k];
      var id := records[k].id;
      if id in results {
        var n :| 0 <= n < k && records[..k][n] == results[id];
        assert i < n ==> !Clash(records[i], records[n]);
        assert n < i ==> !Clash(records[n], records[i]);
      }
    }
  }

  /** Statuses follow from metrics, as every study that shares objective and constraints judges them. */
  ghost predicate Judged(spec: Spec, records: seq<Trial>) {
    forall t | t in records && !t.status.Failed? ::
      t.status == if Rejected(spec, t.metrics) then Ineligible else Succeeded
  }

  /** Merging in any order, with any repetition, gives the same ids, statuses and metrics. */
  lemma MergeIsOrderFree(spec: Spec, left: seq<Trial>, right: seq<Trial>, x: map<Id, Trial>, y: map<Id, Trial>, id: Id)
    requires forall t :: t in left <==> t in right
    requires Judged(spec, left) && forall i, j | 0 <= i < j < |left| :: !Clash(left[i], left[j])
    requires Keeps(x, left) && Keeps(y, right)
    ensures id in x <==> id in y
    ensures id in x ==> x[id].status == y[id].status
                        && (!x[id].status.Failed? ==> x[id].metrics == y[id].metrics)
  {
    hide Rejected;
    if id in x {
      assert x[id] in left && x[id] in right;
    }
    if id in y {
      assert y[id] in right && y[id] in left;
    }
    if id in x && id in y && !x[id].status.Failed? && !y[id].status.Failed? {
      var i :| 0 <= i < |left| && left[i] == x[id];
      var j :| 0 <= j < |left| && left[j] == y[id];
      assert !Clash(left[i], left[j]) || !Clash(left[j], left[i]);
    }
  }

  ghost predicate HasRecord(records: seq<Trial>, id: Id) {
    exists i | 0 <= i < |records| :: records[i].id == id
  }

  ghost predicate InSomeShard(candidates: seq<Id>, count: nat, id: Id) {
    exists index | 0 <= index < count :: id in Shard(candidates, count, index)
  }

  lemma EveryCandidateHasAShard(candidates: seq<Id>, count: nat, id: Id)
    requires count >= 1
    ensures InSomeShard(candidates, count, id) <==> id in candidates
  {
    hide Shard;
    if id in candidates {
      var i :| 0 <= i < |candidates| && candidates[i] == id;
      ShardMembers(candidates, count, i % count, id);
      assert id in Shard(candidates, count, i % count);
    }
    if InSomeShard(candidates, count, id) {
      var index :| 0 <= index < count && id in Shard(candidates, count, index);
      ShardMembers(candidates, count, index, id);
    }
  }

  /** Finished studies of all the shards, in any order, merge into what one study of every candidate
      would give: the same ids, each with the verdict of a plain evaluation. */
  lemma ShardedStudyEqualsWhole(
    spec: Spec, world: Id -> Option<Metrics>, candidates: seq<Id>, count: nat, records: seq<Trial>,
    merged: map<Id, Trial>)
    requires count >= 1
    requires forall t | t in records :: Settles(spec, world, t)
    requires forall id :: HasRecord(records, id) <==> InSomeShard(candidates, count, id)
    requires Keeps(merged, records)
    ensures forall i, j | 0 <= i < j < |records| :: !Clash(records[i], records[j])
    ensures merged.Keys == set id | id in candidates
    ensures forall id | id in merged :: Settles(spec, world, merged[id])
  {
    hide Rejected, Shard, InSomeShard;
    forall i, j | 0 <= i < j < |records|
      ensures !Clash(records[i], records[j])
    {
      assert records[i] in records && records[j] in records;
    }
    forall id
      ensures id in merged <==> id in candidates
    {
      EveryCandidateHasAShard(candidates, count, id);
      if HasRecord(records, id) {
        var i :| 0 <= i < |records| && records[i].id == id;
        assert records[i] in records;
      }
      if id in merged {
        var i :| 0 <= i < |records| && records[i] == merged[id];
        assert HasRecord(records, id);
      }
    }
  }

  /** A figure of a trial, counted as zero when it is missing. */
  function Figure(trial: Trial, name: Name): real {
    if name in trial.metrics then trial.metrics[name] else 0.0
  }

  function Depth(trial: Trial): real {
    MaxReal(Figure(trial, "max_drawdown"), -Figure(trial, "max_drawdown"))
  }

  /** At least as good: a better objective; or the same one and a larger annual return; or that too and a shallower
      drawdown; or all of it and no larger candidate number. */
  predicate AtLeastAsGood(spec: Spec, x: Trial, t: Trial)
    requires spec.metric in x.metrics && spec.metric in t.metrics
  {
    var mine, other := x.metrics[spec.metric], t.metrics[spec.metric];
    || (if spec.maximize then mine > other else mine < other)
    || (&& mine == other
        && var gained, lost := Figure(x, "annualized_return"), Figure(t, "annualized_return");
           || gained > lost
           || (gained == lost && (Depth(x) < Depth(t) || (Depth(x) == Depth(t) && x.id <= t.id))))
  }

  /** The best trial succeeded and is at least as good as every other that did. */
  lemma BestMeans(spec: Spec, trials: seq<Trial>, x: Trial, t: Trial)
    requires IsBest(spec, trials, x) && t in trials && t.status.Succeeded? && spec.metric in t.metrics
    ensures x in trials && x.status.Succeeded? && spec.metric in x.metrics && AtLeastAsGood(spec, x, t)
  {
    assert !Before(RankKey(spec, t), RankKey(spec, x));
  }
}
