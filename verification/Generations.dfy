/** Registration of artifacts in a collection index: one generation after another per partition, with an
    index file that is only written at checkpoints. */
module Generations {
  import opened Base

  datatype Entry = Entry(partition: Id, generation: nat, path: Id)

  /** One registration: the artifact, which entries still validate against their files by then, and whether
      the caller passes the entries it has seen itself instead of letting the index be searched. */
  datatype Registration = Registration(partition: Id, path: Id, valid: Entry -> bool, ownList: bool)

  /** A process registers artifacts and checkpoints the index; a new process reads the last checkpoint. */
  datatype Step = Registered(r: Registration) | Checkpointed | Restarted

  /** The index in memory, everything this process has seen (never pruned), and the index file. */
  datatype Index = Index(entries: seq<Entry>, seen: seq<Entry>, saved: seq<Entry>)

  function HighestGeneration(entries: seq<Entry>, partition: Id): nat {
    if entries == [] then 0
    else
      var last := entries[|entries| - 1];
      var rest := HighestGeneration(entries[..|entries| - 1], partition);
      if last.partition == partition && last.generation > rest then last.generation else rest
  }

  function DropInvalid(entries: seq<Entry>, partition: Id, valid: Entry -> bool): seq<Entry> {
    if entries == [] then []
    else
      var last := entries[|entries| - 1];
      DropInvalid(entries[..|entries| - 1], partition, valid)
      + if last.partition == partition && !valid(last) then [] else [last]
  }

  function Assigned(index: Index, r: Registration): Entry {
    var existing := if r.ownList then index.seen else index.entries;
    Entry(r.partition, HighestGeneration(existing, r.partition) + 1, r.path)
  }

  function Register(index: Index, r: Registration): Index {
    var entry := Assigned(index, r);
    index.(entries := DropInvalid(index.entries, r.partition, r.valid) + [entry], seen := index.seen + [entry])
  }

  function After(index: Index, step: Step): Index {
    match step
    case Registered(r) => Register(index, r)
    case Checkpointed => index.(saved := index.entries)
    case Restarted => Index(index.saved, index.saved, index.saved)
  }

  /** The index after the first n steps of a history that starts with no index at all. */
  function IndexAfter(history: seq<Step>, n: nat): Index
    requires n <= |history|
  {
    if n == 0 then Index([], [], []) else After(IndexAfter(history, n - 1), history[n - 1])
  }

  /** The entry that registration k of a history created. */
  function Created(history: seq<Step>, k: nat): Entry
    requires k < |history| && history[k].Registered?
  {
    Assigned(IndexAfter(history, k), history[k].r)
  }

  lemma AppendedGeneration(entries: seq<Entry>, e: Entry, partition: Id)
    ensures HighestGeneration(entries + [e], partition)
            == if e.partition == partition && e.generation > HighestGeneration(entries, partition) then e.generation
               else HighestGeneration(entries, partition)
  {
    assert (entries + [e])[..|entries|] == entries;
  }

  lemma {:induction false} DroppingLowers(entries: seq<Entry>, partition: Id, valid: Entry -> bool, other: Id)
    ensures HighestGeneration(DropInvalid(entries, partition, valid), other) <= HighestGeneration(entries, other)
    ensures other != partition ==>
              HighestGeneration(DropInvalid(entries, partition, valid), other) == HighestGeneration(entries, other)
  {
    if entries != [] {
      var n := |entries| - 1;
      DroppingLowers(entries[..n], partition, valid, other);
      var kept := DropInvalid(entries[..n], partition, valid);
      AppendedGeneration(kept, entries[n], other);
      assert kept + [] == kept;
    }
  }

  /** Pruned or not, both lists always agree on the highest generation of every partition. */
  lemma {:induction false} ListsAgree(history: seq<Step>, n: nat, partition: Id)
    requires n <= |history|
    ensures var index := IndexAfter(history, n);
            HighestGeneration(index.entries, partition) == HighestGeneration(index.seen, partition)
  {
    hide HighestGeneration, DropInvalid, Register;
    if n > 0 {
      ListsAgree(history, n - 1, partition);
      var before := IndexAfter(history, n - 1);
      if history[n - 1].Registered? {
        var r := history[n - 1].r;
        ListsAgree(history, n - 1, r.partition);
        RegistrationRaises(before, r, partition);
      }
    }
  }

  /** Registering sets the partition's highest generation and leaves the others alone. */
  lemma RegistrationRaises(before: Index, r: Registration, partition: Id)
    requires HighestGeneration(before.entries, r.partition) == HighestGeneration(before.seen, r.partition)
    ensures var after := Register(before, r);
            var top := Assigned(before, r).generation;
            && top == HighestGeneration(before.entries, r.partition) + 1
            && HighestGeneration(after.entries, partition)
               == (if partition == r.partition then top else HighestGeneration(before.entries, partition))
            && HighestGeneration(after.seen, partition)
               == (if partition == r.partition then top else HighestGeneration(before.seen, partition))
  {
    var entry := Assigned(before, r);
    DroppingLowers(before.entries, r.partition, r.valid, partition);
    AppendedGeneration(DropInvalid(before.entries, r.partition, r.valid), entry, partition);
    AppendedGeneration(before.seen, entry, partition);
  }

  ghost predicate CheckpointBetween(history: seq<Step>, from: int, to: int)
    requires 0 <= from && to <= |history|
  {
    exists c | from < c < to :: history[c].Checkpointed?
  }

  /** Registration i was not lost by step n: before every restart since then, the index was checkpointed. */
  ghost predicate Survives(history: seq<Step>, i: nat, n: nat)
    requires i < n <= |history|
  {
    forall r | i < r < n && history[r].Restarted? :: CheckpointBetween(history, i, r)
  }

  /** What a longer history says of a shorter one. */
  lemma StepBack(history: seq<Step>, i: nat, n: nat)
    requires i < n <= |history| && Survives(history, i, n)
    ensures i < n - 1 ==> Survives(history, i, n - 1)
    ensures i < n - 1 && history[n - 1].Restarted? ==> CheckpointBetween(history, i, n - 1)
    ensures CheckpointBetween(history, i, n) ==>
              i < n - 1 && (CheckpointBetween(history, i, n - 1) || history[n - 1].Checkpointed?)
  {
    if CheckpointBetween(history, i, n) {
      var c :| i < c < n && history[c].Checkpointed?;
      assert c < n - 1 ==> CheckpointBetween(history, i, n - 1);
    }
  }

  /** As long as a registration is not lost, the index, and once checkpointed the index file too, knows its
      generation or a higher one. */
  lemma {:induction false} GenerationIsRemembered(history: seq<Step>, i: nat, n: nat)
    requires i < n <= |history| && history[i].Registered? && Survives(history, i, n)
    ensures var index := IndexAfter(history, n);
            var partition := history[i].r.partition;
            && HighestGeneration(index.entries, partition) >= Created(history, i).generation
            && (CheckpointBetween(history, i, n) ==>
                  HighestGeneration(index.saved, partition) >= Created(history, i).generation)
    decreases n
  {
    hide HighestGeneration, Survives, CheckpointBetween;
    StepBack(history, i, n);
    var partition := history[i].r.partition;
    var before, step := IndexAfter(history, n - 1), history[n - 1];
    if step.Registered? {
      ListsAgree(history, n - 1, step.r.partition);
      RegistrationRaises(before, step.r, partition);
    }
    if n - 1 > i {
      GenerationIsRemembered(history, i, n - 1);
    }
  }

  /** Over any history of registrations, checkpoints and restarts, with any files failing validation at any
      time, whichever list the caller passes: a later registration of a partition gets a higher generation
      than every earlier one that was not lost with an unsaved index. */
  lemma GenerationsIncrease(history: seq<Step>, i: nat, j: nat)
    requires i < j < |history| && history[i].Registered? && history[j].Registered?
    requires history[i].r.partition == history[j].r.partition && Survives(history, i, j)
    ensures Created(history, i).generation < Created(history, j).generation
  {
    hide HighestGeneration, IndexAfter;
    GenerationIsRemembered(history, i, j);
    ListsAgree(history, j, history[j].r.partition);
  }

  lemma {:induction false} MembersStayBelow(entries: seq<Entry>, e: Entry)
    requires e in entries
    ensures e.generation <= HighestGeneration(entries, e.partition)
  {
    if entries[|entries| - 1] != e {
      MembersStayBelow(entries[..|entries| - 1], e);
    }
  }

  /** A new registration leads its partition alone: its entry is in the index, strictly above all others, so it
      is the one `latest_entries` picks. */
  lemma RegistrationLeads(history: seq<Step>, k: nat, other: Entry)
    requires k < |history| && history[k].Registered?
    ensures var index := IndexAfter(history, k + 1);
            && Created(history, k) in index.entries
            && (&& other in index.entries && other != Created(history, k)
                && other.partition == Created(history, k).partition ==>
                  other.generation < Created(history, k).generation)
  {
    var r := history[k].r;
    var before := IndexAfter(history, k);
    ListsAgree(history, k, r.partition);
    var kept := DropInvalid(before.entries, r.partition, r.valid);
    DroppingLowers(before.entries, r.partition, r.valid, r.partition);
    if other in kept && other.partition == r.partition {
      MembersStayBelow(kept, other);
    }
  }

  lemma {:induction false} DroppedAreTheInvalid(entries: seq<Entry>, partition: Id, valid: Entry -> bool, e: Entry)
    ensures e in DropInvalid(entries, partition, valid) <==> e in entries && (e.partition == partition ==> valid(e))
  {
    if entries != [] {
      DroppedAreTheInvalid(entries[..|entries| - 1], partition, valid, e);
    }
  }

  /** A registration adds its own entry and drops only entries of its partition that no longer validate. */
  lemma RegistrationKeepsTheRest(index: Index, r: Registration, e: Entry)
    ensures var entry := Assigned(index, r);
            && entry.partition == r.partition && entry.path == r.path
            && (e in Register(index, r).entries <==>
                  e == entry || (e in index.entries && (e.partition == r.partition ==> r.valid(e))))
            && Register(index, r).saved == index.saved
  {
    DroppedAreTheInvalid(index.entries, r.partition, r.valid, e);
  }
}
