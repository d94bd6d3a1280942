/** Concurrent compaction passes (internal/coord/compact.go): summarize, update,
    archive, purge, any number of passes at once and any of them stopping anywhere. */
module Compaction {
  import opened Tasks

  /** Where one pass stands with the task it is compacting; a pass without prune is
      done with it after the update. */
  datatype Phase =
    | Idle
    | Summarized(task: TaskId, level: nat, size: nat, prune: bool)
    | Updated(task: TaskId)
    | Copied(task: TaskId, rec: Task)
    | InArchive(task: TaskId)

  datatype Store = Store(hot: map<TaskId, Task>, archive: map<TaskId, Task>, passes: map<nat, Phase>)

  datatype Step =
    | Open(task: TaskId, rec: Task)
    | Edit(task: TaskId, rec: Task)
    | Summarize(pass: nat, task: TaskId, size: nat, prune: bool)
    | Update(pass: nat, now: int)
    | Copy(pass: nat)
    | Archive(pass: nat)
    | Purge(pass: nat)
    | Stop(pass: nat)

  /** Closed, never compacted, and with a closing time. */
  predicate Uncompacted(t: Task) {
    t.status == Closed && t.closedAt.Some? && t.compactLevel == 0
  }

  /** The update of compactOne: the level is one above the one in the listing, and
      the record's own level is not looked at. */
  function CompactMutator(level: nat, size: nat, now: int): Mutator {
    (cur: Task) =>
      if cur.status != Closed then Err(TaskAlreadyClosed)
      else Ok(cur.(compactLevel := level, originalSize := size, compactedAt := Some(now)))
  }

  function PhaseOf(s: Store, pass: nat): Phase {
    if pass in s.passes then s.passes[pass] else Idle
  }

  function At(s: Store, pass: nat, phase: Phase): Store {
    s.(passes := s.passes[pass := phase])
  }

  /** A step that does not apply changes nothing; an error ends the pass. */
  function Next(s: Store, step: Step): Store {
    match step
    case Open(t, rec) =>
      if t in s.hot || t in s.archive || rec.status == Closed || rec.compactLevel != 0 then s
        else s.(hot := s.hot[t := rec])
    case Edit(t, rec) =>
      if t in s.hot && ValidTransition(s.hot[t], rec) && rec.compactLevel == s.hot[t].compactLevel
      then s.(hot := s.hot[t := rec]) else s
    case Summarize(p, t, size, prune) =>
      if PhaseOf(s, p) == Idle && t in s.hot && Uncompacted(s.hot[t])
      then At(s, p, Summarized(t, s.hot[t].compactLevel + 1, size, prune)) else s
    case Update(p, now) => UpdateStep(s, p, now)
    case Copy(p) =>
      if !PhaseOf(s, p).Updated? then s
      else if PhaseOf(s, p).task !in s.hot then At(s, p, Idle)
      else At(s, p, Copied(PhaseOf(s, p).task, s.hot[PhaseOf(s, p).task]))
    case Archive(p) => ArchiveStep(s, p)
    case Purge(p) =>
      if !PhaseOf(s, p).InArchive? then s else At(s.(hot := s.hot - {PhaseOf(s, p).task}), p, Idle)
    case Stop(p) => At(s, p, Idle)
  }

  function UpdateStep(s: Store, p: nat, now: int): Store {
    var ph := PhaseOf(s, p);
    if !ph.Summarized? then s
    else match Tx(s.hot, ph.task, CompactMutator(ph.level, ph.size, now))
      case Err(_) => At(s, p, Idle)
      case Ok(hot) => At(s.(hot := hot), p, if ph.prune then Updated(ph.task) else Idle)
  }

  /** Create in the archive, where "already exists" counts as done. */
  function ArchiveStep(s: Store, p: nat): Store {
    var ph := PhaseOf(s, p);
    if !ph.Copied? then s
    else At(if ph.task in s.archive then s else s.(archive := s.archive[ph.task := ph.rec]), p, InArchive(ph.task))
  }

  /** The store after the first n steps. */
  function After(s: Store, steps: seq<Step>, n: nat): Store
    requires n <= |steps|
  {
    if n == 0 then s else Next(After(s, steps, n - 1), steps[n - 1])
  }

  predicate Compacted(t: Task) {
    t.status == Closed && t.compactLevel == 1
  }

  ghost predicate PhaseInv(s: Store, ph: Phase) {
    match ph
    case Idle => true
    case Summarized(t, level, _, _) =>
      level == 1 && (t in s.hot ==> s.hot[t].status == Closed) && (t in s.hot || t in s.archive)
    case Updated(t) => (t in s.hot ==> Compacted(s.hot[t])) && (t in s.hot || t in s.archive)
    case Copied(t, rec) => Compacted(rec) && (t in s.hot ==> Compacted(s.hot[t])) && (t in s.hot || t in s.archive)
    case InArchive(t) => t in s.archive
  }

  ghost predicate Inv(s: Store) {
    && (forall t | t in s.hot ::
        s.hot[t].compactLevel <= 1 && (s.hot[t].compactLevel == 1 ==> s.hot[t].status == Closed && Coupled(s.hot[t])))
    && (forall t | t in s.archive :: Compacted(s.archive[t]))
    && (forall p | p in s.passes :: PhaseInv(s, s.passes[p]))
  }

  /** What one step may do to one task's records. */
  ghost predicate Moves(s: Store, s': Store, t: TaskId) {
    && (t in s.archive ==> t in s'.archive && s'.archive[t] == s.archive[t])
    && (t in s.hot && t in s'.hot ==> s.hot[t].compactLevel <= s'.hot[t].compactLevel)
    && (t in s.hot && t !in s'.hot ==> t in s'.archive)
    && (t !in s.hot && t in s'.hot ==> t !in s.archive && s'.hot[t].compactLevel == 0)
  }

  /** The phases of the other passes outlive any change that Moves allows and that
      leaves closed records closed. */
  lemma PhaseCarries(s: Store, s': Store, ph: Phase)
    requires PhaseInv(s, ph) && forall t :: Moves(s, s', t)
    requires forall t | t in s.hot && t in s'.hot ::
      (s.hot[t].status == Closed ==> s'.hot[t].status == Closed) && s'.hot[t].compactLevel <= 1
    requires forall t | t in s.archive && t !in s.hot :: t !in s'.hot
    ensures PhaseInv(s', ph)
  {
    match ph {
      case Idle =>
      case Summarized(t, _, _, _) => assert Moves(s, s', t);
      case Updated(t) => assert Moves(s, s', t);
      case Copied(t, _) => assert Moves(s, s', t);
      case InArchive(t) => assert Moves(s, s', t);
    }
  }

  lemma OtherPhases(s: Store, s': Store, pass: nat, phase: Phase)
    requires Inv(s) && s'.passes == s.passes[pass := phase] && PhaseInv(s', phase)
    requires forall t :: Moves(s, s', t)
    requires forall t | t in s.hot && t in s'.hot ::
      (s.hot[t].status == Closed ==> s'.hot[t].status == Closed) && s'.hot[t].compactLevel <= 1
    requires forall t | t in s.archive && t !in s.hot :: t !in s'.hot
    ensures forall p | p in s'.passes :: PhaseInv(s', s'.passes[p])
  {
    forall p | p in s'.passes ensures PhaseInv(s', s'.passes[p]) {
      if p != pass {
        assert PhaseInv(s, s.passes[p]);
        PhaseCarries(s, s', s.passes[p]);
      }
    }
  }

  lemma UpdateKeeps(s: Store, p: nat, now: int)
    requires Inv(s)
    ensures var s' := UpdateStep(s, p, now); Inv(s') && forall t :: Moves(s, s', t)
  {
    var ph, s' := PhaseOf(s, p), UpdateStep(s, p, now);
    if ph.Summarized? {
      assert PhaseInv(s, ph);
      OtherPhases(s, s', p, PhaseOf(s', p));
    }
  }

  lemma ArchiveKeeps(s: Store, p: nat)
    requires Inv(s)
    ensures var s' := ArchiveStep(s, p); Inv(s') && forall t :: Moves(s, s', t)
  {
    var ph, s' := PhaseOf(s, p), ArchiveStep(s, p);
    if ph.Copied? {
      assert PhaseInv(s, ph);
      OtherPhases(s, s', p, PhaseOf(s', p));
    }
  }

  lemma PassKeeps(s: Store, step: Step)
    requires Inv(s) && (step.Summarize? || step.Copy? || step.Purge? || step.Stop?)
    ensures Inv(Next(s, step)) && forall t :: Moves(s, Next(s, step), t)
  {
    var s' := Next(s, step);
    var ph := PhaseOf(s, step.pass);
    assert PhaseInv(s, ph);
    if s' != s {
      OtherPhases(s, s', step.pass, PhaseOf(s', step.pass));
    }
  }

  lemma RecordKeeps(s: Store, step: Step)
    requires Inv(s) && (step.Open? || step.Edit?)
    ensures Inv(Next(s, step)) && forall t :: Moves(s, Next(s, step), t)
  {
    var s' := Next(s, step);
    forall p | p in s.passes ensures PhaseInv(s', s.passes[p]) {
      PhaseCarries(s, s', s.passes[p]);
    }
  }

  /** Every step keeps the invariant and moves records only as Moves says. */
  lemma StepKeeps(s: Store, step: Step)
    requires Inv(s)
    ensures Inv(Next(s, step)) && forall t :: Moves(s, Next(s, step), t)
  {
    match step {
      case Open(_, _) => RecordKeeps(s, step);
      case Edit(_, _) => RecordKeeps(s, step);
      case Update(p, now) => UpdateKeeps(s, p, now);
      case Archive(p) => ArchiveKeeps(s, p);
      case _ => PassKeeps(s, step);
    }
  }

  /** Over every run: no id is lost from both buckets, the archive never changes an
      entry and holds only closed records at level 1, and a level in the hot bucket
      is 0 or 1 and never falls. */
  lemma {:induction false} NothingIsLost(s: Store, steps: seq<Step>, n: nat, t: TaskId)
    requires n <= |steps| && Inv(s)
    ensures var s' := After(s, steps, n);
      && Inv(s')
      && (t in s.hot || t in s.archive ==> t in s'.hot || t in s'.archive)
      && (t in s.archive ==> t in s'.archive && s'.archive[t] == s.archive[t] && (t !in s.hot ==> t !in s'.hot))
      && (t in s.hot && t in s'.hot ==> s.hot[t].compactLevel <= s'.hot[t].compactLevel <= 1)
  {
    if n > 0 {
      NothingIsLost(s, steps, n - 1, t);
      StepKeeps(After(s, steps, n - 1), steps[n - 1]);
      assert Moves(After(s, steps, n - 1), After(s, steps, n), t);
    }
  }

  /** Whatever is kept of t, hot, archived or on its way, is r but for the stamps. */
  ghost predicate Content(s: Store, t: TaskId, r: Task) {
    && (t in s.hot ==> s.hot[t].status == Closed && EqNonCompaction(r, s.hot[t]))
    && (t in s.archive ==> EqNonCompaction(r, s.archive[t]))
    && (forall p | p in s.passes && s.passes[p].Copied? && s.passes[p].task == t :: EqNonCompaction(r, s.passes[p].rec))
  }

  lemma ContentStep(s: Store, step: Step, t: TaskId, r: Task)
    requires Content(s, t, r) && (t in s.hot || t in s.archive)
    ensures Content(Next(s, step), t, r)
  {
    match step {
      case Update(p, now) => ContentUpdate(s, p, now, t, r);
      case Archive(p) => ContentArchive(s, p, t, r);
      case _ =>
    }
  }

  lemma ContentUpdate(s: Store, p: nat, now: int, t: TaskId, r: Task)
    requires Content(s, t, r)
    ensures Content(UpdateStep(s, p, now), t, r)
  {
  }

  lemma ContentArchive(s: Store, p: nat, t: TaskId, r: Task)
    requires Content(s, t, r)
    ensures Content(ArchiveStep(s, p), t, r)
  {
    assert PhaseOf(s, p).Copied? && PhaseOf(s, p).task == t ==> EqNonCompaction(r, PhaseOf(s, p).rec);
  }

  /** Nothing of a closed record is lost but its old stamps: in every later store it is
      hot or archived, and wherever it is it is the record it was when closed. */
  lemma {:induction false} RecordSurvives(s: Store, steps: seq<Step>, n: nat, t: TaskId)
    requires n <= |steps| && Inv(s) && t in s.hot && Uncompacted(s.hot[t]) && t !in s.archive
    ensures var s' := After(s, steps, n);
      && (t in s'.hot || t in s'.archive)
      && (t in s'.hot ==> EqNonCompaction(s.hot[t], s'.hot[t]))
      && (t in s'.archive ==> EqNonCompaction(s.hot[t], s'.archive[t]) && s'.archive[t].compactLevel == 1)
      && Content(s', t, s.hot[t])
  {
    if n == 0 {
      assert forall p | p in s.passes :: PhaseInv(s, s.passes[p]);
    } else {
      RecordSurvives(s, steps, n - 1, t);
      ContentStep(After(s, steps, n - 1), steps[n - 1], t, s.hot[t]);
    }
    NothingIsLost(s, steps, n, t);
  }

  /** How often the first n steps raised t's level. */
  function Rises(s: Store, steps: seq<Step>, n: nat, t: TaskId): nat
    requires n <= |steps|
  {
    if n == 0 then 0
    else
      var was, now := After(s, steps, n - 1).hot, After(s, steps, n).hot;
      Rises(s, steps, n - 1, t) + if t in was && t in now && was[t].compactLevel != now[t].compactLevel then 1 else 0
  }

  /** The level of a task goes from 0 to 1 at most once, over all passes. */
  lemma {:induction false} LevelRisesOnce(s: Store, steps: seq<Step>, n: nat, t: TaskId)
    requires n <= |steps| && Inv(s)
    ensures Rises(s, steps, n, t) <= 1
    ensures Rises(s, steps, n, t) == 1 ==>
      var s' := After(s, steps, n); (t in s'.hot && s'.hot[t].compactLevel == 1) || (t !in s'.hot && t in s'.archive)
  {
    if n > 0 {
      LevelRisesOnce(s, steps, n - 1, t);
      NothingIsLost(s, steps, n - 1, t);
      StepKeeps(After(s, steps, n - 1), steps[n - 1]);
      NothingIsLost(s, steps, n, t);
      assert Moves(After(s, steps, n - 1), After(s, steps, n), t);
    }
  }

  /** A pass in this phase is at work on t and means to purge it. */
  predicate Pruning(ph: Phase, t: TaskId) {
    !ph.Idle? && ph.task == t && (ph.Summarized? ==> ph.prune)
  }

  /** t is stamped in the hot bucket and no pruning pass is at work on it. */
  ghost predicate Abandoned(s: Store, t: TaskId) {
    && t in s.hot && s.hot[t].compactLevel == 1
    && forall p | p in s.passes :: !Pruning(s.passes[p], t)
  }

  lemma AbandonedStep(s: Store, step: Step, t: TaskId)
    requires Inv(s) && Abandoned(s, t)
    ensures Abandoned(Next(s, step), t)
  {
    StepKeeps(s, step);
    assert Moves(s, Next(s, step), t);
    if step.Update? || step.Copy? || step.Archive? || step.Purge? {
      assert !Pruning(PhaseOf(s, step.pass), t);
    }
  }

  /** A record that was stamped by a pass without prune, or by one that stopped before
      its purge, stays in the hot bucket for good: level 1 is not eligible again. */
  lemma {:induction false} StoppedPassIsNeverFinished(s: Store, steps: seq<Step>, n: nat, t: TaskId)
    requires n <= |steps| && Inv(s) && Abandoned(s, t)
    ensures Abandoned(After(s, steps, n), t)
  {
    if n > 0 {
      StoppedPassIsNeverFinished(s, steps, n - 1, t);
      NothingIsLost(s, steps, n - 1, t);
      AbandonedStep(After(s, steps, n - 1), steps[n - 1], t);
    }
  }

  // ----- and exactly then -----

  function Rank(ph: Phase): int {
    match ph
    case Idle => -1 case Summarized(_, _, _, _) => 0 case Updated(_) => 1 case Copied(_, _) => 2 case InArchive(_) => 3
  }

  /** Pruning pass p is at work on the stamped record t, with at least r calls behind it. */
  ghost predicate Working(s: Store, p: nat, t: TaskId, r: nat) {
    Inv(s) && t in s.hot && s.hot[t].compactLevel == 1 && Rank(PhaseOf(s, p)) >= r && Pruning(PhaseOf(s, p), t)
  }

  lemma UpdateWorks(s: Store, p: nat, t: TaskId, now: int)
    requires Working(s, p, t, 0)
    ensures Working(Next(s, Update(p, now)), p, t, 1)
  {
    UpdateKeeps(s, p, now);
    assert PhaseInv(s, PhaseOf(s, p));
  }

  lemma CopyWorks(s: Store, p: nat, t: TaskId)
    requires Working(s, p, t, 1)
    ensures Working(Next(s, Copy(p)), p, t, 2)
  {
    PassKeeps(s, Copy(p));
  }

  lemma ArchiveWorks(s: Store, p: nat, t: TaskId)
    requires Working(s, p, t, 2)
    ensures Working(Next(s, Archive(p)), p, t, 3)
  {
    ArchiveKeeps(s, p);
  }

  lemma PurgeWorks(s: Store, p: nat, t: TaskId)
    requires Working(s, p, t, 3)
    ensures t !in Next(s, Purge(p)).hot
  {
  }

  function CallsLeft(p: nat): seq<Step> { [Update(p, 0), Copy(p), Archive(p), Purge(p)] }

  lemma {:induction false} StillWorking(s: Store, p: nat, t: TaskId, k: nat)
    requires Working(s, p, t, 0) && k <= 3
    ensures Working(After(s, CallsLeft(p), k), p, t, k)
  {
    if k > 0 {
      StillWorking(s, p, t, k - 1);
      var was := After(s, CallsLeft(p), k - 1);
      if k == 1 {
        UpdateWorks(was, p, t, 0);
      } else if k == 2 {
        CopyWorks(was, p, t);
      } else {
        ArchiveWorks(was, p, t);
      }
    }
  }

  /** The calls a pass has left take its record out of the hot bucket. */
  lemma PassFinishes(s: Store, p: nat, t: TaskId)
    requires Working(s, p, t, 0)
    ensures t !in After(s, CallsLeft(p), |CallsLeft(p)|).hot
  {
    StillWorking(s, p, t, 3);
    PurgeWorks(After(s, CallsLeft(p), 3), p, t);
  }

  /** Exactly: a stamped record can still leave the hot bucket if and only if some
      pruning pass is at work on it. */
  lemma LeavesHotIff(s: Store, t: TaskId)
    requires Inv(s) && t in s.hot && s.hot[t].compactLevel == 1
    ensures (exists steps :: t !in After(s, steps, |steps|).hot) <==> !Abandoned(s, t)
  {
    if Abandoned(s, t) {
      forall steps ensures t in After(s, steps, |steps|).hot {
        StoppedPassIsNeverFinished(s, steps, |steps|, t);
      }
    } else {
      var p :| p in s.passes && Pruning(s.passes[p], t);
      PassFinishes(s, p, t);
    }
  }

  const EmptyStore := Store(map[], map[], map[])

  /** Such a store is reached: open, close, and one pass, which prunes and stops after
      its update or does not prune at all. */
  lemma AbandonedIsReached(prune: bool) returns (steps: seq<Step>)
    ensures Inv(EmptyStore) && Abandoned(After(EmptyStore, steps, |steps|), "t")
    ensures !prune ==> forall step | step in steps :: !step.Stop?
  {
    var open := NewTask("t", [], "", [], 0, None);
    var closed := ApplyClose(open, "a", "done", 1);
    steps := [Step.Open("t", open), Edit("t", closed), Summarize(0, "t", 9, prune), Update(0, 2)];
    if prune { steps := steps + [Stop(0)]; }
    OpensAndCloses(open, closed, steps);
    SummarizesAndStops(closed, EmptyStore, steps, prune);
  }

  lemma OpensAndCloses(open: Task, closed: Task, steps: seq<Step>)
    requires open.status == Status.Open && open.compactLevel == 0 && closed == ApplyClose(open, "a", "done", 1)
    requires |steps| >= 2 && steps[0] == Step.Open("t", open) && steps[1] == Edit("t", closed)
    ensures After(EmptyStore, steps, 2) == EmptyStore.(hot := map["t" := closed])
  {
    assert After(EmptyStore, steps, 0) == EmptyStore;
    assert After(EmptyStore, steps, 1) == EmptyStore.(hot := map["t" := open]);
  }

  lemma SummarizesAndStops(closed: Task, s: Store, steps: seq<Step>, prune: bool)
    requires |steps| == (if prune then 5 else 4) && (prune ==> steps[4] == Stop(0))
    requires steps[2] == Summarize(0, "t", 9, prune) && steps[3] == Update(0, 2)
    requires After(s, steps, 2) == Store(map["t" := closed], map[], map[])
    requires Uncompacted(closed) && closed.claimedBy == NoAgent
    ensures Abandoned(After(s, steps, |steps|), "t")
  {
    var s3 := Store(map["t" := closed], map[], map[0 := Summarized("t", 1, 9, prune)]);
    assert After(s, steps, 3) == s3;
    StampsTheOnlyTask(s3, closed, prune);
    assert After(s, steps, 4) == UpdateStep(s3, 0, 2);
    if prune {
      assert After(s, steps, 5) == At(UpdateStep(s3, 0, 2), 0, Idle);
    }
  }

  lemma StampsTheOnlyTask(s: Store, closed: Task, prune: bool)
    requires s == Store(map["t" := closed], map[], map[0 := Summarized("t", 1, 9, prune)])
    requires closed.status == Closed && closed.claimedBy == NoAgent
    ensures UpdateStep(s, 0, 2).passes == map[0 := if prune then Updated("t") else Idle]
    ensures "t" in UpdateStep(s, 0, 2).hot && UpdateStep(s, 0, 2).hot["t"].compactLevel == 1
  {
  }
}
