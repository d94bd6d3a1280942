/** One acquisition run without interference, as a function of the state it
    starts from. Both the step machine and the imperative Coord are proved to
    compute it; what the three routes promise is proved about it. */
module Acquisition {
  import opened Tasks
  import opened Protocol

  /** What one Coord sees: the bucket, the hold table, its own activeEpochs. */
  datatype View = View(tasks: map<TaskId, Task>, holds: map<Path, Agent>, epochs: map<TaskId, nat>)

  /** The first file from n on that another agent holds, or |files|. */
  function FirstBlocked(holds: map<Path, Agent>, agent: Agent, files: seq<Path>, n: nat := 0): (k: nat)
    requires n <= |files|
    ensures n <= k <= |files|
    decreases |files| - n
  {
    if n == |files| || HeldByOther(holds, files[n], agent) then n
    else FirstBlocked(holds, agent, files, n + 1)
  }

  lemma {:induction false} FirstBlockedIsFirst(holds: map<Path, Agent>, agent: Agent, files: seq<Path>, n: nat)
    requires n <= |files|
    ensures var k := FirstBlocked(holds, agent, files, n);
      && (forall i | n <= i < k :: !HeldByOther(holds, files[i], agent))
      && (k < |files| ==> HeldByOther(holds, files[k], agent))
    decreases |files| - n
  {
    if n < |files| && !HeldByOther(holds, files[n], agent) {
      FirstBlockedIsFirst(holds, agent, files, n + 1);
    }
  }

  function WithHolds(holds: map<Path, Agent>, agent: Agent, files: seq<Path>): map<Path, Agent> {
    holds + map f | f in files :: agent
  }

  /** The table once `agent` has released what it holds of `files`. */
  function WithoutHoldsOf(holds: map<Path, Agent>, agent: Agent, files: seq<Path>): map<Path, Agent> {
    map p | p in holds && !(p in files && holds[p] == agent) :: holds[p]
  }

  /** The hold table claimAll starts from: a takeover first drops the old claimer's holds. */
  function Base(holds: map<Path, Agent>, route: Route, prev: Agent, files: seq<Path>): map<Path, Agent> {
    if route.ByClaim? then holds else WithoutHoldsOf(holds, prev, files)
  }

  /** The holding half, once the record is won: all files, or none and the record given back. */
  function HoldAll(v: View, agent: Agent, t: TaskId, files: seq<Path>): (Result<seq<Path>>, View) {
    var k := FirstBlocked(v.holds, agent, files);
    if k == |files| then (Ok(files), v.(holds := WithHolds(v.holds, agent, files)))
    else
      (Err(HeldByAnother),
       View(TxOrKeep(v.tasks, t, UnclaimMutator(agent)),
            WithoutHoldsOf(WithHolds(v.holds, agent, files[..k]), agent, files[..k]),
            v.epochs - {t}))
  }

  /** The whole call: its answer (the files held, or the error) and the state after it. */
  function Acquire(v: View, agent: Agent, t: TaskId, route: Route, live: bool): (Result<seq<Path>>, View) {
    if t !in v.tasks then (Err(TaskNotFound), v)
    else
      var rec := v.tasks[t];
      match PreCheck(route, rec, agent, live)
      case Some(e) => (Err(e), v)
      case None =>
        match Tx(v.tasks, t, AcquireMutator(route, agent))
        case Err(e) => (Err(e), v)
        case Ok(after) =>
          HoldAll(View(after, Base(v.holds, route, rec.claimedBy, rec.files), v.epochs[t := after[t].claimEpoch]),
                  agent, t, rec.files)
  }

  /** The release closure's one effective run. */
  function Release(v: View, agent: Agent, t: TaskId, held: seq<Path>): View {
    View(TxOrKeep(v.tasks, t, UnclaimMutator(agent)), WithoutHoldsOf(v.holds, agent, held), v.epochs - {t})
  }

  /** checkHolds and checkEpoch both pass. */
  predicate PassesGates(v: View, agent: Agent, t: TaskId, files: seq<Path>) {
    && (forall f | f in files :: f in v.holds && v.holds[f] == agent)
    && t in v.tasks && v.tasks[t].claimEpoch == (if t in v.epochs then v.epochs[t] else 0)
  }

  // ----- what the three routes promise -----

  predicate Acquirable(v: View, agent: Agent, t: TaskId, route: Route, live: bool) {
    agent != NoAgent && t in v.tasks && PreCheck(route, v.tasks[t], agent, live) == None
  }

  /** A call that fails its checks changes nothing; one that passes them either
      succeeds or finds a file held by another. */
  lemma RefusedChangesNothing(v: View, agent: Agent, t: TaskId, route: Route, live: bool)
    requires agent != NoAgent
    ensures var (r, v') := Acquire(v, agent, t, route, live);
      if Acquirable(v, agent, t, route, live) then r.Ok? || r == Err(HeldByAnother) else r.Err? && v' == v
  {
  }

  // What each route accepts, on the fields of the record.

  /** Turned away: an error, and nothing has changed. */
  predicate Refuses(v: View, agent: Agent, t: TaskId, route: Route, live: bool, e: Error) {
    Acquire(v, agent, t, route, live) == (Err(e), v)
  }

  /** Let through: the record is taken under the next epoch, whatever the holds then say. */
  predicate Takes(v: View, agent: Agent, t: TaskId, route: Route, live: bool)
    requires t in v.tasks
  {
    var (r, v') := Acquire(v, agent, t, route, live);
    && (r == Ok(v.tasks[t].files) || r == Err(HeldByAnother))
    && t in v'.tasks && v'.tasks[t].claimEpoch == v.tasks[t].claimEpoch + 1
  }

  /** Claim takes an open task that nobody has claimed, and no other. */
  lemma ClaimAnswers(v: View, agent: Agent, t: TaskId)
    requires agent != NoAgent
    ensures t !in v.tasks ==> Refuses(v, agent, t, ByClaim, false, TaskNotFound)
    ensures t in v.tasks ==>
      var rec := v.tasks[t];
      && (Takes(v, agent, t, ByClaim, false) <==> rec.status == Open && rec.claimedBy == "")
      && (rec.status != Open || rec.claimedBy != "" ==> Refuses(v, agent, t, ByClaim, false, TaskAlreadyClaimed))
  {
  }

  /** Reclaim takes a task that another agent has claimed and presence does not list,
      and no other: a live claimer is never robbed. */
  lemma ReclaimAnswers(v: View, agent: Agent, t: TaskId, live: bool)
    requires agent != NoAgent
    ensures t !in v.tasks ==> Refuses(v, agent, t, ByReclaim, live, TaskNotFound)
    ensures t in v.tasks ==>
      var rec := v.tasks[t];
      && (Takes(v, agent, t, ByReclaim, live) <==> rec.status == Claimed && rec.claimedBy != agent && !live)
      && (rec.status != Claimed ==> Refuses(v, agent, t, ByReclaim, live, TaskNotClaimed))
      && (rec.status == Claimed && rec.claimedBy == agent ==> Refuses(v, agent, t, ByReclaim, live, AlreadyClaimer))
      && (rec.status == Claimed && rec.claimedBy != agent && live ==>
          Refuses(v, agent, t, ByReclaim, live, ClaimerLive))
  {
  }

  /** HandoffClaim takes a task that the named agent has claimed, and no other. */
  lemma HandoffAnswers(v: View, agent: Agent, t: TaskId, giver: Agent)
    requires agent != NoAgent
    ensures t !in v.tasks ==> Refuses(v, agent, t, ByHandoff(giver), false, TaskNotFound)
    ensures t in v.tasks ==>
      var rec := v.tasks[t]; var route := ByHandoff(giver);
      && (Takes(v, agent, t, route, false) <==> rec.status == Claimed && rec.claimedBy == giver != agent)
      && (rec.status != Claimed ==> Refuses(v, agent, t, route, false, TaskNotClaimed))
      && (rec.status == Claimed && rec.claimedBy == agent ==> Refuses(v, agent, t, route, false, AlreadyClaimer))
      && (rec.status == Claimed && rec.claimedBy != agent && rec.claimedBy != giver ==>
          Refuses(v, agent, t, route, false, AgentMismatch))
  {
  }

  /** All: on success the task is the caller's with the epoch raised by one, the
      caller holds every file of the record and passes both commit gates for any
      selection of them. */
  lemma SuccessHoldsAll(v: View, agent: Agent, t: TaskId, route: Route, live: bool, some: seq<Path>)
    requires agent != NoAgent && Acquire(v, agent, t, route, live).0.Ok?
    requires t in v.tasks ==> forall f | f in some :: f in v.tasks[t].files
    ensures var (r, v') := Acquire(v, agent, t, route, live);
      && Acquirable(v, agent, t, route, live)
      && r.value == v.tasks[t].files
      && v'.tasks == v.tasks[t := v.tasks[t].(status := Claimed, claimedBy := agent,
          claimEpoch := v.tasks[t].claimEpoch + 1)]
      && PassesGates(v', agent, t, some)
  {
  }

  /** The record half: un-claiming a fresh claim opens it with only the epoch raised. */
  lemma UnclaimOpens(tasks: map<TaskId, Task>, t: TaskId, agent: Agent)
    requires agent != NoAgent && t in tasks
    ensures var won := tasks[t := tasks[t].(status := Claimed, claimedBy := agent,
        claimEpoch := tasks[t].claimEpoch + 1)];
      TxOrKeep(won, t, UnclaimMutator(agent)) ==
        tasks[t := tasks[t].(status := Open, claimedBy := NoAgent, claimEpoch := tasks[t].claimEpoch + 1)]
  {
  }

  lemma AcquiredRecord(v: View, agent: Agent, t: TaskId, route: Route, live: bool)
    requires Acquirable(v, agent, t, route, live)
    ensures Tx(v.tasks, t, AcquireMutator(route, agent)) ==
      Ok(v.tasks[t := v.tasks[t].(status := Claimed, claimedBy := agent, claimEpoch := v.tasks[t].claimEpoch + 1)])
  {
  }

  /** Nothing: on a hold failure the record is open and unclaimed with only its
      epoch raised, and the Coord remembers no epoch for it. */
  lemma FailureGivesBack(v: View, agent: Agent, t: TaskId, route: Route, live: bool)
    requires Acquirable(v, agent, t, route, live) && Acquire(v, agent, t, route, live).0.Err?
    ensures var v' := Acquire(v, agent, t, route, live).1; var rec := v.tasks[t];
      && v'.tasks == v.tasks[t := rec.(status := Open, claimedBy := NoAgent, claimEpoch := rec.claimEpoch + 1)]
      && v'.epochs == v.epochs - {t}
  {
    AcquiredRecord(v, agent, t, route, live);
    UnclaimOpens(v.tasks, t, agent);
  }

  /** The hold table after a call that passed its checks. On success the files are
      the caller's and everything else is as the takeover left it. On failure no
      announced file is held by the caller, and no other agent lost a hold except
      the old claimer the ones it had on this task's files. */
  lemma HoldsAfter(v: View, agent: Agent, t: TaskId, route: Route, live: bool)
    requires Acquirable(v, agent, t, route, live)
    ensures var (r, v') := Acquire(v, agent, t, route, live);
      var rec := v.tasks[t]; var base := Base(v.holds, route, rec.claimedBy, rec.files);
      var announced := rec.files[..FirstBlocked(base, agent, rec.files)];
      && (r.Ok? <==> forall f | f in rec.files :: !HeldByOther(base, f, agent))
      && (r.Ok? ==> v'.holds == WithHolds(base, agent, rec.files))
      && (r.Err? ==> v'.holds == base - (set f | f in announced))
  {
    var rec := v.tasks[t];
    var base := Base(v.holds, route, rec.claimedBy, rec.files);
    var k := FirstBlocked(base, agent, rec.files);
    FirstBlockedIsFirst(base, agent, rec.files, 0);
    if k < |rec.files| {
      RollbackDropsAnnounced(base, agent, rec.files[..k]);
      assert rec.files[k] in rec.files;
    } else {
      assert forall f | f in rec.files :: exists i | 0 <= i < |rec.files| :: rec.files[i] == f;
    }
  }

  /** A call that is let through succeeds exactly when every file is free, the caller's
      own or, in a takeover, the old claimer's. */
  lemma SucceedsIff(v: View, agent: Agent, t: TaskId, route: Route, live: bool)
    requires Acquirable(v, agent, t, route, live)
    ensures var rec := v.tasks[t];
      Acquire(v, agent, t, route, live).0.Ok? <==>
        forall f | f in rec.files && f in v.holds ::
          v.holds[f] == agent || (!route.ByClaim? && v.holds[f] == rec.claimedBy)
  {
    HoldsAfter(v, agent, t, route, live);
    var rec := v.tasks[t];
    forall f | f in rec.files
      ensures HeldByOther(Base(v.holds, route, rec.claimedBy, rec.files), f, agent) <==>
        f in v.holds && v.holds[f] != agent && (route.ByClaim? || v.holds[f] != rec.claimedBy)
    {
    }
  }

  lemma RollbackDropsAnnounced(holds: map<Path, Agent>, agent: Agent, files: seq<Path>)
    ensures WithoutHoldsOf(WithHolds(holds, agent, files), agent, files) == holds - (set f | f in files)
  {
  }

  /** A failed Claim leaves the hold table exactly as it was if and only if the
      caller held none of the files it announced: the rollback also drops holds
      the caller had before the call. */
  lemma FailedClaimRestoresHolds(v: View, agent: Agent, t: TaskId)
    requires Acquirable(v, agent, t, ByClaim, false) && Acquire(v, agent, t, ByClaim, false).0.Err?
    ensures var announced := v.tasks[t].files[..FirstBlocked(v.holds, agent, v.tasks[t].files)];
      Acquire(v, agent, t, ByClaim, false).1.holds == v.holds <==> forall f | f in announced :: f !in v.holds
  {
    HoldsAfter(v, agent, t, ByClaim, false);
    var announced := v.tasks[t].files[..FirstBlocked(v.holds, agent, v.tasks[t].files)];
    var v' := Acquire(v, agent, t, ByClaim, false).1;
    assert v'.holds == v.holds - (set f | f in announced);
    if v'.holds == v.holds {
      forall f | f in announced ensures f !in v.holds {
        assert f !in v'.holds;
      }
    }
  }

  /** A caller that already held its first file loses it when the second is another's. */
  lemma FailedClaimDropsAnEarlierHold() returns (v: View, agent: Agent, t: TaskId)
    ensures Acquire(v, agent, t, ByClaim, false).0 == Err(HeldByAnother)
    ensures "f" in v.holds && v.holds["f"] == agent && "f" !in Acquire(v, agent, t, ByClaim, false).1.holds
  {
    agent, t := "a", "t";
    v := View(map["t" := NewTask("t", ["f", "g"], "", [], 0, None)], map["f" := "a", "g" := "b"], map[]);
    var files := ["f", "g"];
    assert FirstBlocked(v.holds, agent, files, 1) == 1 && FirstBlocked(v.holds, agent, files, 0) == 1;
    HoldsAfter(v, agent, t, ByClaim, false);
    assert files[1] in files && files[0] in files[..1];
  }

  /** The view a Claim leaves when no file is blocked. */
  function AfterClaim(v: View, agent: Agent, t: TaskId): View
    requires t in v.tasks
  {
    var rec := v.tasks[t];
    View(v.tasks[t := rec.(status := Claimed, claimedBy := agent, claimEpoch := rec.claimEpoch + 1)],
           WithHolds(v.holds, agent, rec.files), v.epochs[t := rec.claimEpoch + 1])
  }

  lemma UnblockedClaim(v: View, agent: Agent, t: TaskId)
    requires agent != NoAgent && t in v.tasks && v.tasks[t].status == Open && v.tasks[t].claimedBy == NoAgent
    requires FirstBlocked(v.holds, agent, v.tasks[t].files) == |v.tasks[t].files|
    ensures Acquire(v, agent, t, ByClaim, false) == (Ok(v.tasks[t].files), AfterClaim(v, agent, t))
  {
  }

  /** Dropping files leaves the table as it was exactly when it held none of them. */
  lemma DroppingIsRestoringIff(holds: map<Path, Agent>, files: seq<Path>)
    ensures holds - (set f | f in files) == holds <==> forall f | f in files :: f !in holds
  {
    var left := holds - (set f | f in files);
    if left == holds {
      forall f | f in files ensures f !in holds {
        assert f !in left;
      }
    }
  }

  lemma ReleaseAfterClaim(v: View, agent: Agent, t: TaskId)
    requires agent != NoAgent && t in v.tasks && v.tasks[t].status == Open && v.tasks[t].claimedBy == NoAgent
    ensures var v2 := Release(AfterClaim(v, agent, t), agent, t, v.tasks[t].files);
      && v2.tasks == v.tasks[t := v.tasks[t].(claimEpoch := v.tasks[t].claimEpoch + 1)]
      && v2.epochs == v.epochs - {t}
      && v2.holds == v.holds - (set f | f in v.tasks[t].files)
  {
    UnclaimOpens(v.tasks, t, agent);
    RollbackDropsAnnounced(v.holds, agent, v.tasks[t].files);
    assert v.epochs[t := v.tasks[t].claimEpoch + 1] - {t} == v.epochs - {t};
  }

  /** Claim followed at once by its release restores status, claimed_by and every
      other field of the record but the epoch; the hold table is restored too if
      and only if the caller held none of the files before. */
  lemma ClaimThenRelease(v: View, agent: Agent, t: TaskId)
    requires Acquirable(v, agent, t, ByClaim, false) && Acquire(v, agent, t, ByClaim, false).0.Ok?
    ensures var (r, v1) := Acquire(v, agent, t, ByClaim, false);
      var v2 := Release(v1, agent, t, r.value);
      && v2.tasks == v.tasks[t := v.tasks[t].(claimEpoch := v.tasks[t].claimEpoch + 1)]
      && v2.epochs == v.epochs - {t}
      && (v2.holds == v.holds <==> forall f | f in v.tasks[t].files :: f !in v.holds)
  {
    UnblockedClaim(v, agent, t);
    ReleaseAfterClaim(v, agent, t);
    DroppingIsRestoringIff(v.holds, v.tasks[t].files);
  }
}
