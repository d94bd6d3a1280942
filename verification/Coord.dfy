/** The Coord operations in the source's own form: methods that rewrite records
    through transactions, store and delete activeEpochs entries, and loop over
    the files of a task. Each is proved against the function of module
    Acquisition that the step machine's solo runs also compute. Substrate
    failures other than a hold conflict belong to the step machine. */
module CoordOps {
  import opened Tasks
  import opened Sorting
  import Protocol
  import A = Acquisition

  class Substrate {
    var tasks: map<TaskId, Task>
    var holds: map<Path, Agent>

    /** tasks.Tx: one atomic read-mutate-write. */
    method Tx(id: TaskId, mutate: Mutator) returns (r: Result<Task>)
      modifies this`tasks
      ensures tasks == TxOrKeep(old(tasks), id, mutate)
      ensures r.Ok? <==> Tasks.Tx(old(tasks), id, mutate).Ok?
      ensures r.Ok? ==> id in tasks && r.value == tasks[id]
      ensures r.Err? ==> Tasks.Tx(old(tasks), id, mutate) == Err(r.error)
    {
      match Tasks.Tx(tasks, id, mutate)
      case Ok(after) =>
        tasks := after;
        r := Ok(tasks[id]);
      case Err(e) =>
        r := Err(e);
    }

    /** holds.Announce: renews a hold of the same agent, refuses another's. */
    method Announce(p: Path, agent: Agent) returns (ok: bool)
      modifies this`holds
      ensures ok == !Protocol.HeldByOther(old(holds), p, agent)
      ensures holds == if ok then old(holds)[p := agent] else old(holds)
    {
      ok := !(p in holds && holds[p] != agent);
      if ok { holds := holds[p := agent]; }
    }

    /** holds.Release: drops the hold only if `agent` owns it. */
    method Release(p: Path, agent: Agent)
      modifies this`holds
      ensures holds == Protocol.ReleaseHold(old(holds), p, agent)
    {
      if p in holds && holds[p] == agent { holds := holds - {p}; }
    }

    /** The loop of rollback, releaseHolds and releaseOldHolds. */
    method ReleaseAll(files: seq<Path>, agent: Agent)
      modifies this`holds
      ensures holds == A.WithoutHoldsOf(old(holds), agent, files)
    {
      for i := 0 to |files|
        invariant holds == A.WithoutHoldsOf(old(holds), agent, files[..i])
      {
        assert files[..i + 1] == files[..i] + [files[i]];
        Release(files[i], agent);
      }
      assert files[..|files|] == files;
    }
  }

  /** The handle Claim returns: its release closure is guarded by sync.Once. */
  class Claim {
    const coord: Coord
    const task: TaskId
    const held: seq<Path>
    var released: bool

    constructor (coord: Coord, task: TaskId, held: seq<Path>)
      ensures this.coord == coord && this.task == task && this.held == held && !released
    {
      this.coord, this.task, this.held, this.released := coord, task, held, false;
    }

    /** The first call undoes the acquisition; later calls change nothing. */
    method Release()
      modifies this, coord, coord.sub
      ensures released
      ensures old(released) ==> coord.View() == old(coord.View())
      ensures !old(released) ==> coord.View() == A.Release(old(coord.View()), coord.agent, task, held)
    {
      if !released {
        released := true;
        var _ := coord.sub.Tx(task, UnclaimMutator(coord.agent));
        coord.sub.ReleaseAll(held, coord.agent);
        coord.activeEpochs := coord.activeEpochs - {task};
      }
    }
  }

  class Coord {
    const agent: Agent
    const sub: Substrate
    var activeEpochs: map<TaskId, nat>

    constructor (agent: Agent, sub: Substrate)
      ensures this.agent == agent && this.sub == sub && activeEpochs == map[]
    {
      this.agent, this.sub, this.activeEpochs := agent, sub, map[];
    }

    ghost function View(): A.View
      reads this, sub
    {
      A.View(sub.tasks, sub.holds, activeEpochs)
    }

    /** Announces every file in order and stops at the first one another agent holds. */
    method ClaimAll(files: seq<Path>) returns (held: seq<Path>, err: Option<Error>)
      modifies sub`holds
      ensures var k := A.FirstBlocked(old(sub.holds), agent, files);
        && held == files[..k]
        && err == (if k == |files| then None else Some(HeldByAnother))
        && sub.holds == A.WithHolds(old(sub.holds), agent, files[..k])
    {
      ghost var start := sub.holds;
      held := [];
      for i := 0 to |files|
        invariant held == files[..i]
        invariant A.FirstBlocked(start, agent, files) == A.FirstBlocked(start, agent, files, i)
        invariant sub.holds == A.WithHolds(start, agent, files[..i])
      {
        OneMore(start, agent, files, i);
        var ok := sub.Announce(files[i], agent);
        if !ok {
          return held, Some(HeldByAnother);
        }
        held := held + [files[i]];
      }
      err := None;
    }

    /** rollback and undoTaskCAS, or the release handle. */
    method HoldOrUndo(t: TaskId, files: seq<Path>) returns (r: Result<Claim>)
      modifies this, sub
      ensures (if r.Ok? then Ok(r.value.held) else Err(r.error), View()) == A.HoldAll(old(View()), agent, t, files)
      ensures r.Ok? ==> fresh(r.value) && r.value.coord == this && r.value.task == t && !r.value.released
    {
      var held, err := ClaimAll(files);
      if err.Some? {
        sub.ReleaseAll(held, agent);
        var _ := sub.Tx(t, UnclaimMutator(agent));
        activeEpochs := activeEpochs - {t};
        return Err(err.value);
      }
      assert held == files;
      var c := new Claim(this, t, held);
      r := Ok(c);
    }

    /** Claim on an open task. */
    method Claim(t: TaskId) returns (r: Result<Claim>)
      modifies this, sub
      ensures (if r.Ok? then Ok(r.value.held) else Err(r.error), View()) ==
        A.Acquire(old(View()), agent, t, ByClaim, false)
      ensures r.Ok? ==> fresh(r.value) && r.value.coord == this && r.value.task == t && !r.value.released
    {
      if t !in sub.tasks { return Err(TaskNotFound); }
      var rec := sub.tasks[t];
      if rec.status != Open || rec.claimedBy != NoAgent { return Err(TaskAlreadyClaimed); }
      var won := sub.Tx(t, AcquireMutator(ByClaim, agent));
      if won.Err? { return Err(won.error); }
      activeEpochs := activeEpochs[t := won.value.claimEpoch];
      r := HoldOrUndo(t, rec.files);
    }

    /** Reclaim of a task whose claimer is gone; `present` is what presence lists. */
    method Reclaim(t: TaskId, present: seq<Agent>) returns (r: Result<Claim>)
      modifies this, sub
      ensures var live := t in old(sub.tasks) && old(sub.tasks)[t].claimedBy in present;
        (if r.Ok? then Ok(r.value.held) else Err(r.error), View()) ==
          A.Acquire(old(View()), agent, t, ByReclaim, live)
      ensures r.Ok? ==> fresh(r.value) && r.value.coord == this && r.value.task == t && !r.value.released
    {
      if t !in sub.tasks { return Err(TaskNotFound); }
      var rec := sub.tasks[t];
      if rec.status != Claimed { return Err(TaskNotClaimed); }
      if rec.claimedBy == agent { return Err(AlreadyClaimer); }
      var live := IsPresent(present, rec.claimedBy);
      if live { return Err(ClaimerLive); }
      var won := sub.Tx(t, AcquireMutator(ByReclaim, agent));
      if won.Err? { return Err(won.error); }
      activeEpochs := activeEpochs[t := won.value.claimEpoch];
      sub.ReleaseAll(rec.files, rec.claimedBy);
      r := HoldOrUndo(t, rec.files);
    }

    /** Cooperative takeover from fromAgent. */
    method HandoffClaim(t: TaskId, fromAgent: Agent) returns (r: Result<Claim>)
      modifies this, sub
      ensures (if r.Ok? then Ok(r.value.held) else Err(r.error), View()) ==
        A.Acquire(old(View()), agent, t, ByHandoff(fromAgent), false)
      ensures r.Ok? ==> fresh(r.value) && r.value.coord == this && r.value.task == t && !r.value.released
    {
      if t !in sub.tasks { return Err(TaskNotFound); }
      var rec := sub.tasks[t];
      if rec.status != Claimed { return Err(TaskNotClaimed); }
      if rec.claimedBy == agent { return Err(AlreadyClaimer); }
      if rec.claimedBy != fromAgent { return Err(AgentMismatch); }
      var won := sub.Tx(t, AcquireMutator(ByHandoff(fromAgent), agent));
      if won.Err? { return Err(won.error); }
      activeEpochs := activeEpochs[t := won.value.claimEpoch];
      sub.ReleaseAll(rec.files, fromAgent);
      r := HoldOrUndo(t, rec.files);
    }

    /** Leaf.AnnounceHolds: all of the paths, or none of them and an error. */
    method AnnounceHolds(paths: seq<Path>) returns (err: Option<Error>)
      modifies sub`holds
      ensures var k := A.FirstBlocked(old(sub.holds), agent, paths);
        if k == |paths| then err == None && sub.holds == A.WithHolds(old(sub.holds), agent, paths)
        else err == Some(HeldByAnother) && sub.holds == old(sub.holds) - (set p | p in paths[..k])
    {
      var held;
      held, err := ClaimAll(paths);
      if err.Some? {
        A.RollbackDropsAnnounced(old(sub.holds), agent, held);
        sub.ReleaseAll(held, agent);
      } else {
        assert paths[..|paths|] == paths;
      }
    }

    /** The hold gate: the files this agent does not hold, in order and as often as
        they were asked for. */
    method CheckHolds(files: seq<Path>) returns (notHeld: seq<Path>)
      ensures notHeld == Filter(files, NotHeldBy(sub.holds, agent))
    {
      notHeld := [];
      for i := 0 to |files|
        invariant notHeld == Filter(files[..i], NotHeldBy(sub.holds, agent))
      {
        assert files[..i + 1] == files[..i] + [files[i]];
        FilterAppend(files[..i], [files[i]], NotHeldBy(sub.holds, agent));
        if !(files[i] in sub.holds && sub.holds[files[i]] == agent) {
          notHeld := notHeld + [files[i]];
        }
      }
      assert files[..|files|] == files;
    }

    /** The gates of Leaf.Commit, in the order it asks them, and the error of the
        first that refuses. */
    method CommitGates(t: TaskId, files: seq<Path>) returns (err: Option<Error>)
      ensures var want := if t in activeEpochs then activeEpochs[t] else 0;
        err == None <==> (forall f | f in files :: f in sub.holds && sub.holds[f] == agent)
                         && t in sub.tasks && sub.tasks[t].claimEpoch == want
      ensures err == None <==> A.PassesGates(View(), agent, t, files)
      ensures err == Some(NotHeld) <==> exists f | f in files :: !(f in sub.holds && sub.holds[f] == agent)
      ensures err.Some? && err.value != NotHeld ==> err.value == (if t !in sub.tasks then TaskNotFound else EpochStale)
    {
      var notHeld := CheckHolds(files);
      NoneLeftOut(sub.holds, agent, files);
      if notHeld != [] { return Some(NotHeld); }
      if t !in sub.tasks { return Some(TaskNotFound); }
      var want := if t in activeEpochs then activeEpochs[t] else 0;
      if sub.tasks[t].claimEpoch != want { return Some(EpochStale); }
      err := None;
    }

    method CloseTask(t: TaskId, reason: string, now: int) returns (r: Result<Task>)
      modifies sub`tasks
      ensures var want := if t in activeEpochs then activeEpochs[t] else 0;
        && (r.Ok? <==> t in old(sub.tasks) && old(sub.tasks)[t].status != Closed && old(sub.tasks)[t].claimedBy == agent
                       && old(sub.tasks)[t].claimEpoch == want)
        && (r.Ok? ==>
              && r.value == old(sub.tasks)[t].(status := Closed, claimedBy := "", closedAt := Some(now),
                                               closedBy := agent, closedReason := reason)
              && sub.tasks == old(sub.tasks)[t := r.value])
        && (r.Err? ==>
              && sub.tasks == old(sub.tasks)
              && r.error == if t !in old(sub.tasks) then TaskNotFound
                            else if old(sub.tasks)[t].status == Closed then TaskAlreadyClosed
                            else if old(sub.tasks)[t].claimedBy != agent then AgentMismatch
                            else EpochStale)
    {
      var want := if t in activeEpochs then activeEpochs[t] else 0;
      r := sub.Tx(t, CloseMutator(agent, want, reason, now));
    }
  }

  /** assertClaimerOffline: whether presence lists the agent. */
  method IsPresent(present: seq<Agent>, claimer: Agent) returns (live: bool)
    ensures live <==> claimer in present
  {
    for i := 0 to |present|
      invariant claimer !in present[..i]
    {
      if present[i] == claimer { return true; }
    }
    live := false;
  }

  function NotHeldBy(holds: map<Path, Agent>, agent: Agent): Path -> bool {
    (f: Path) => !(f in holds && holds[f] == agent)
  }

  lemma NoneLeftOut(holds: map<Path, Agent>, agent: Agent, files: seq<Path>)
    ensures Filter(files, NotHeldBy(holds, agent)) == [] <==> forall f | f in files :: f in holds && holds[f] == agent
  {
    var left := Filter(files, NotHeldBy(holds, agent));
    forall f ensures f in left <==> f in files && !(f in holds && holds[f] == agent) {
      FilterMember(files, NotHeldBy(holds, agent), f);
    }
    assert left != [] ==> left[0] in left;
  }

  lemma WithOneMore(start: map<Path, Agent>, agent: Agent, done: seq<Path>, f: Path)
    ensures A.WithHolds(start, agent, done + [f]) == A.WithHolds(start, agent, done)[f := agent]
  {
  }

  /** Announcing file i next, after all files before it. */
  lemma OneMore(start: map<Path, Agent>, agent: Agent, files: seq<Path>, i: nat)
    requires i < |files| && i <= A.FirstBlocked(start, agent, files)
    ensures var holds := A.WithHolds(start, agent, files[..i]);
      && (Protocol.HeldByOther(holds, files[i], agent) <==> Protocol.HeldByOther(start, files[i], agent))
      && A.WithHolds(start, agent, files[..i + 1]) == holds[files[i] := agent]
      && files[..i + 1] == files[..i] + [files[i]]
  {
    assert files[..i + 1] == files[..i] + [files[i]];
    WithOneMore(start, agent, files[..i], files[i]);
    A.FirstBlockedIsFirst(start, agent, files, 0);
  }

  /** Leaf.Close: close the task, then drop what the claim still holds. */
  method LeafClose(c: Claim, now: int) returns (r: Result<Task>)
    modifies c, c.coord, c.coord.sub
    ensures r.Ok? ==>
      && c.task in old(c.coord.sub.tasks)
      && c.released
      && r.value == old(c.coord.sub.tasks)[c.task].(status := Closed, claimedBy := "", closedAt := Some(now),
                                                    closedBy := c.coord.agent, closedReason := "leaf close")
      && c.coord.sub.tasks == old(c.coord.sub.tasks)[c.task := r.value]
      && (if old(c.released) then c.coord.sub.holds == old(c.coord.sub.holds)
          && c.coord.activeEpochs == old(c.coord.activeEpochs)
          else c.coord.sub.holds == A.WithoutHoldsOf(old(c.coord.sub.holds), c.coord.agent, c.held)
               && c.coord.activeEpochs == old(c.coord.activeEpochs) - {c.task})
    ensures r.Err? ==> c.coord.View() == old(c.coord.View()) && c.released == old(c.released)
  {
    r := c.coord.CloseTask(c.task, "leaf close", now);
    if r.Ok? {
      c.Release();
    }
  }
}
