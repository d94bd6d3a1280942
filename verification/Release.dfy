/** The release closure over whole interleavings: how often it acts, what it can
    touch, and the one claim it may give back by mistake. */
module ReleaseClosure {
  import opened Tasks
  import opened Protocol

  /** The operation has returned its release closure. */
  predicate Returned(p: Phase) {
    p.Live? || p.Unclaiming? || p.Freeing? || p.Clearing? || p.Spent? || p.Crashed?
  }

  /** The calls the closure still has to make: one un-claim, one release a file,
      one delete, and the loop's exit test. */
  function Budget(p: Phase): nat {
    match p
    case Live(held) => |held| + 3
    case Unclaiming(held) => |held| + 3
    case Freeing(held, n) => if n <= |held| then |held| - n + 2 else 2
    case Clearing => 1
    case _ => 0
  }

  /** Step s makes a call of the closure of o. */
  predicate ClosureCall(w: World, s: Step, o: OpId) {
    && s.Advance? && s.op == o && o in w.ops && w.ops[o].coord in w.agents
    && Closing(w.ops[o].phase)
  }

  function ClosureCalls(w: World, steps: seq<Step>, o: OpId): nat
    decreases |steps|
  {
    if steps == [] then 0
    else (if ClosureCall(w, steps[0], o) then 1 else 0) + ClosureCalls(Next(w, steps[0]), steps[1..], o)
  }

  function Unclaims(w: World, steps: seq<Step>, o: OpId): nat
    decreases |steps|
  {
    if steps == [] then 0
    else
      var now := if ClosureCall(w, steps[0], o) && w.ops[o].phase.Unclaiming? then 1 else 0;
      now + Unclaims(Next(w, steps[0]), steps[1..], o)
  }

  function UnclaimsLeft(p: Phase): nat {
    if p.Live? || p.Unclaiming? then 1 else 0
  }

  /** The phases of a closure that is running. */
  predicate Closing(p: Phase) {
    p.Unclaiming? || p.Freeing? || p.Clearing?
  }

  /** One call of a returned operation, seen on its phase alone. */
  lemma PhaseSpendsBudget(w: World, op: Op, agent: Agent, ok: bool, live: bool)
    requires Returned(op.phase)
    ensures var p := EffectOf(w, op, agent, ok, live).phase;
      && Returned(p) && Budget(p) + (if Closing(op.phase) then 1 else 0) <= Budget(op.phase)
      && UnclaimsLeft(p) + (if op.phase.Unclaiming? then 1 else 0) <= UnclaimsLeft(op.phase)
  {
  }

  lemma AdvanceSpendsBudget(w: World, o: OpId, o': OpId, ok: bool, live: bool)
    requires o in w.ops && Returned(w.ops[o].phase)
    requires o' in w.ops && w.ops[o'].coord in w.agents
    ensures var w' := AdvanceOp(w, o', ok, live);
      && o in w'.ops && Returned(w'.ops[o].phase)
      && Budget(w'.ops[o].phase) + (if o' == o && Closing(w.ops[o].phase) then 1 else 0) <= Budget(w.ops[o].phase)
      && UnclaimsLeft(w'.ops[o].phase) +
        (if o' == o && w.ops[o].phase.Unclaiming? then 1 else 0) <= UnclaimsLeft(w.ops[o].phase)
  {
    if o' == o {
      PhaseSpendsBudget(w, w.ops[o], w.agents[w.ops[o].coord], ok, live);
    } else {
      OthersKeepTheirPhase(w, o, o', ok, live);
    }
  }

  lemma OthersKeepTheirPhase(w: World, o: OpId, o': OpId, ok: bool, live: bool)
    requires o in w.ops && o' in w.ops && o' != o && w.ops[o'].coord in w.agents
    ensures o in AdvanceOp(w, o', ok, live).ops && AdvanceOp(w, o', ok, live).ops[o] == w.ops[o]
  {
  }

  lemma StepSpendsBudget(w: World, s: Step, o: OpId)
    requires o in w.ops && Returned(w.ops[o].phase)
    ensures var w' := Next(w, s); var spends := ClosureCall(w, s, o);
      && o in w'.ops && Returned(w'.ops[o].phase)
      && Budget(w'.ops[o].phase) + (if spends then 1 else 0) <= Budget(w.ops[o].phase)
      && UnclaimsLeft(w'.ops[o].phase) +
        (if spends && w.ops[o].phase.Unclaiming? then 1 else 0) <= UnclaimsLeft(w.ops[o].phase)
  {
    if s.Advance? && s.op in w.ops && w.ops[s.op].coord in w.agents {
      AdvanceSpendsBudget(w, o, s.op, s.ok, s.live);
    }
  }

  /** However often the closure is invoked, and whatever runs between its calls,
      it un-claims at most once and makes at most |held| + 3 calls in all. */
  lemma {:induction false} RunsOnce(w: World, steps: seq<Step>, o: OpId)
    requires o in w.ops && Returned(w.ops[o].phase)
    ensures ClosureCalls(w, steps, o) <= Budget(w.ops[o].phase)
    ensures Unclaims(w, steps, o) <= UnclaimsLeft(w.ops[o].phase)
    decreases |steps|
  {
    if steps != [] {
      StepSpendsBudget(w, steps[0], o);
      RunsOnce(Next(w, steps[0]), steps[1..], o);
    }
  }

  /** The hold table after a call of a running closure: only the agent's holds go. */
  lemma ClosingHolds(w: World, op: Op, agent: Agent, ok: bool, live: bool)
    requires Closing(op.phase)
    ensures var holds := EffectOf(w, op, agent, ok, live).holds;
      && (forall p | p in w.holds && w.holds[p] != agent :: p in holds)
      && (forall p | p in holds :: p in w.holds && holds[p] == w.holds[p])
  {
  }

  /** A call of the closure leaves alone every record but one its own agent
      claims, every hold of another agent, and every other Coord's memory; what
      it does change, it opens or drops. */
  lemma TouchesOnlyItsOwn(w: World, s: Step, o: OpId)
    requires ClosureCall(w, s, o)
    ensures var w' := Next(w, s); var op := w.ops[o]; var agent := w.agents[op.coord];
      && w'.tasks.Keys == w.tasks.Keys
      && (forall t | t in w.tasks && w'.tasks[t] != w.tasks[t] ::
            && t == op.task && w.tasks[t].status == Claimed && w.tasks[t].claimedBy == agent
            && w'.tasks[t] == w.tasks[t].(status := Open, claimedBy := NoAgent))
      && (forall p | p in w.holds && w.holds[p] != agent :: p in w'.holds && w'.holds[p] == w.holds[p])
      && (forall p | p in w'.holds :: p in w.holds && w'.holds[p] == w.holds[p])
      && (forall k | k in w.epochs && k != (op.coord, op.task) :: k in w'.epochs && w'.epochs[k] == w.epochs[k])
  {
    var op := w.ops[o];
    EffectShape(w, op, w.agents[op.coord], s.ok, s.live);
    ClosingHolds(w, op, w.agents[op.coord], s.ok, s.live);
  }

  /** The un-claim, by the closure or by undoTaskCAS, compares the agent and not
      the epoch. It gives back a claim other than its operation's own exactly when
      the record is claimed by the same agent under a higher epoch. */
  lemma UnclaimHitsAnotherClaim(w: World, o: OpId, live: bool)
    requires Inv(w) && o in w.ops && (w.ops[o].phase.Unclaiming? || w.ops[o].phase.Undoing?)
    requires w.ops[o].task in w.tasks
    ensures var op := w.ops[o]; var rec := w.tasks[op.task];
      (Next(w, Advance(o, true, live)).tasks[op.task] != rec && rec.claimEpoch != op.epoch) <==>
      (rec.status == Claimed && rec.claimedBy == w.agents[op.coord] && rec.claimEpoch > op.epoch)
  {
    var op := w.ops[o];
    assert TaskInv(w, op.task) && OpInv(w, op);
    EffectShape(w, op, w.agents[op.coord], true, live);
  }

  /** The file whose hold the operation releases next, by the closure or a rollback. */
  predicate Releasing(p: Phase, f: Path) {
    (p.Freeing? || p.RollingBack?) && p.n < |p.held| && p.held[p.n] == f
  }

  /** Its hold releases compare the agent alone, too: the file is dropped exactly
      when the agent holds it, under whichever claim, and no other hold moves. */
  lemma ReleaseDropsIff(w: World, o: OpId, live: bool, f: Path)
    requires o in w.ops && w.ops[o].coord in w.agents && Releasing(w.ops[o].phase, f) && f in w.holds
    ensures var holds := Next(w, Advance(o, true, live)).holds;
      holds == if w.holds[f] == w.agents[w.ops[o].coord] then w.holds - {f} else w.holds
  {
  }

  /** Its delete of the remembered epoch compares nothing. It shuts a later claim of
      its Coord out of the epoch gate exactly when that claim was let through and
      the record's epoch is above the operation's own. */
  lemma DeleteShutsOutALaterClaim(w: World, o: OpId, ok: bool, live: bool)
    requires Inv(w) && o in w.ops && (w.ops[o].phase.Clearing? || w.ops[o].phase.Forgetting?)
    requires w.ops[o].task in w.tasks
    ensures var op := w.ops[o]; var w' := Next(w, Advance(o, ok, live));
      && !PassesEpochGate(w', op.coord, op.task)
      && (PassesEpochGate(w, op.coord, op.task) && w.tasks[op.task].claimEpoch != op.epoch <==>
          (op.coord, op.task) in w.epochs && w.epochs[(op.coord, op.task)] == w.tasks[op.task].claimEpoch > op.epoch)
  {
    var op := w.ops[o];
    assert TaskInv(w, op.task) && OpInv(w, op);
    EffectShape(w, op, w.agents[op.coord], ok, live);
  }

  /** Leaf.Close then the deferred Release, with anything in between and after:
      the task stays closed as CloseTask wrote it, compaction stamps apart. */
  lemma CloseThenRelease(w: World, c: CoordId, t: TaskId, reason: string, now: int, o: OpId, later: seq<Step>)
    requires Inv(w) && c in w.agents && CloseTask(w, c, t, reason, now).Ok?
    requires Purge(t) !in later
    ensures var z := Run(Next(Next(w, Close(c, t, reason, now)), Release(o)), later);
      && t in z.tasks
      && EqNonCompaction(w.tasks[t].(status := Closed, claimedBy := "", closedAt := Some(now),
                                     closedBy := w.agents[c], closedReason := reason), z.tasks[t])
  {
    var w1 := Next(w, Close(c, t, reason, now));
    assert TaskInv(w, t);
    CloseKeepsInv(w, c, t, reason, now);
    ReleaseKeepsInv(w1, o);
    ClosedIsAbsorbing(Next(w1, Release(o)), later, t);
  }
}
