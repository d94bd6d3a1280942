/** Who passes the epoch gate, over whole interleavings. The fence of Protocol says
    who does not; this says exactly who does. */
module Gate {
  import opened Tasks
  import opened Protocol
  import R = StaleRelease

  /** What a step does to one Coord's memory of one task. */
  datatype Write = Untouched | Stored(epoch: nat) | Cleared

  function WriteOf(w: World, s: Step, c: CoordId, t: TaskId): Write {
    if s == Restart(c) then Cleared
    else if s.Advance? && s.op in w.ops && w.ops[s.op].coord in w.agents && w.ops[s.op].coord == c
      && w.ops[s.op].task == t then
      var op := w.ops[s.op];
      if op.phase.Storing? then Stored(op.epoch)
      else if op.phase.Forgetting? || op.phase.Clearing? then Cleared
      else Untouched
    else Untouched
  }

  ghost predicate Remembers(w: World, c: CoordId, t: TaskId, e: nat) {
    (c, t) in w.epochs && w.epochs[(c, t)] == e
  }

  lemma WriteIs(w: World, s: Step, c: CoordId, t: TaskId, e: nat)
    ensures Remembers(Next(w, s), c, t, e) <==>
      match WriteOf(w, s, c, t) case Untouched => Remembers(w, c, t, e) case Stored(e') => e == e' case Cleared => false
  {
    if s.Advance? && s.op in w.ops && w.ops[s.op].coord in w.agents {
      EffectShape(w, w.ops[s.op], w.agents[w.ops[s.op].coord], s.ok, s.live);
    }
  }

  /** The last of the first n steps that wrote c's memory of t stored e. */
  ghost predicate LastStored(w: World, steps: seq<Step>, n: nat, c: CoordId, t: TaskId, e: nat)
    requires n <= |steps|
  {
    exists i | 0 <= i < n :: WriteAt(w, steps, i, c, t) == Stored(e) && forall j | i < j < n ::
      WriteAt(w, steps, j, c, t) == Untouched
  }

  ghost function WriteAt(w: World, steps: seq<Step>, i: nat, c: CoordId, t: TaskId): Write
    requires i < |steps|
  {
    WriteOf(Run(w, steps[..i]), steps[i], c, t)
  }

  lemma LastStoredStep(w: World, steps: seq<Step>, n: nat, c: CoordId, t: TaskId, e: nat)
    requires n < |steps|
    ensures LastStored(w, steps, n + 1, c, t, e) <==>
      match WriteAt(w, steps, n, c, t)
      case Untouched => LastStored(w, steps, n, c, t, e)
      case Stored(e') => e == e'
      case Cleared => false
  {
    if LastStored(w, steps, n + 1, c, t, e) {
      var i :| 0 <= i < n + 1 && WriteAt(w, steps, i, c, t) == Stored(e) && forall j | i < j < n + 1 ::
        WriteAt(w, steps, j, c, t) == Untouched;
      assert i == n || WriteAt(w, steps, n, c, t) == Untouched;
    }
    if WriteAt(w, steps, n, c, t) == Untouched && LastStored(w, steps, n, c, t, e) {
      var i :| 0 <= i < n && WriteAt(w, steps, i, c, t) == Stored(e) && forall j | i < j < n ::
        WriteAt(w, steps, j, c, t) == Untouched;
      assert forall j | i < j < n + 1 :: WriteAt(w, steps, j, c, t) == Untouched;
    }
  }

  lemma RunStep(w: World, steps: seq<Step>, n: nat)
    requires n < |steps|
    ensures Run(w, steps[..n + 1]) == Next(Run(w, steps[..n]), steps[n])
  {
    assert steps[..n + 1] == steps[..n] + [steps[n]];
    RunAppend(w, steps[..n], [steps[n]]);
    R.OneStep(Run(w, steps[..n]), steps[n]);
  }

  /** What a Coord remembers is what the last write stored. */
  lemma {:induction false} MemoryIsTheLastWrite(w: World, steps: seq<Step>, n: nat, c: CoordId, t: TaskId, e: nat)
    requires n <= |steps| && (c, t) !in w.epochs
    ensures Remembers(Run(w, steps[..n]), c, t, e) <==> LastStored(w, steps, n, c, t, e)
  {
    if n == 0 {
      assert steps[..0] == [];
    } else {
      MemoryIsTheLastWrite(w, steps, n - 1, c, t, e);
      RunStep(w, steps, n - 1);
      WriteIs(Run(w, steps[..n - 1]), steps[n - 1], c, t, e);
      LastStoredStep(w, steps, n - 1, c, t, e);
    }
  }

  /** In every reachable world, a Coord passes the epoch gate of a task that has been
      claimed if and only if the last step that wrote its memory of the task was the
      store of the record's present epoch. */
  lemma PassesGateIff(w: World, steps: seq<Step>, c: CoordId, t: TaskId)
    requires Init(w) && t in Run(w, steps).tasks && Run(w, steps).tasks[t].claimEpoch > 0
    ensures PassesEpochGate(Run(w, steps), c, t) <==>
      LastStored(w, steps, |steps|, c, t, Run(w, steps).tasks[t].claimEpoch)
  {
    assert steps[..|steps|] == steps;
    MemoryIsTheLastWrite(w, steps, |steps|, c, t, Run(w, steps).tasks[t].claimEpoch);
  }

  // ----- when a claimer does pass -----

  /** From its winning transaction until its closure, or its undo, is through. */
  predicate Busy(p: Phase) {
    PastAcquire(p) && !p.Spent?
  }

  /** No Coord has two busy operations on one task. */
  ghost predicate OneAtATime(w: World) {
    forall o, o' | o in w.ops && o' in w.ops && Busy(w.ops[o].phase) && Busy(w.ops[o'].phase)
                   && w.ops[o].coord == w.ops[o'].coord && w.ops[o].task == w.ops[o'].task :: o == o'
  }

  /** An operation past its store has its own epoch in its Coord's memory. */
  predicate InMemory(w: World, op: Op) {
    Busy(op.phase) && !op.phase.Storing? ==>
      (op.coord, op.task) in w.epochs && w.epochs[(op.coord, op.task)] == op.epoch
  }

  ghost predicate AllStored(w: World) {
    forall o | o in w.ops :: InMemory(w, w.ops[o])
  }

  /** The operation that makes a call. */
  lemma CallerRemembers(w: World, op: Op, agent: Agent, ok: bool, live: bool)
    requires InMemory(w, op)
    ensures var e := EffectOf(w, op, agent, ok, live);
      InMemory(w.(epochs := e.epochs), op.(phase := e.phase))
  {
    EffectEpochs(w, op, agent, ok, live);
    EffectPhase(w, op, agent, ok, live);
  }

  /** A call that writes an entry is a busy operation's. */
  lemma OnlyBusyWrite(w: World, op: Op, agent: Agent, ok: bool, live: bool)
    ensures EffectOf(w, op, agent, ok, live).epochs != w.epochs ==> Busy(op.phase)
    ensures forall k | k != (op.coord, op.task) ::
      && (k in EffectOf(w, op, agent, ok, live).epochs <==> k in w.epochs)
      && (k in w.epochs ==> EffectOf(w, op, agent, ok, live).epochs[k] == w.epochs[k])
  {
    EffectEpochs(w, op, agent, ok, live);
  }

  lemma AdvanceKeepsStored(w: World, o: OpId, ok: bool, live: bool)
    requires OneAtATime(w) && AllStored(w) && o in w.ops && w.ops[o].coord in w.agents
    ensures AllStored(AdvanceOp(w, o, ok, live))
  {
    var op := w.ops[o];
    var w' := AdvanceOp(w, o, ok, live);
    if !(ok && Wins(w, op)) {
      CallerRemembers(w, op, w.agents[op.coord], ok, live);
      OnlyBusyWrite(w, op, w.agents[op.coord], ok, live);
    }
    forall q | q in w'.ops ensures InMemory(w', w'.ops[q]) {
      assert q in w.ops && InMemory(w, w.ops[q]);
    }
  }

  lemma StepKeepsStored(w: World, s: Step)
    requires OneAtATime(w) && AllStored(w)
    ensures AllStored(Next(w, s))
  {
    match s
    case Advance(o, ok, live) =>
      if o in w.ops && w.ops[o].coord in w.agents { AdvanceKeepsStored(w, o, ok, live); }
    case Restart(c) =>
      var w' := RestartStep(w, c);
      forall o | o in w.ops ensures InMemory(w', w'.ops[o]) { assert InMemory(w, w.ops[o]); }
    case Release(o) =>
      var w' := ReleaseStep(w, o);
      forall q | q in w.ops ensures InMemory(w', w'.ops[q]) { assert InMemory(w, w.ops[q]); }
    case Start(o, c, t, route) =>
      var w' := StartStep(w, o, c, t, route);
      forall q | q in w'.ops ensures InMemory(w', w'.ops[q]) {
        assert q in w.ops ==> InMemory(w, w.ops[q]);
      }
    case _ => KeepsOps(w, s);
  }

  lemma KeepsOps(w: World, s: Step)
    requires !s.Advance? && !s.Restart? && !s.Release? && !s.Start?
    ensures Next(w, s).ops == w.ops && Next(w, s).epochs == w.epochs
  {
  }

  lemma {:induction false} RunKeepsStored(w: World, steps: seq<Step>, n: nat)
    requires n <= |steps| && AllStored(w) && forall i | 0 <= i < n :: OneAtATime(Run(w, steps[..i]))
    ensures AllStored(Run(w, steps[..n]))
  {
    if n == 0 {
      assert steps[..0] == [];
    } else {
      RunKeepsStored(w, steps, n - 1);
      RunStep(w, steps, n - 1);
      StepKeepsStored(Run(w, steps[..n - 1]), steps[n - 1]);
    }
  }

  /** Under one rule for callers - a Coord does not win a task again before its last
      closure on the task has returned - every operation past its store, and not yet
      done, passes the epoch gate if and only if the record's epoch is its own. So the
      holder of the last acquire does pass. */
  lemma ClaimerPassesIff(w: World, steps: seq<Step>, o: OpId)
    requires Init(w) && forall i | 0 <= i < |steps| :: OneAtATime(Run(w, steps[..i]))
    requires o in Run(w, steps).ops && Busy(Run(w, steps).ops[o].phase) && !Run(w, steps).ops[o].phase.Storing?
    ensures var z := Run(w, steps); var op := z.ops[o];
      PassesEpochGate(z, op.coord, op.task) <==> op.task in z.tasks && z.tasks[op.task].claimEpoch == op.epoch
  {
    RunKeepsStored(w, steps, |steps|);
    assert steps[..|steps|] == steps;
    assert InMemory(Run(w, steps), Run(w, steps).ops[o]);
  }

  // ----- a live claimer shut out -----

  lemma Clears(w: World)
    requires 0 in w.agents
    requires 0 in w.ops && w.ops[0].phase == Freeing([], 0) && w.ops[0].coord == 0 && w.ops[0].task == "t"
    ensures var z := Run(w, [Advance(0, true, false), Advance(0, true, false)]);
      && z.tasks == w.tasks && z.agents == w.agents && (0, "t") !in z.epochs
      && (forall o | o in w.ops && o != 0 :: o in z.ops && z.ops[o] == w.ops[o])
  {
    var s := Advance(0, true, false);
    var w1 := AdvanceOp(w, 0, true, false);
    RunAppend(w, [s], [s]);
    assert [s] + [s] == [s, s];
    R.OneStep(w, s);
    assert w1 == w.(ops := w.ops[0 := w.ops[0].(phase := Clearing)]);
    R.OneStep(w1, s);
  }

  /** Operation 0 claims, and its closure un-claims. Operation 1 of the same Coord
      claims. Then the closure of operation 0 goes on to its delete: the task is
      claimed by operation 1, which is live, and the gate refuses it. */
  lemma LiveClaimerIsShutOut(w: World) returns (steps: seq<Step>)
    requires Init(w) && w.agents == map[0 := "a"]
    ensures var z := Run(w, steps);
      && 1 in z.ops && z.ops[1].phase == Live([]) && z.ops[1].coord == 0 && z.ops[1].task == "t"
      && z.tasks == map["t" := R.Taken([], "a", 2)] && CheckEpoch(z, 0, "t") == Some(EpochStale)
  {
    var first := ClaimedAndUnclaimed(w);
    var z := Run(w, first);
    var n := R.Takes(z, 1, 0, ByClaim);
    var again := R.Alone(1, 0, ByClaim, n);
    RunAppend(w, first, again);
    var last := [Advance(0, true, false), Advance(0, true, false)];
    RunAppend(w, first + again, last);
    steps := first + again + last;
    Clears(Run(w, first + again));
  }

  lemma ClaimedAndUnclaimed(w: World) returns (steps: seq<Step>)
    requires Init(w) && w.agents == map[0 := "a"]
    ensures var z := Run(w, steps);
      && z.agents == w.agents && z.tasks == map["t" := R.Draft([]).(claimEpoch := 1)] && 1 !in z.ops
      && 0 in z.ops && z.ops[0].phase == Freeing([], 0) && z.ops[0].coord == 0 && z.ops[0].task == "t"
  {
    var s0 := [OpenTask(R.Draft([]))];
    var w0 := OpenStep(w, R.Draft([]));
    R.OneStep(w, s0[0]);
    var n := R.Takes(w0, 0, 0, ByClaim);
    var s1 := R.Alone(0, 0, ByClaim, n);
    RunAppend(w, s0, s1);
    var s2 := [Release(0), Advance(0, true, false)];
    RunAppend(w, s0 + s1, s2);
    R.Unclaims(Run(w, s0 + s1), []);
    steps := s0 + s1 + s2;
  }
}
