/** The step machine run for one operation alone computes Acquisition.Acquire:
    the sequential reading of Claim, Reclaim and HandoffClaim is one of the
    interleavings the protocol theorems speak about. */
module SoloRun {
  import opened Tasks
  import opened Protocol
  import A = Acquisition

  // ----- the hold loops, apart from the rest of the world -----

  function Stage(p: Phase): nat {
    match p
    case Dropping(_, _, _) => 2
    case Announcing(_, _) => 1
    case _ => 0
  }

  function FilesLeft(p: Phase): nat {
    match p
    case Dropping(_, files, n) => if n < |files| then |files| - n else 0
    case Announcing(files, n) => if n < |files| then |files| - n else 0
    case RollingBack(held, n, _) => if n < |held| then |held| - n else 0
    case Freeing(held, n) => if n < |held| then |held| - n else 0
    case _ => 0
  }

  /** Hold calls made one after the other until the phase needs another kind of
      call: the hold table, the phase and the number of calls made. */
  function HoldToEnd(holds: map<Path, Agent>, agent: Agent, p: Phase): (map<Path, Agent>, Phase, nat)
    decreases HoldPhase(p), Stage(p), FilesLeft(p), p.RollingBack? || p.Freeing?
  {
    if !HoldPhase(p) then (holds, p, 0)
    else
      var (h, q) := HoldCall(holds, agent, true, p);
      var (h', q', n) := HoldToEnd(h, agent, q);
      (h', q', n + 1)
  }

  /** Releasing file n and then the later ones is releasing from n on. */
  lemma ReleaseFrom(holds: map<Path, Agent>, agent: Agent, files: seq<Path>, n: nat)
    requires n <= |files|
    ensures n == |files| ==> A.WithoutHoldsOf(holds, agent, files[n..]) == holds
    ensures n < |files| ==>
      A.WithoutHoldsOf(ReleaseHold(holds, files[n], agent), agent, files[n + 1..]) ==
        A.WithoutHoldsOf(holds, agent, files[n..])
  {
    if n < |files| {
      assert files[n..] == [files[n]] + files[n + 1..];
    }
  }

  /** One call of each loop that releases files. */
  lemma DropCall(holds: map<Path, Agent>, agent: Agent, prev: Agent, files: seq<Path>, n: nat)
    ensures HoldCall(holds, agent, true, Dropping(prev, files, n)) ==
      if n < |files| then (ReleaseHold(holds, files[n], prev), Dropping(prev, files, n + 1))
        else (holds, Announcing(files, 0))
  {
  }

  lemma RollBackCall(holds: map<Path, Agent>, agent: Agent, held: seq<Path>, n: nat, e: Error)
    ensures HoldCall(holds, agent, true, RollingBack(held, n, e)) ==
      if n < |held| then (ReleaseHold(holds, held[n], agent), RollingBack(held, n + 1, e)) else (holds, Undoing(e))
  {
  }

  lemma OneHoldCall(holds: map<Path, Agent>, agent: Agent, p: Phase, h: map<Path, Agent>, q: Phase)
    requires HoldPhase(p) && HoldCall(holds, agent, true, p) == (h, q)
    ensures HoldToEnd(holds, agent, p).0 == HoldToEnd(h, agent, q).0
    ensures HoldToEnd(holds, agent, p).1 == HoldToEnd(h, agent, q).1
  {
  }

  lemma {:induction false} DropToEnd(holds: map<Path, Agent>, agent: Agent, prev: Agent, files: seq<Path>, n: nat)
    requires n <= |files|
    ensures var r := HoldToEnd(holds, agent, Dropping(prev, files, n));
      var r' := HoldToEnd(A.WithoutHoldsOf(holds, prev, files[n..]), agent, Announcing(files, 0));
      r.0 == r'.0 && r.1 == r'.1
    decreases |files| - n
  {
    var p := Dropping(prev, files, n);
    DropCall(holds, agent, prev, files, n);
    ReleaseFrom(holds, prev, files, n);
    if n == |files| {
      OneHoldCall(holds, agent, p, holds, Announcing(files, 0));
    } else {
      var h := ReleaseHold(holds, files[n], prev);
      OneHoldCall(holds, agent, p, h, Dropping(prev, files, n + 1));
      DropToEnd(h, agent, prev, files, n + 1);
    }
  }

  lemma {:induction false} RollBackToEnd(holds: map<Path, Agent>, agent: Agent, held: seq<Path>, n: nat, e: Error)
    requires n <= |held|
    ensures var r := HoldToEnd(holds, agent, RollingBack(held, n, e));
      r.0 == A.WithoutHoldsOf(holds, agent, held[n..]) && r.1 == Undoing(e)
    decreases |held| - n
  {
    var p := RollingBack(held, n, e);
    RollBackCall(holds, agent, held, n, e);
    ReleaseFrom(holds, agent, held, n);
    if n == |held| {
      OneHoldCall(holds, agent, p, holds, Undoing(e));
    } else {
      var h := ReleaseHold(holds, held[n], agent);
      OneHoldCall(holds, agent, p, h, RollingBack(held, n + 1, e));
      RollBackToEnd(h, agent, held, n + 1, e);
    }
  }

  /** A hold of one's own blocks nothing. */
  lemma {:induction false} FirstBlockedAfter(holds: map<Path, Agent>, agent: Agent, files: seq<Path>, n: nat, f: Path)
    requires n <= |files| && !HeldByOther(holds, f, agent)
    ensures A.FirstBlocked(holds[f := agent], agent, files, n) == A.FirstBlocked(holds, agent, files, n)
    decreases |files| - n
  {
    if n < |files| {
      FirstBlockedAfter(holds, agent, files, n + 1, f);
    }
  }

  lemma BlockedAtOnce(holds: map<Path, Agent>, agent: Agent, files: seq<Path>, n: nat)
    requires n < |files| && HeldByOther(holds, files[n], agent)
    ensures var r := HoldToEnd(holds, agent, Announcing(files, n));
      r.0 == A.WithoutHoldsOf(holds, agent, files[..n]) && r.1 == Undoing(HeldByAnother)
  {
    assert files[..n][0..] == files[..n];
    RollBackToEnd(holds, agent, files[..n], 0, HeldByAnother);
  }

  /** The answer of claimAll and rollback from file n on, in closed form. */
  function AnnounceResult(holds: map<Path, Agent>, agent: Agent, files: seq<Path>, n: nat): (map<Path, Agent>, Phase)
    requires n <= |files|
  {
    var k := A.FirstBlocked(holds, agent, files, n);
    var announced := A.WithHolds(holds, agent, files[n..k]);
    if k == |files| then (announced, Live(files))
    else (A.WithoutHoldsOf(announced, agent, files[..k]), Undoing(HeldByAnother))
  }

  lemma WithHoldsCons(holds: map<Path, Agent>, agent: Agent, files: seq<Path>, n: nat, k: nat)
    requires n < k <= |files|
    ensures A.WithHolds(holds[files[n] := agent], agent, files[n + 1..k]) == A.WithHolds(holds, agent, files[n..k])
  {
    assert files[n..k] == [files[n]] + files[n + 1..k];
  }

  lemma AnnounceResultStep(holds: map<Path, Agent>, agent: Agent, files: seq<Path>, n: nat)
    requires n < |files| && !HeldByOther(holds, files[n], agent)
    ensures AnnounceResult(holds, agent, files, n) == AnnounceResult(holds[files[n] := agent], agent, files, n + 1)
  {
    FirstBlockedAfter(holds, agent, files, n + 1, files[n]);
    WithHoldsCons(holds, agent, files, n, A.FirstBlocked(holds, agent, files, n));
  }

  lemma {:induction false} AnnounceToEnd(holds: map<Path, Agent>, agent: Agent, files: seq<Path>, n: nat)
    requires n <= |files|
    ensures var r := HoldToEnd(holds, agent, Announcing(files, n));
      (r.0, r.1) == AnnounceResult(holds, agent, files, n)
    decreases |files| - n
  {
    if n == |files| {
      assert A.WithHolds(holds, agent, files[n..n]) == holds;
    } else if HeldByOther(holds, files[n], agent) {
      assert A.WithHolds(holds, agent, files[n..n]) == holds;
      BlockedAtOnce(holds, agent, files, n);
    } else {
      AnnounceToEnd(holds[files[n] := agent], agent, files, n + 1);
      AnnounceResultStep(holds, agent, files, n);
    }
  }

  // ----- the machine -----

  function ViewOf(w: World, c: CoordId): A.View {
    A.View(w.tasks, w.holds, map k | k in w.epochs && k.0 == c :: k.1 := w.epochs[k])
  }

  function Iterate(step: World -> World, w: World, n: nat): World
    decreases n
  {
    if n == 0 then w else Iterate(step, step(w), n - 1)
  }

  lemma {:induction false} IterateAdd(step: World -> World, w: World, m: nat, n: nat)
    ensures Iterate(step, Iterate(step, w, m), n) == Iterate(step, w, m + n)
    decreases m
  {
    if m != 0 {
      IterateAdd(step, step(w), m - 1, n);
    }
  }

  /** One step of operation o, its substrate call succeeding. */
  function Alone(o: OpId, live: bool): World -> World {
    (w: World) => Next(w, Advance(o, true, live))
  }

  /** A solo run is an interleaving. */
  lemma {:induction false} SoloIsARun(w: World, o: OpId, live: bool, n: nat)
    ensures Iterate(Alone(o, live), w, n) == Run(w, seq(n, i => Advance(o, true, live)))
    decreases n
  {
    var steps := seq(n, i => Advance(o, true, live));
    if n != 0 {
      assert steps[1..] == seq(n - 1, i => Advance(o, true, live));
      SoloIsARun(Next(w, Advance(o, true, live)), o, live, n - 1);
    }
  }

  /** w with o's phase and the hold table replaced. */
  function Put(w: World, o: OpId, holds: map<Path, Agent>, p: Phase): World
    requires o in w.ops
  {
    w.(holds := holds, ops := w.ops[o := w.ops[o].(phase := p)])
  }

  lemma HoldStepIs(w: World, o: OpId, live: bool)
    requires o in w.ops && w.ops[o].coord in w.agents && HoldPhase(w.ops[o].phase)
    ensures var r := HoldCall(w.holds, w.agents[w.ops[o].coord], true, w.ops[o].phase);
      Next(w, Advance(o, true, live)) == Put(w, o, r.0, r.1)
  {
  }

  type Putter = (map<Path, Agent>, Phase) -> World

  /** Put, as a function of the hold table and the phase alone. */
  function PutIn(w: World, o: OpId): Putter
    requires o in w.ops
  {
    (h: map<Path, Agent>, q: Phase) => Put(w, o, h, q)
  }

  /** step carries out hold calls on the worlds that put makes. */
  ghost predicate Follows(step: World -> World, put: Putter, agent: Agent) {
    forall h, q {:trigger put(h, q)} | HoldPhase(q) ::
      step(put(h, q)) == put(HoldCall(h, agent, true, q).0, HoldCall(h, agent, true, q).1)
  }

  /** The loops lifted into the world: only the hold table and the phase move. */
  lemma {:induction false} Lift(step: World -> World, put: Putter, agent: Agent, holds: map<Path, Agent>, p: Phase)
    requires Follows(step, put, agent)
    ensures var r := HoldToEnd(holds, agent, p);
      Iterate(step, put(holds, p), r.2) == put(r.0, r.1)
    decreases HoldPhase(p), Stage(p), FilesLeft(p), p.RollingBack? || p.Freeing?
  {
    if HoldPhase(p) {
      var (h, q) := HoldCall(holds, agent, true, p);
      Lift(step, put, agent, h, q);
      StepThen(step, put(holds, p), put(h, q), HoldToEnd(h, agent, q).2);
    }
  }

  lemma SoloHolds(w: World, o: OpId, live: bool)
    requires o in w.ops && w.ops[o].coord in w.agents
    ensures var r := HoldToEnd(w.holds, w.agents[w.ops[o].coord], w.ops[o].phase);
      Iterate(Alone(o, live), w, r.2) == Put(w, o, r.0, r.1)
  {
    var agent := w.agents[w.ops[o].coord];
    forall h, q | HoldPhase(q)
      ensures Alone(o, live)(Put(w, o, h, q)) == Put(w, o, HoldCall(h, agent, true, q).0, HoldCall(h, agent, true, q).1)
    {
      HoldStepIs(Put(w, o, h, q), o, live);
      assert Put(Put(w, o, h, q), o, HoldCall(h, agent, true, q).0, HoldCall(h, agent, true, q).1)
          == Put(w, o, HoldCall(h, agent, true, q).0, HoldCall(h, agent, true, q).1);
    }
    assert Put(w, o, w.holds, w.ops[o].phase) == w;
    Lift(Alone(o, live), PutIn(w, o), agent, w.holds, w.ops[o].phase);
  }

  /** Undoing and forgetting: two steps. */
  lemma SoloUndo(w: World, o: OpId, live: bool)
    requires o in w.ops && w.ops[o].coord in w.agents && w.ops[o].phase.Undoing?
    ensures var op := w.ops[o];
      Iterate(Alone(o, live), w, 2)
        == w.(tasks := TxOrKeep(w.tasks, op.task, UnclaimMutator(w.agents[op.coord])),
              epochs := w.epochs - {(op.coord, op.task)},
              ops := w.ops[o := op.(phase := Refused(op.phase.error))])
  {
    var op := w.ops[o];
    var w1 := w.(tasks := TxOrKeep(w.tasks, op.task, UnclaimMutator(w.agents[op.coord])),
                 ops := w.ops[o := op.(phase := Forgetting(op.phase.error))]);
    assert Alone(o, live)(w) == w1;
    ForgetStepIs(w1, o, live);
  }

  lemma ForgetStepIs(w: World, o: OpId, live: bool)
    requires o in w.ops && w.ops[o].coord in w.agents && w.ops[o].phase.Forgetting?
    ensures var op := w.ops[o];
      Alone(o, live)(w) == w.(epochs := w.epochs - {(op.coord, op.task)},
          ops := w.ops[o := op.(phase := Refused(op.phase.error))])
  {
  }

  // ----- the theorem -----

  /** Every Coord's memory, with c's memory of t as in m. */
  function Remember(epochs: map<(CoordId, TaskId), nat>, c: CoordId, t: TaskId,
      m: map<TaskId, nat>): map<(CoordId, TaskId), nat> {
    if t in m then epochs[(c, t) := m[t]] else epochs - {(c, t)}
  }

  /** z is where operation o's run from w ends with answer r and view v: the
      bucket and the hold table are v's, and of all remembered epochs only the
      one of o's Coord for o's task moved. */
  ghost predicate Arrived(w: World, o: OpId, z: World, r: Result<seq<Path>>, v: A.View)
    requires o in w.ops
  {
    var op := w.ops[o];
    && z.tasks == v.tasks && z.holds == v.holds
    && z.epochs == Remember(w.epochs, op.coord, op.task, v.epochs)
    && z.agents == w.agents
    && o in z.ops && z.ops[o].coord == op.coord && z.ops[o].task == op.task
    && z.ops[o].phase == (if r.Ok? then Live(r.value) else Refused(r.error))
  }

  /** The worlds a solo run passes through. */
  function Stored(w: World, o: OpId): World
    requires o in w.ops && w.ops[o].phase.Storing?
  {
    var op := w.ops[o];
    var p := op.phase;
    w.(epochs := w.epochs[(op.coord, op.task) := op.epoch],
       ops := w.ops[o := op.(phase := if op.route.ByClaim? then Announcing(p.files, 0)
           else Dropping(p.prev, p.files, 0))])
  }

  function Held(w: World, o: OpId): World
    requires o in w.ops && w.ops[o].coord in w.agents
  {
    var r := HoldToEnd(w.holds, w.agents[w.ops[o].coord], w.ops[o].phase);
    Put(w, o, r.0, r.1)
  }

  function Undone(w: World, o: OpId): World
    requires o in w.ops && w.ops[o].coord in w.agents && w.ops[o].phase.Undoing?
  {
    var op := w.ops[o];
    w.(tasks := TxOrKeep(w.tasks, op.task, UnclaimMutator(w.agents[op.coord])),
       epochs := w.epochs - {(op.coord, op.task)},
       ops := w.ops[o := op.(phase := Refused(op.phase.error))])
  }

  /** Once the hold loops have ended in table h and phase p. */
  function SettledWith(w: World, o: OpId, h: map<Path, Agent>, p: Phase): World
    requires o in w.ops && w.ops[o].coord in w.agents
  {
    if p.Undoing? then Undone(Put(w, o, h, p), o) else Put(w, o, h, p)
  }

  function Settled(w: World, o: OpId): World
    requires o in w.ops && w.ops[o].coord in w.agents
  {
    var r := HoldToEnd(w.holds, w.agents[w.ops[o].coord], w.ops[o].phase);
    SettledWith(w, o, r.0, r.1)
  }

  lemma StoreStepIs(w: World, o: OpId, live: bool)
    requires o in w.ops && w.ops[o].coord in w.agents && w.ops[o].phase.Storing?
    ensures Alone(o, live)(w) == Stored(w, o)
  {
  }

  lemma SoloSettles(w: World, o: OpId, live: bool) returns (n: nat)
    requires o in w.ops && w.ops[o].coord in w.agents
    ensures Iterate(Alone(o, live), w, n) == Settled(w, o)
  {
    SoloHolds(w, o, live);
    var w1 := Held(w, o);
    n := HoldToEnd(w.holds, w.agents[w.ops[o].coord], w.ops[o].phase).2;
    if w1.ops[o].phase.Undoing? {
      SoloUndo(w1, o, live);
      IterateAdd(Alone(o, live), w, n, 2);
      n := n + 2;
    }
  }

  lemma LoopsAnswer(w: World, o: OpId)
    requires o in w.ops && w.ops[o].coord in w.agents && w.ops[o].phase.Storing?
    ensures var op := w.ops[o]; var agent := w.agents[op.coord]; var p := op.phase; var w1 := Stored(w, o);
      var r := HoldToEnd(w1.holds, agent, w1.ops[o].phase);
      (r.0, r.1) == AnnounceResult(A.Base(w.holds, op.route, p.prev, p.files), agent, p.files, 0)
  {
    var op := w.ops[o];
    var agent := w.agents[op.coord];
    var files := op.phase.files;
    assert files[0..] == files;
    if !op.route.ByClaim? {
      DropToEnd(w.holds, agent, op.phase.prev, files, 0);
    }
    AnnounceToEnd(A.Base(w.holds, op.route, op.phase.prev, files), agent, files, 0);
  }

  lemma SettledIs(w: World, o: OpId)
    requires o in w.ops && w.ops[o].coord in w.agents && w.ops[o].phase.Storing?
    ensures var op := w.ops[o]; var p := op.phase;
      var r := AnnounceResult(A.Base(w.holds, op.route, p.prev, p.files), w.agents[op.coord], p.files, 0);
      Settled(Stored(w, o), o) == SettledWith(Stored(w, o), o, r.0, r.1)
  {
    LoopsAnswer(w, o);
  }

  /** The two ways a run from a won record can settle. */
  lemma SettledLive(w: World, o: OpId, base: map<Path, Agent>)
    requires o in w.ops && w.ops[o].coord in w.agents && w.ops[o].phase.Storing?
    requires A.FirstBlocked(base, w.agents[w.ops[o].coord], w.ops[o].phase.files) == |w.ops[o].phase.files|
    ensures var op := w.ops[o]; var agent := w.agents[op.coord]; var files := op.phase.files;
      var r := AnnounceResult(base, agent, files, 0);
      var (a, v) := A.HoldAll(A.View(w.tasks, base, ViewOf(w, op.coord).epochs[op.task := op.epoch]), agent, op.task,
          files);
      Arrived(w, o, SettledWith(Stored(w, o), o, r.0, r.1), a, v)
  {
    var files := w.ops[o].phase.files;
    assert files[0..|files|] == files;
  }

  /** Storing and deleting an entry is deleting it, for the Coord and for all. */
  lemma StoreThenForget(epochs: map<(CoordId, TaskId), nat>, own: map<TaskId, nat>, c: CoordId, t: TaskId, e: nat)
    ensures Remember(epochs, c, t, own[t := e] - {t}) == epochs[(c, t) := e] - {(c, t)}
  {
  }

  /** The world after the loops ended in an undo, field by field. */
  lemma UndoneIs(w: World, o: OpId, h: map<Path, Agent>, e: Error)
    requires o in w.ops && w.ops[o].coord in w.agents && w.ops[o].phase.Storing?
    ensures var op := w.ops[o]; var z := SettledWith(Stored(w, o), o, h, Undoing(e));
      && z.tasks == TxOrKeep(w.tasks, op.task, UnclaimMutator(w.agents[op.coord])) && z.holds == h
        && z.agents == w.agents
      && z.epochs == w.epochs[(op.coord, op.task) := op.epoch] - {(op.coord, op.task)}
      && o in z.ops && z.ops[o].coord == op.coord && z.ops[o].task == op.task && z.ops[o].phase == Refused(e)
  {
  }

  lemma SettledUndone(w: World, o: OpId, base: map<Path, Agent>)
    requires o in w.ops && w.ops[o].coord in w.agents && w.ops[o].phase.Storing?
    requires A.FirstBlocked(base, w.agents[w.ops[o].coord], w.ops[o].phase.files) < |w.ops[o].phase.files|
    ensures var op := w.ops[o]; var agent := w.agents[op.coord]; var files := op.phase.files;
      var r := AnnounceResult(base, agent, files, 0);
      var (a, v) := A.HoldAll(A.View(w.tasks, base, ViewOf(w, op.coord).epochs[op.task := op.epoch]), agent, op.task,
          files);
      Arrived(w, o, SettledWith(Stored(w, o), o, r.0, r.1), a, v)
  {
    var op := w.ops[o];
    var k := A.FirstBlocked(base, w.agents[op.coord], op.phase.files);
    assert op.phase.files[0..k] == op.phase.files[..k];
    UndoneIs(w, o, AnnounceResult(base, w.agents[op.coord], op.phase.files, 0).0, HeldByAnother);
    StoreThenForget(w.epochs, ViewOf(w, op.coord).epochs, op.coord, op.task, op.epoch);
  }

  lemma SettledIsHoldAll(w: World, o: OpId)
    requires o in w.ops && w.ops[o].coord in w.agents && w.ops[o].phase.Storing?
    ensures var op := w.ops[o]; var agent := w.agents[op.coord]; var p := op.phase;
      var (r, v) := A.HoldAll(A.View(w.tasks, A.Base(w.holds, op.route, p.prev, p.files),
          ViewOf(w, op.coord).epochs[op.task := op.epoch]),
                              agent, op.task, p.files);
      Arrived(w, o, Settled(Stored(w, o), o), r, v)
  {
    var op := w.ops[o];
    var base := A.Base(w.holds, op.route, op.phase.prev, op.phase.files);
    SettledIs(w, o);
    if A.FirstBlocked(base, w.agents[op.coord], op.phase.files) == |op.phase.files| {
      SettledLive(w, o, base);
    } else {
      SettledUndone(w, o, base);
    }
  }

  lemma StepThen(step: World -> World, w: World, w1: World, n: nat)
    requires step(w) == w1
    ensures Iterate(step, w, n + 1) == Iterate(step, w1, n)
  {
  }

  lemma OpeningStepIs(w: World, o: OpId, live: bool)
    requires o in w.ops && w.ops[o].coord in w.agents && !Wins(w, w.ops[o])
    requires w.ops[o].phase.Reading? || w.ops[o].phase.Swapping?
    ensures Alone(o, live)(w) ==
      Put(w, o, w.holds, OpeningCall(w.tasks, w.ops[o], w.agents[w.ops[o].coord], true, live))
  {
  }

  lemma WinStepIs(w: World, o: OpId, live: bool)
    requires o in w.ops && Wins(w, w.ops[o])
    ensures Alone(o, live)(w) == Protocol.Acquire(w, o)
  {
  }

  lemma SoloFromWin(w: World, o: OpId, live: bool) returns (n: nat)
    requires o in w.ops && Wins(w, w.ops[o])
    ensures Iterate(Alone(o, live), w, n) == Settled(Stored(Protocol.Acquire(w, o), o), o)
  {
    var w1 := Protocol.Acquire(w, o);
    WinStepIs(w, o, live);
    StoreStepIs(w1, o, live);
    var m := SoloSettles(Stored(w1, o), o, live);
    StepThen(Alone(o, live), w1, Stored(w1, o), m);
    StepThen(Alone(o, live), w, w1, m + 1);
    n := m + 2;
  }

  /** The record w would offer the transaction. */
  function Offered(w: World, o: OpId): World
    requires o in w.ops && w.ops[o].task in w.tasks
  {
    Put(w, o, w.holds, Swapping(w.tasks[w.ops[o].task].claimedBy, w.tasks[w.ops[o].task].files))
  }

  /** Where a solo run ends, in closed form: from the transaction on, and from the start. */
  function FromOffer(w: World, o: OpId): World
    requires o in w.ops && w.ops[o].coord in w.agents && w.ops[o].phase.Swapping?
  {
    if Wins(w, w.ops[o]) then Settled(Stored(Protocol.Acquire(w, o), o), o)
    else Put(w, o, w.holds, Refused(AcquireError(w.tasks, w.ops[o], w.agents[w.ops[o].coord])))
  }

  /** The pre-check lets o through. */
  predicate Admitted(w: World, o: OpId, live: bool)
    requires o in w.ops && w.ops[o].coord in w.agents
  {
    && w.ops[o].task in w.tasks
    && PreCheck(w.ops[o].route, w.tasks[w.ops[o].task], w.agents[w.ops[o].coord], live) == None
  }

  function Answered(w: World, o: OpId, live: bool): World
    requires o in w.ops && w.ops[o].coord in w.agents && w.ops[o].phase.Reading?
  {
    if Admitted(w, o, live) then FromOffer(Offered(w, o), o)
    else Put(w, o, w.holds, OpeningCall(w.tasks, w.ops[o], w.agents[w.ops[o].coord], true, live))
  }

  lemma SoloFromOffer(w: World, o: OpId, live: bool) returns (n: nat)
    requires o in w.ops && w.ops[o].coord in w.agents && w.ops[o].phase.Swapping?
    ensures Iterate(Alone(o, live), w, n) == FromOffer(w, o)
  {
    if Wins(w, w.ops[o]) {
      n := SoloFromWin(w, o, live);
    } else {
      OpeningStepIs(w, o, live);
      StepThen(Alone(o, live), w, Alone(o, live)(w), 0);
      n := 1;
    }
  }

  lemma OfferStepIs(w: World, o: OpId, live: bool)
    requires o in w.ops && w.ops[o].coord in w.agents && w.ops[o].phase.Reading? && Admitted(w, o, live)
    ensures Alone(o, live)(w) == Offered(w, o)
  {
    OpeningStepIs(w, o, live);
  }

  lemma Chain(step: World -> World, w: World, mid: World, m: nat, end: World) returns (n: nat)
    requires step(w) == mid && Iterate(step, mid, m) == end
    ensures Iterate(step, w, n) == end
  {
    StepThen(step, w, mid, m);
    n := m + 1;
  }

  lemma SoloVia(w: World, mid: World, o: OpId, live: bool) returns (n: nat)
    requires o in mid.ops && mid.ops[o].coord in mid.agents && mid.ops[o].phase.Swapping?
    requires Alone(o, live)(w) == mid
    ensures Iterate(Alone(o, live), w, n) == FromOffer(mid, o)
  {
    var m := SoloFromOffer(mid, o, live);
    n := Chain(Alone(o, live), w, mid, m, FromOffer(mid, o));
  }

  lemma SoloAdmitted(w: World, o: OpId, live: bool) returns (n: nat)
    requires o in w.ops && w.ops[o].coord in w.agents && w.ops[o].phase.Reading? && Admitted(w, o, live)
    ensures Iterate(Alone(o, live), w, n) == FromOffer(Offered(w, o), o)
  {
    OfferStepIs(w, o, live);
    n := SoloVia(w, Offered(w, o), o, live);
  }

  lemma SoloTurnedAway(w: World, o: OpId, live: bool)
    requires o in w.ops && w.ops[o].coord in w.agents && w.ops[o].phase.Reading?
    ensures Iterate(Alone(o, live), w, 1)
         == Put(w, o, w.holds, OpeningCall(w.tasks, w.ops[o], w.agents[w.ops[o].coord], true, live))
  {
    OpeningStepIs(w, o, live);
    StepThen(Alone(o, live), w, Alone(o, live)(w), 0);
  }

  lemma SoloAnswers(w: World, o: OpId, live: bool) returns (n: nat)
    requires o in w.ops && w.ops[o].coord in w.agents && w.ops[o].phase.Reading?
    ensures Iterate(Alone(o, live), w, n) == Answered(w, o, live)
  {
    if Admitted(w, o, live) {
      n := SoloAdmitted(w, o, live);
    } else {
      SoloTurnedAway(w, o, live);
      n := 1;
    }
  }

  lemma UntouchedMemory(w: World, c: CoordId, t: TaskId)
    ensures Remember(w.epochs, c, t, ViewOf(w, c).epochs) == w.epochs
  {
  }

  lemma WonIsHoldAll(w: World, o: OpId)
    requires o in w.ops && Wins(w, w.ops[o])
    ensures var op := w.ops[o]; var agent := w.agents[op.coord]; var p := op.phase;
      var after := Tx(w.tasks, op.task, AcquireMutator(op.route, agent)).value;
      var (r, v) := A.HoldAll(A.View(after, A.Base(w.holds, op.route, p.prev, p.files),
                                     ViewOf(w, op.coord).epochs[op.task := after[op.task].claimEpoch]),
                              agent, op.task, p.files);
      Arrived(w, o, Settled(Stored(Protocol.Acquire(w, o), o), o), r, v)
  {
    SettledIsHoldAll(Protocol.Acquire(w, o), o);
  }

  /** Answered and Acquire agree when the transaction wins, and when some check fails. */
  lemma AnsweredWhenWon(w: World, o: OpId, live: bool)
    requires o in w.ops && w.ops[o].coord in w.agents && w.ops[o].phase.Reading?
    requires Admitted(w, o, live) && Wins(Offered(w, o), Offered(w, o).ops[o])
    ensures var op := w.ops[o];
      var (r, v) := A.Acquire(ViewOf(w, op.coord), w.agents[op.coord], op.task, op.route, live);
      Arrived(w, o, Answered(w, o, live), r, v)
  {
    WonIsHoldAll(Offered(w, o), o);
  }

  lemma AnsweredWhenRefused(w: World, o: OpId, live: bool)
    requires o in w.ops && w.ops[o].coord in w.agents && w.ops[o].phase.Reading?
    requires !(Admitted(w, o, live) && Wins(Offered(w, o), Offered(w, o).ops[o]))
    ensures var op := w.ops[o];
      var (r, v) := A.Acquire(ViewOf(w, op.coord), w.agents[op.coord], op.task, op.route, live);
      Arrived(w, o, Answered(w, o, live), r, v)
  {
    UntouchedMemory(w, w.ops[o].coord, w.ops[o].task);
  }

  lemma AnsweredIsAcquire(w: World, o: OpId, live: bool)
    requires o in w.ops && w.ops[o].coord in w.agents && w.ops[o].phase.Reading?
    ensures var op := w.ops[o];
      var (r, v) := A.Acquire(ViewOf(w, op.coord), w.agents[op.coord], op.task, op.route, live);
      Arrived(w, o, Answered(w, o, live), r, v)
  {
    if Admitted(w, o, live) && Wins(Offered(w, o), Offered(w, o).ops[o]) {
      AnsweredWhenWon(w, o, live);
    } else {
      AnsweredWhenRefused(w, o, live);
    }
  }

  /** Claim, Reclaim or HandoffClaim run alone from its first call ends, after
      some number of steps, with the answer and the state Acquisition.Acquire
      gives, and has not touched any other operation or Coord. */
  lemma SoloAcquire(w: World, o: OpId, live: bool) returns (n: nat)
    requires o in w.ops && w.ops[o].coord in w.agents && w.ops[o].phase.Reading?
    ensures var op := w.ops[o];
      var (r, v) := A.Acquire(ViewOf(w, op.coord), w.agents[op.coord], op.task, op.route, live);
      Arrived(w, o, Run(w, seq(n, i => Advance(o, true, live))), r, v)
  {
    n := SoloAnswers(w, o, live);
    SoloIsARun(w, o, live, n);
    AnsweredIsAcquire(w, o, live);
  }

  /** A solo run leaves every other operation where it was. */
  lemma {:induction false} SoloSparesOthers(w: World, o: OpId, live: bool, n: nat, p: OpId)
    requires p in w.ops && p != o
    ensures var z := Run(w, seq(n, i => Advance(o, true, live))); p in z.ops && z.ops[p] == w.ops[p]
    decreases n
  {
    if n != 0 {
      var steps := seq(n, i => Advance(o, true, live));
      assert steps[1..] == seq(n - 1, i => Advance(o, true, live));
      SoloSparesOthers(Next(w, Advance(o, true, live)), o, live, n - 1, p);
    }
  }
}
