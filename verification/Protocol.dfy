/** The claim / hold / epoch protocol of internal/coord as a step machine.

    Any number of Coords run any number of operations on the same task bucket
    and hold table. Every substrate call and every access to a Coord's
    activeEpochs is a step of its own, so a sequence of steps is an
    interleaving, and every sequence is one: a step that is not enabled does
    nothing. A Coord may run several operations at once, two Coords may share
    an agent id, holds may expire, Coords may restart, and a substrate call may
    fail at any point (`ok` is false).
 */
module Protocol {
  import opened Tasks

  type CoordId = nat
  type OpId = nat

  /** Where an operation stands; each comment names the call that comes next. */
  datatype Phase =
    | Reading                                              // tasks.Get and the pre-check
    | Swapping(prev: Agent, files: seq<Path>)              // the acquire transaction
    | Storing(prev: Agent, files: seq<Path>)               // activeEpochs.Store
    | Dropping(prev: Agent, files: seq<Path>, n: nat)      // releaseOldHolds, file n
    | Announcing(files: seq<Path>, n: nat)                 // claimAll, file n
    | RollingBack(held: seq<Path>, n: nat, error: Error)   // rollback, file n
    | Undoing(error: Error)                                // the un-claim transaction of undoTaskCAS
    | Forgetting(error: Error)                             // activeEpochs.Delete of undoTaskCAS
    | Refused(error: Error)                                // returned an error
    | Live(held: seq<Path>)                                // returned a release closure, not yet called
    | Unclaiming(held: seq<Path>)                          // releaseTaskCAS
    | Freeing(held: seq<Path>, n: nat)                     // releaseHolds, file n
    | Clearing                                             // activeEpochs.Delete of the closure
    | Spent                                                // the closure has run
    | Crashed                                              // its Coord is gone

  /** `epoch` is the newEpoch the mutator captured, 0 until the transaction won. */
  datatype Op = Op(coord: CoordId, task: TaskId, route: Route, epoch: nat, phase: Phase)

  /** `claimants[t]` is history, read by no step: the Coord behind every
      successful acquire transaction on t, in order. */
  datatype World = World(
    agents: map<CoordId, Agent>,
    tasks: map<TaskId, Task>,
    holds: map<Path, Agent>,
    epochs: map<(CoordId, TaskId), nat>,
    ops: map<OpId, Op>,
    claimants: map<TaskId, seq<CoordId>>)

  datatype Step =
    | OpenTask(draft: Task)
    | Start(op: OpId, coord: CoordId, task: TaskId, route: Route)
    | Advance(op: OpId, ok: bool, live: bool)
    | Release(op: OpId)
    | Close(coord: CoordId, task: TaskId, reason: string, now: int)
    | Announce(coord: CoordId, path: Path)
    | Drop(coord: CoordId, path: Path)
    | Expire(path: Path)
    | Restart(coord: CoordId)
    | Stamp(task: TaskId, level: nat, size: nat, at: int)
    | Purge(task: TaskId)

  // ----- the hold table -----

  predicate HeldByOther(holds: map<Path, Agent>, p: Path, agent: Agent) {
    p in holds && holds[p] != agent
  }

  function ReleaseHold(holds: map<Path, Agent>, p: Path, agent: Agent): map<Path, Agent> {
    if p in holds && holds[p] == agent then holds - {p} else holds
  }

  // ----- the gates -----

  /** The epoch a Coord can defend: what it remembers, or zero. */
  function Remembered(w: World, c: CoordId, t: TaskId): nat {
    if (c, t) in w.epochs then w.epochs[(c, t)] else 0
  }

  function CheckEpoch(w: World, c: CoordId, t: TaskId): Option<Error> {
    if t !in w.tasks then Some(TaskNotFound)
    else if w.tasks[t].claimEpoch != Remembered(w, c, t) then Some(EpochStale)
    else None
  }

  /** The answer CloseTask gives Coord c. */
  function CloseTask(w: World, c: CoordId, t: TaskId, reason: string, now: int): Result<map<TaskId, Task>>
    requires c in w.agents
  {
    Tx(w.tasks, t, CloseMutator(w.agents[c], Remembered(w, c, t), reason, now))
  }

  // ----- one step -----

  /** The phases whose call reaches the hold table only. */
  predicate HoldPhase(p: Phase) {
    p.Dropping? || p.Announcing? || p.RollingBack? || p.Freeing?
  }

  /** Their call, as the hold table and the phase after it. */
  function HoldCall(holds: map<Path, Agent>, agent: Agent, ok: bool, p: Phase): (r: (map<Path, Agent>, Phase))
    requires HoldPhase(p)
    ensures PastAcquire(r.1)
  {
    match p
    case Dropping(prev, files, n) =>
      if n >= |files| then (holds, Announcing(files, 0))
      else (if ok then ReleaseHold(holds, files[n], prev) else holds, Dropping(prev, files, n + 1))
    case Announcing(files, n) =>
      if n >= |files| then (holds, Live(files))
      else if !ok then (holds, RollingBack(files[..n], 0, Substrate))
      else if HeldByOther(holds, files[n], agent) then (holds, RollingBack(files[..n], 0, HeldByAnother))
      else (holds[files[n] := agent], Announcing(files, n + 1))
    case RollingBack(held, n, e) =>
      if n >= |held| then (holds, Undoing(e))
      else (if ok then ReleaseHold(holds, held[n], agent) else holds, RollingBack(held, n + 1, e))
    case Freeing(held, n) =>
      if n >= |held| then (holds, Clearing)
      else (if ok then ReleaseHold(holds, held[n], agent) else holds, Freeing(held, n + 1))
  }

  /** tasks.Get and the pre-check, or a lost acquire transaction: the phase after it. */
  function OpeningCall(tasks: map<TaskId, Task>, op: Op, agent: Agent, ok: bool, live: bool): (p: Phase)
    requires op.phase.Reading? || op.phase.Swapping?
    ensures !PastAcquire(p)
  {
    if !ok then Refused(Substrate)
    else if op.phase.Swapping? then Refused(AcquireError(tasks, op, agent))
    else if op.task !in tasks then Refused(TaskNotFound)
    else (
      match PreCheck(op.route, tasks[op.task], agent, live)
      case Some(e) => Refused(e)
      case None => Swapping(tasks[op.task].claimedBy, tasks[op.task].files))
  }

  /** What one call of an operation does to the state it can reach. */
  datatype Effect = Effect(
    tasks: map<TaskId, Task>, holds: map<Path, Agent>, epochs: map<(CoordId, TaskId), nat>, phase: Phase)

  /** Every call but a winning acquire transaction. */
  function EffectOf(w: World, op: Op, agent: Agent, ok: bool, live: bool): Effect {
    var p := op.phase;
    if p.Reading? || p.Swapping? then
      Effect(w.tasks, w.holds, w.epochs, OpeningCall(w.tasks, op, agent, ok, live))
    else if HoldPhase(p) then
      var (holds, after) := HoldCall(w.holds, agent, ok, p);
      Effect(w.tasks, holds, w.epochs, after)
    else if p.Undoing? || p.Unclaiming? then
      Effect(if ok then TxOrKeep(w.tasks, op.task, UnclaimMutator(agent)) else w.tasks, w.holds, w.epochs,
             if p.Undoing? then Forgetting(p.error) else Freeing(p.held, 0))
    else if p.Forgetting? || p.Clearing? then
      Effect(w.tasks, w.holds, w.epochs - {(op.coord, op.task)}, if p.Forgetting? then Refused(p.error) else Spent)
    else if p.Storing? then
      Effect(w.tasks, w.holds, w.epochs[(op.coord, op.task) := op.epoch],
             if op.route.ByClaim? then Announcing(p.files, 0) else Dropping(p.prev, p.files, 0))
    else
      Effect(w.tasks, w.holds, w.epochs, p)
  }

  function AcquireError(tasks: map<TaskId, Task>, op: Op, agent: Agent): Error {
    match Tx(tasks, op.task, AcquireMutator(op.route, agent))
    case Err(e) => e
    case Ok(_) => Substrate
  }

  /** The acquire transaction of `op` would win. */
  predicate Wins(w: World, op: Op) {
    && op.coord in w.agents
    && op.phase.Swapping?
    && Tx(w.tasks, op.task, AcquireMutator(op.route, w.agents[op.coord])).Ok?
  }

  function Acquire(w: World, o: OpId): World
    requires o in w.ops && Wins(w, w.ops[o])
  {
    var op := w.ops[o];
    var after := Tx(w.tasks, op.task, AcquireMutator(op.route, w.agents[op.coord])).value;
    var log := if op.task in w.claimants then w.claimants[op.task] else [];
    w.(tasks := after,
       claimants := w.claimants[op.task := log + [op.coord]],
       ops := w.ops[o := op.(epoch := after[op.task].claimEpoch, phase := Storing(op.phase.prev, op.phase.files))])
  }

  function AdvanceOp(w: World, o: OpId, ok: bool, live: bool): World
    requires o in w.ops && w.ops[o].coord in w.agents
  {
    var op := w.ops[o];
    if ok && Wins(w, op) then Acquire(w, o)
    else
      var e := EffectOf(w, op, w.agents[op.coord], ok, live);
      w.(tasks := e.tasks, holds := e.holds, epochs := e.epochs, ops := w.ops[o := op.(phase := e.phase)])
  }

  function OpenStep(w: World, draft: Task): World {
    if draft.id in w.claimants then w
    else w.(tasks := w.tasks[draft.id := NewTask(draft.id, draft.files, draft.parent, draft.edges, draft.createdAt,
        draft.deferUntil)],
            claimants := w.claimants[draft.id := []])
  }

  function StartStep(w: World, o: OpId, c: CoordId, t: TaskId, route: Route): World {
    if o in w.ops || c !in w.agents then w
    else w.(ops := w.ops[o := Op(c, t, route, 0, Reading)])
  }

  /** The caller invokes a release closure; sync.Once admits the first call only. */
  function ReleaseStep(w: World, o: OpId): World {
    if o in w.ops && w.ops[o].phase.Live? then
      w.(ops := w.ops[o := w.ops[o].(phase := Unclaiming(w.ops[o].phase.held))])
    else w
  }

  function CloseStep(w: World, c: CoordId, t: TaskId, reason: string, now: int): World {
    if c in w.agents && CloseTask(w, c, t, reason, now).Ok?
    then w.(tasks := CloseTask(w, c, t, reason, now).value)
    else w
  }

  /** Leaf.AnnounceHolds, its release closure, and lease expiry, one file at a time. */
  function HoldStep(w: World, s: Step): map<Path, Agent>
    requires s.Announce? || s.Drop? || s.Expire?
  {
    match s
    case Announce(c, p) =>
      if c in w.agents && !HeldByOther(w.holds, p, w.agents[c]) then w.holds[p := w.agents[c]] else w.holds
    case Drop(c, p) =>
      if c in w.agents then ReleaseHold(w.holds, p, w.agents[c]) else w.holds
    case Expire(p) => w.holds - {p}
  }

  /** The Coord's process is gone, and with it what it remembered and was doing. */
  function RestartStep(w: World, c: CoordId): World {
    w.(epochs := map k | k in w.epochs && k.0 != c :: w.epochs[k],
       ops := map o | o in w.ops :: if w.ops[o].coord == c then w.ops[o].(phase := Crashed) else w.ops[o])
  }

  /** Compaction stamps a closed record. */
  function StampStep(w: World, t: TaskId, level: nat, size: nat, at: int): World {
    if t in w.tasks && w.tasks[t].status == Closed
    then w.(tasks := w.tasks[t := w.tasks[t].(compactLevel := level, originalSize := size, compactedAt := Some(at))])
    else w
  }

  /** Compaction takes a closed record out of the hot bucket. */
  function PurgeStep(w: World, t: TaskId): World {
    if t in w.tasks && w.tasks[t].status == Closed then w.(tasks := w.tasks - {t}) else w
  }

  function Next(w: World, s: Step): World {
    match s
    case OpenTask(draft) => OpenStep(w, draft)
    case Start(o, c, t, route) => StartStep(w, o, c, t, route)
    case Advance(o, ok, live) =>
      if o in w.ops && w.ops[o].coord in w.agents then AdvanceOp(w, o, ok, live) else w
    case Release(o) => ReleaseStep(w, o)
    case Close(c, t, reason, now) => CloseStep(w, c, t, reason, now)
    case Announce(_, _) => w.(holds := HoldStep(w, s))
    case Drop(_, _) => w.(holds := HoldStep(w, s))
    case Expire(_) => w.(holds := HoldStep(w, s))
    case Restart(c) => RestartStep(w, c)
    case Stamp(t, level, size, at) => StampStep(w, t, level, size, at)
    case Purge(t) => PurgeStep(w, t)
  }

  /** The world after an interleaving. */
  function Run(w: World, steps: seq<Step>): World
    decreases |steps|
  {
    if steps == [] then w else Run(Next(w, steps[0]), steps[1..])
  }

  lemma {:induction false} RunAppend(w: World, a: seq<Step>, b: seq<Step>)
    ensures Run(w, a + b) == Run(Run(w, a), b)
    decreases |a|
  {
    if a == [] {
      assert a + b == b;
    } else {
      assert (a + b)[1..] == a[1..] + b;
      RunAppend(Next(w, a[0]), a[1..], b);
    }
  }

  /** Before anyone acted: Coords are configured, nothing else exists. */
  predicate Init(w: World) {
    && (forall c | c in w.agents :: w.agents[c] != NoAgent)
    && w.tasks == map[] && w.holds == map[] && w.epochs == map[] && w.ops == map[] && w.claimants == map[]
  }

  // ----- what every interleaving keeps -----

  /** Coord c made the e-th successful acquire of task t. */
  predicate Issued(w: World, c: CoordId, t: TaskId, e: nat) {
    t in w.claimants && 1 <= e <= |w.claimants[t]| && w.claimants[t][e - 1] == c
  }

  /** The agent of the most recent acquirer. */
  ghost predicate LastAgent(w: World, t: TaskId, a: Agent) {
    && t in w.claimants && |w.claimants[t]| >= 1
    && var c := w.claimants[t][|w.claimants[t]| - 1];
    c in w.agents && w.agents[c] == a
  }

  ghost predicate TaskInv(w: World, t: TaskId)
    requires t in w.tasks
  {
    var rec := w.tasks[t];
    && rec.id == t
    && t in w.claimants && rec.claimEpoch == |w.claimants[t]|
    && Coupled(rec)
    && (rec.status == Claimed ==> LastAgent(w, t, rec.claimedBy))
    && (rec.status == Closed ==> LastAgent(w, t, rec.closedBy))
    && (rec.status != Closed ==> rec.closedBy == NoAgent)
  }

  predicate PastAcquire(p: Phase) {
    !p.Reading? && !p.Swapping? && !p.Refused? && !p.Crashed?
  }

  ghost predicate OpInv(w: World, op: Op) {
    && op.coord in w.agents
    && (PastAcquire(op.phase) ==> Issued(w, op.coord, op.task, op.epoch))
  }

  ghost predicate Inv(w: World) {
    && (forall c | c in w.agents :: w.agents[c] != NoAgent)
    && (forall t | t in w.tasks :: TaskInv(w, t))
    && (forall k | k in w.epochs :: Issued(w, k.0, k.1, w.epochs[k]))
    && (forall o | o in w.ops :: OpInv(w, w.ops[o]))
  }

  /** History only grows and the configuration is fixed. */
  ghost predicate Extends(w: World, w': World) {
    && w'.agents == w.agents
    && (forall t | t in w.claimants :: t in w'.claimants && w.claimants[t] <= w'.claimants[t])
  }

  lemma StepExtends(w: World, s: Step)
    ensures Extends(w, Next(w, s))
  {
  }

  /** The parts of the invariant survive history growing, for whatever did not change. */
  lemma Carry(w: World, w': World)
    requires Inv(w) && Extends(w, w')
    requires forall t | t in w'.tasks ::
      (t in w.tasks && w'.tasks[t] == w.tasks[t] && w'.claimants[t] == w.claimants[t]) || TaskInv(w', t)
    requires forall k | k in w'.epochs ::
      (k in w.epochs && w'.epochs[k] == w.epochs[k]) || Issued(w', k.0, k.1, w'.epochs[k])
    requires forall o | o in w'.ops :: (o in w.ops && w'.ops[o] == w.ops[o]) || OpInv(w', w'.ops[o])
    ensures Inv(w')
  {
    forall t | t in w'.tasks ensures TaskInv(w', t) {
      assert t in w.tasks ==> TaskInv(w, t);
    }
    forall k | k in w'.epochs ensures Issued(w', k.0, k.1, w'.epochs[k]) {
      assert k in w.epochs ==> Issued(w, k.0, k.1, w.epochs[k]);
    }
    forall o | o in w'.ops ensures OpInv(w', w'.ops[o]) {
      assert o in w.ops ==> OpInv(w, w.ops[o]);
    }
  }

  /** A win writes an epoch nobody was issued before. */
  lemma AcquireKeepsInv(w: World, o: OpId)
    requires Inv(w) && o in w.ops && Wins(w, w.ops[o])
    ensures Inv(Acquire(w, o))
  {
    assert TaskInv(w, w.ops[o].task);
    Carry(w, Acquire(w, o));
  }

  lemma EffectTasks(w: World, op: Op, agent: Agent, ok: bool, live: bool)
    ensures EffectOf(w, op, agent, ok, live).tasks ==
      if ok && (op.phase.Undoing? || op.phase.Unclaiming?) then TxOrKeep(w.tasks, op.task, UnclaimMutator(agent))
        else w.tasks
  {
  }

  lemma EffectEpochs(w: World, op: Op, agent: Agent, ok: bool, live: bool)
    ensures EffectOf(w, op, agent, ok, live).epochs ==
      if op.phase.Storing? then w.epochs[(op.coord, op.task) := op.epoch]
      else if op.phase.Forgetting? || op.phase.Clearing? then w.epochs - {(op.coord, op.task)}
      else w.epochs
  {
  }

  lemma EffectPhase(w: World, op: Op, agent: Agent, ok: bool, live: bool)
    ensures PastAcquire(EffectOf(w, op, agent, ok, live).phase) ==> PastAcquire(op.phase)
  {
  }

  /** The shape of every other call: the bucket is kept or un-claimed, and an
      epoch is remembered only when it was issued. */
  lemma EffectShape(w: World, op: Op, agent: Agent, ok: bool, live: bool)
    ensures var e := EffectOf(w, op, agent, ok, live);
      && e.tasks == (if ok && (op.phase.Undoing? || op.phase.Unclaiming?)
                     then TxOrKeep(w.tasks, op.task, UnclaimMutator(agent)) else w.tasks)
      && e.epochs == (if op.phase.Storing? then w.epochs[(op.coord, op.task) := op.epoch]
                      else if op.phase.Forgetting? || op.phase.Clearing? then w.epochs - {(op.coord, op.task)}
                      else w.epochs)
      && (PastAcquire(e.phase) ==> PastAcquire(op.phase))
  {
    EffectTasks(w, op, agent, ok, live);
    EffectEpochs(w, op, agent, ok, live);
    EffectPhase(w, op, agent, ok, live);
  }

  lemma AdvanceKeepsInv(w: World, o: OpId, ok: bool, live: bool)
    requires Inv(w) && o in w.ops && w.ops[o].coord in w.agents
    ensures Inv(AdvanceOp(w, o, ok, live))
  {
    var op := w.ops[o];
    if ok && Wins(w, op) {
      AcquireKeepsInv(w, o);
    } else {
      assert OpInv(w, op);
      EffectShape(w, op, w.agents[op.coord], ok, live);
      var w' := AdvanceOp(w, o, ok, live);
      forall t | t in w'.tasks ensures w'.tasks[t] == w.tasks[t] || TaskInv(w', t) {
        assert TaskInv(w, t);
      }
      Carry(w, w');
    }
  }

  lemma CloseKeepsInv(w: World, c: CoordId, t: TaskId, reason: string, now: int)
    requires Inv(w)
    ensures Inv(CloseStep(w, c, t, reason, now))
  {
    var w' := CloseStep(w, c, t, reason, now);
    if w' != w {
      assert TaskInv(w, t);
      assert Issued(w, c, t, Remembered(w, c, t));
      Carry(w, w');
    }
  }

  lemma OpenKeepsInv(w: World, draft: Task)
    requires Inv(w)
    ensures Inv(OpenStep(w, draft))
  {
    var w' := OpenStep(w, draft);
    assert draft.id !in w.claimants ==> TaskInv(w', draft.id);
    assert forall t | t in w.tasks :: TaskInv(w, t);
    Carry(w, w');
  }

  lemma StartKeepsInv(w: World, o: OpId, c: CoordId, t: TaskId, route: Route)
    requires Inv(w)
    ensures Inv(StartStep(w, o, c, t, route))
  {
    Carry(w, StartStep(w, o, c, t, route));
  }

  lemma ReleaseKeepsInv(w: World, o: OpId)
    requires Inv(w)
    ensures Inv(ReleaseStep(w, o))
  {
    assert o in w.ops ==> OpInv(w, w.ops[o]);
    Carry(w, ReleaseStep(w, o));
  }

  lemma RestartKeepsInv(w: World, c: CoordId)
    requires Inv(w)
    ensures Inv(RestartStep(w, c))
  {
    assert forall o | o in w.ops :: OpInv(w, w.ops[o]);
    Carry(w, RestartStep(w, c));
  }

  lemma StampKeepsInv(w: World, t: TaskId, level: nat, size: nat, at: int)
    requires Inv(w)
    ensures Inv(StampStep(w, t, level, size, at))
  {
    assert t in w.tasks ==> TaskInv(w, t);
    Carry(w, StampStep(w, t, level, size, at));
  }

  lemma HoldsKeepInv(w: World, holds: map<Path, Agent>)
    requires Inv(w)
    ensures Inv(w.(holds := holds))
  {
    Carry(w, w.(holds := holds));
  }

  lemma StepKeepsInv(w: World, s: Step)
    requires Inv(w)
    ensures Inv(Next(w, s))
  {
    match s
    case OpenTask(draft) => OpenKeepsInv(w, draft);
    case Start(o, c, t, route) => StartKeepsInv(w, o, c, t, route);
    case Advance(o, ok, live) =>
      if o in w.ops && w.ops[o].coord in w.agents { AdvanceKeepsInv(w, o, ok, live); }
    case Release(o) => ReleaseKeepsInv(w, o);
    case Close(c, t, reason, now) => CloseKeepsInv(w, c, t, reason, now);
    case Restart(c) => RestartKeepsInv(w, c);
    case Stamp(t, level, size, at) => StampKeepsInv(w, t, level, size, at);
    case Purge(t) => Carry(w, PurgeStep(w, t));
    case _ => HoldsKeepInv(w, HoldStep(w, s));
  }

  lemma {:induction false} RunKeepsInv(w: World, steps: seq<Step>)
    requires Inv(w)
    ensures Inv(Run(w, steps))
    decreases |steps|
  {
    if steps != [] {
      StepKeepsInv(w, steps[0]);
      RunKeepsInv(Next(w, steps[0]), steps[1..]);
    }
  }

  /** Every world an interleaving of Coord steps can reach from an empty one. */
  lemma Reachable(w: World, steps: seq<Step>)
    requires Init(w)
    ensures Inv(Run(w, steps))
  {
    RunKeepsInv(w, steps);
  }

  // ----- epochs count acquires -----

  /** The Coord whose acquire transaction on t step s wins in w, if any. */
  function Acquirer(w: World, s: Step, t: TaskId): Option<CoordId> {
    if s.Advance? && s.ok && s.op in w.ops && w.ops[s.op].task == t && Wins(w, w.ops[s.op])
    then Some(w.ops[s.op].coord)
    else None
  }

  /** The number of acquires of t won along an interleaving. */
  function Acquires(w: World, steps: seq<Step>, t: TaskId): nat
    decreases |steps|
  {
    if steps == [] then 0
    else (if Acquirer(w, steps[0], t).Some? then 1 else 0) + Acquires(Next(w, steps[0]), steps[1..], t)
  }

  /** A step logs a claimant for t exactly when it wins an acquire of t. */
  lemma StepLogs(w: World, s: Step, t: TaskId)
    requires Inv(w) && t in w.claimants
    ensures t in Next(w, s).claimants
    ensures Next(w, s).claimants[t]
         == w.claimants[t] + (if Acquirer(w, s, t).Some? then [Acquirer(w, s, t).value] else [])
  {
    if s.Advance? {
      AdvanceLogs(w, s.op, s.ok, s.live, t);
    } else {
      OthersLogNothing(w, s, t);
    }
  }

  lemma AdvanceLogs(w: World, o: OpId, ok: bool, live: bool, t: TaskId)
    requires t in w.claimants
    ensures var s := Advance(o, ok, live); var log := Next(w, s).claimants;
      t in log && log[t] == w.claimants[t] + (if Acquirer(w, s, t).Some? then [Acquirer(w, s, t).value] else [])
  {
  }

  lemma OthersLogNothing(w: World, s: Step, t: TaskId)
    requires !s.Advance? && t in w.claimants
    ensures t in Next(w, s).claimants && Next(w, s).claimants[t] == w.claimants[t]
  {
  }

  /** Over any interleaving a record's claim_epoch grows by exactly one for each
      acquire transaction that wins, and by nothing else. */
  lemma {:induction false} EpochCountsAcquires(w: World, steps: seq<Step>, t: TaskId)
    requires Inv(w) && t in w.tasks && t in Run(w, steps).tasks
    ensures Run(w, steps).tasks[t].claimEpoch == w.tasks[t].claimEpoch + Acquires(w, steps, t)
  {
    LogCountsAcquires(w, steps, t);
    RunKeepsInv(w, steps);
    assert TaskInv(w, t) && TaskInv(Run(w, steps), t);
  }

  lemma {:induction false} LogCountsAcquires(w: World, steps: seq<Step>, t: TaskId)
    requires Inv(w) && t in w.claimants
    ensures t in Run(w, steps).claimants
    ensures |Run(w, steps).claimants[t]| == |w.claimants[t]| + Acquires(w, steps, t)
    decreases |steps|
  {
    if steps != [] {
      StepLogs(w, steps[0], t);
      StepKeepsInv(w, steps[0]);
      LogCountsAcquires(Next(w, steps[0]), steps[1..], t);
    }
  }

  // ----- the epoch gate -----

  predicate PassesEpochGate(w: World, c: CoordId, t: TaskId) {
    CheckEpoch(w, c, t) == None
  }

  /** No Coord remembers an epoch beyond the record's, and once a task has been
      claimed at most one Coord remembers its current epoch. */
  lemma RememberedBounded(w: World, c: CoordId, d: CoordId, t: TaskId)
    requires Inv(w) && t in w.tasks
    ensures Remembered(w, c, t) <= w.tasks[t].claimEpoch
    ensures w.tasks[t].claimEpoch > 0 && PassesEpochGate(w, c, t) && PassesEpochGate(w, d, t) ==> c == d
  {
    assert TaskInv(w, t);
    assert (c, t) in w.epochs ==> Issued(w, c, t, w.epochs[(c, t)]);
    assert (d, t) in w.epochs ==> Issued(w, d, t, w.epochs[(d, t)]);
  }

  /** Someone other than c made the most recent acquire of t. */
  predicate Fenced(w: World, c: CoordId, t: TaskId) {
    t in w.claimants && w.claimants[t] != [] && w.claimants[t][|w.claimants[t]| - 1] != c
  }

  /** A fenced Coord passes no commit gate and closes nothing, whether it
      remembers an old epoch or none. */
  lemma FencedIsRefused(w: World, c: CoordId, t: TaskId, reason: string, now: int)
    requires Inv(w) && Fenced(w, c, t) && c in w.agents
    ensures CheckEpoch(w, c, t).Some?
    ensures CloseTask(w, c, t, reason, now).Err?
    ensures Next(w, Close(c, t, reason, now)) == w
  {
    assert t in w.tasks ==> TaskInv(w, t);
    assert (c, t) in w.epochs ==> Issued(w, c, t, w.epochs[(c, t)]);
  }

  lemma {:induction false} FenceHolds(w: World, steps: seq<Step>, c: CoordId, t: TaskId)
    requires Inv(w) && Fenced(w, c, t)
    requires forall i | 0 <= i < |steps| :: Acquirer(Run(w, steps[..i]), steps[i], t) != Some(c)
    ensures Inv(Run(w, steps)) && Fenced(Run(w, steps), c, t)
    ensures Run(w, steps).agents == w.agents
    decreases |steps|
  {
    if steps != [] {
      var w' := Next(w, steps[0]);
      assert Run(w, steps[..0]) == w;
      StepLogs(w, steps[0], t);
      StepKeepsInv(w, steps[0]);
      StepExtends(w, steps[0]);
      forall i | 0 <= i < |steps[1..]| ensures Acquirer(Run(w', steps[1..][..i]), steps[1..][i], t) != Some(c) {
        assert steps[..i + 1][1..] == steps[1..][..i];
        assert Run(w, steps[..i + 1]) == Run(w', steps[1..][..i]);
      }
      FenceHolds(w', steps[1..], c, t);
    }
  }

  /** The zombie fence: after another Coord's acquire of t wins, and until c
      itself wins one, every commit gate and every CloseTask of c on t is
      refused, whatever else happens in between. */
  lemma ZombieFence(w: World, win: Step, later: seq<Step>, c: CoordId, t: TaskId, reason: string, now: int)
    requires Inv(w) && c in w.agents && t in w.claimants
    requires Acquirer(w, win, t).Some? && Acquirer(w, win, t) != Some(c)
    requires forall i | 0 <= i < |later| :: Acquirer(Run(Next(w, win), later[..i]), later[i], t) != Some(c)
    ensures var z := Run(Next(w, win), later);
      && c in z.agents
      && CheckEpoch(z, c, t).Some?
      && CloseTask(z, c, t, reason, now).Err?
      && Next(z, Close(c, t, reason, now)) == z
  {
    StepLogs(w, win, t);
    StepKeepsInv(w, win);
    StepExtends(w, win);
    FenceHolds(Next(w, win), later, c, t);
    FencedIsRefused(Run(Next(w, win), later), c, t, reason, now);
  }

  // ----- records -----

  /** In every reachable world: claimed_by is set exactly while claimed; a
      claimed task has been acquired, by a Coord of the claiming agent; a closed
      task was closed by the agent of the Coord that holds its last epoch. */
  lemma RecordShape(w: World, steps: seq<Step>, t: TaskId)
    requires Init(w) && t in Run(w, steps).tasks
    ensures var z := Run(w, steps); var rec := z.tasks[t];
      && (rec.claimedBy != NoAgent <==> rec.status == Claimed)
      && (rec.status == Claimed ==> rec.claimEpoch >= 1 && LastAgent(z, t, rec.claimedBy))
      && (rec.status == Closed ==> rec.claimEpoch >= 1 && LastAgent(z, t, rec.closedBy))
  {
    Reachable(w, steps);
    assert TaskInv(Run(w, steps), t);
  }

  /** A task closes only at the hands of a Coord that is its claimer, made its
      last acquire and passes the epoch gate at that moment. */
  lemma CloseNeedsTheClaim(w: World, c: CoordId, t: TaskId, reason: string, now: int)
    requires Inv(w) && c in w.agents
    ensures CloseTask(w, c, t, reason, now).Ok? <==>
              && t in w.tasks && w.tasks[t].status == Claimed
              && w.tasks[t].claimedBy == w.agents[c]
              && PassesEpochGate(w, c, t)
    ensures CloseTask(w, c, t, reason, now).Ok? ==>
              && !Fenced(w, c, t)
              && CloseTask(w, c, t, reason, now).value == w.tasks[t := w.tasks[t].(
                   status := Closed, claimedBy := "", closedAt := Some(now), closedBy := w.agents[c],
                     closedReason := reason)]
    ensures CloseTask(w, c, t, reason, now).Err? ==>
              CloseTask(w, c, t, reason, now).error ==
                if t !in w.tasks then TaskNotFound
                else if w.tasks[t].status == Closed then TaskAlreadyClosed
                else if w.tasks[t].claimedBy != w.agents[c] then AgentMismatch
                else EpochStale
  {
    if t in w.tasks {
      assert TaskInv(w, t);
      assert (c, t) in w.epochs ==> Issued(w, c, t, w.epochs[(c, t)]);
    }
  }

  // ----- holds -----

  /** The agent behind a step, if a Coord takes it. */
  function Actor(w: World, s: Step): Option<Agent> {
    match s
    case Advance(o, _, _) => if o in w.ops && w.ops[o].coord in w.agents then Some(w.agents[w.ops[o].coord]) else None
    case Announce(c, _) => if c in w.agents then Some(w.agents[c]) else None
    case Drop(c, _) => if c in w.agents then Some(w.agents[c]) else None
    case _ => None
  }

  /** The step of a takeover that releases the old claimer's hold on p. */
  predicate TakesOver(w: World, s: Step, p: Path, holder: Agent) {
    && s.Advance? && s.op in w.ops && w.ops[s.op].phase.Dropping?
    && var ph := w.ops[s.op].phase; ph.n < |ph.files| && ph.files[ph.n] == p && ph.prev == holder
  }

  lemma CallSparesHolds(w: World, op: Op, agent: Agent, ok: bool, live: bool, p: Path)
    requires p in w.holds
    ensures var holds := EffectOf(w, op, agent, ok, live).holds; var ph := op.phase;
      || (p in holds && holds[p] == w.holds[p])
      || w.holds[p] == agent
      || (ph.Dropping? && ph.n < |ph.files| && ph.files[ph.n] == p && ph.prev == w.holds[p])
  {
  }

  /** A hold stays with its agent through every step but its expiry, a step of that agent
      itself, and the step of a takeover that releases the old claimer's file. */
  lemma HoldIsSafe(w: World, s: Step, p: Path)
    requires p in w.holds
    ensures var holds := Next(w, s).holds;
      && (p in holds ==> holds[p] == w.holds[p])
      && (p !in holds ==> s == Expire(p) || Actor(w, s) == Some(w.holds[p]) || TakesOver(w, s, p, w.holds[p]))
  {
    if s.Advance? && s.op in w.ops && w.ops[s.op].coord in w.agents {
      var op := w.ops[s.op];
      CallSparesHolds(w, op, w.agents[op.coord], s.ok, s.live, p);
      AnnounceSparesOthers(w, op, w.agents[op.coord], s.ok, s.live, p);
    }
  }

  /** No call gives a held file to another agent. */
  lemma AnnounceSparesOthers(w: World, op: Op, agent: Agent, ok: bool, live: bool, p: Path)
    requires p in w.holds
    ensures p in EffectOf(w, op, agent, ok, live).holds ==> EffectOf(w, op, agent, ok, live).holds[p] == w.holds[p]
  {
  }

  /** A new task is open, unclaimed and at epoch 0, with the draft's files and edges; an id
      that was ever used is not opened again. */
  lemma OpenWrites(w: World, draft: Task)
    ensures var z := Next(w, OpenTask(draft));
      if draft.id in w.claimants then z == w
      else
        && draft.id in z.tasks && z.holds == w.holds && z.epochs == w.epochs && z.ops == w.ops
        && (forall t | t in w.tasks && t != draft.id :: t in z.tasks && z.tasks[t] == w.tasks[t])
        && z.tasks[draft.id] == Task(draft.id, Open, "", draft.files, draft.parent, draft.edges, draft.createdAt,
                                     draft.deferUntil, None, "", "", 0, 0, 0, None)
  {
  }

  /** The read step of a Reclaim refuses a claimer that presence lists, and changes
      nothing but the operation's own phase. */
  lemma ReclaimSparesTheLive(w: World, o: OpId)
    requires o in w.ops && w.ops[o].coord in w.agents && w.ops[o].phase.Reading? && w.ops[o].route.ByReclaim?
    requires w.ops[o].task in w.tasks
    ensures var rec := w.tasks[w.ops[o].task]; var agent := w.agents[w.ops[o].coord];
      var z := Next(w, Advance(o, true, true));
      && z == w.(ops := z.ops) && o in z.ops
      && (rec.status == Claimed && rec.claimedBy != agent ==> z.ops[o].phase == Refused(ClaimerLive))
  {
  }

  lemma AdvanceKeepsClosed(w: World, o: OpId, ok: bool, live: bool, t: TaskId)
    requires t in w.tasks && w.tasks[t].status == Closed
    requires o in w.ops && w.ops[o].coord in w.agents
    ensures t in AdvanceOp(w, o, ok, live).tasks && AdvanceOp(w, o, ok, live).tasks[t] == w.tasks[t]
  {
    EffectShape(w, w.ops[o], w.agents[w.ops[o].coord], ok, live);
  }

  lemma CloseLeavesClosed(w: World, c: CoordId, t: TaskId, reason: string, now: int, u: TaskId)
    requires u in w.tasks && w.tasks[u].status == Closed
    ensures u in CloseStep(w, c, t, reason, now).tasks && CloseStep(w, c, t, reason, now).tasks[u] == w.tasks[u]
  {
  }

  lemma StepKeepsClosed(w: World, s: Step, t: TaskId)
    requires t in w.claimants && t in w.tasks && w.tasks[t].status == Closed
    ensures t in Next(w, s).tasks ==> EqNonCompaction(w.tasks[t], Next(w, s).tasks[t])
    ensures t !in Next(w, s).tasks ==> s == Purge(t)
  {
    match s
    case Advance(o, ok, live) =>
      if o in w.ops && w.ops[o].coord in w.agents { AdvanceKeepsClosed(w, o, ok, live, t); }
    case Close(c, u, reason, now) => CloseLeavesClosed(w, c, u, reason, now, t);
    case _ =>
  }

  /** Closed is absorbing: an interleaving changes nothing of a closed record but its
      compaction stamps, and only a purge takes it out of the bucket, for good. */
  lemma {:induction false} ClosedIsAbsorbing(w: World, steps: seq<Step>, t: TaskId)
    requires Inv(w) && t in w.claimants
    requires t in w.tasks ==> w.tasks[t].status == Closed
    ensures t in Run(w, steps).tasks ==> t in w.tasks && EqNonCompaction(w.tasks[t], Run(w, steps).tasks[t])
    ensures t in w.tasks && Purge(t) !in steps ==> t in Run(w, steps).tasks
    decreases |steps|
  {
    if steps != [] {
      StepKeepsInv(w, steps[0]);
      StepLogs(w, steps[0], t);
      if t in w.tasks {
        StepKeepsClosed(w, steps[0], t);
      } else {
        StepKeepsPurged(w, steps[0], t);
      }
      ClosedIsAbsorbing(Next(w, steps[0]), steps[1..], t);
    }
  }

  lemma StepKeepsPurged(w: World, s: Step, t: TaskId)
    requires t in w.claimants && t !in w.tasks
    ensures t !in Next(w, s).tasks
  {
    if s.Advance? && s.op in w.ops && w.ops[s.op].coord in w.agents {
      var op := w.ops[s.op];
      EffectShape(w, op, w.agents[op.coord], s.ok, s.live);
    }
  }
}
