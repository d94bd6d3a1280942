/** Task records, the transition rules every write is checked against, and the
    mutators coord plugs into a task transaction.

    A transaction (Tx) is one atomic read-mutate-write of a single record: the
    mutator sees the current record, its proposal is checked by ValidTransition,
    and an error on either side leaves the bucket as it was. Clocks are
    parameters; the updated_at, title and context fields carry no protocol
    meaning and are not modelled.
 */
module Tasks {
  type TaskId = string
  type Agent = string
  type Path = string

  const NoAgent: Agent := ""

  datatype Option<+T> = None | Some(value: T)

  datatype Error =
    | TaskNotFound | TaskAlreadyClaimed | TaskNotClaimed | AlreadyClaimer | ClaimerLive
    | AgentMismatch | TaskAlreadyClosed | EpochStale | HeldByAnother | NotHeld
    | InvalidTransition | ClaimNoOp | Substrate

  datatype Result<+T> = Ok(value: T) | Err(error: Error)

  datatype Status = Open | Claimed | Closed

  datatype EdgeType = Blocks | Supersedes | Duplicates | DiscoveredFrom | Unknown(name: string)

  datatype Edge = Edge(kind: EdgeType, target: TaskId)

  datatype Task = Task(
    id: TaskId,
    status: Status,
    claimedBy: Agent,
    files: seq<Path>,
    parent: TaskId,
    edges: seq<Edge>,
    createdAt: int,
    deferUntil: Option<int>,
    closedAt: Option<int>,
    closedBy: Agent,
    closedReason: string,
    claimEpoch: nat,
    compactLevel: nat,
    originalSize: nat,
    compactedAt: Option<int>)

  /** The record coord.OpenTask writes. */
  function NewTask(id: TaskId, files: seq<Path>, parent: TaskId, edges: seq<Edge>,
                   createdAt: int, deferUntil: Option<int>): Task
  {
    Task(id, Open, NoAgent, files, parent, edges, createdAt, deferUntil,
         None, NoAgent, "", 0, 0, 0, None)
  }

  /** claimed_by is set exactly while the task is claimed. */
  predicate Coupled(t: Task) {
    t.status == Claimed <==> t.claimedBy != NoAgent
  }

  /** Two records that differ at most in their compaction stamps. */
  predicate EqNonCompaction(t: Task, u: Task) {
    u == t.(compactLevel := u.compactLevel, originalSize := u.originalSize, compactedAt := u.compactedAt)
  }

  predicate LegalTransition(current: Task, next: Task) {
    if current.status == Closed then
      next.status == Closed && EqNonCompaction(current, next)
    else
      true
  }

  predicate ValidTransition(current: Task, next: Task) {
    Coupled(next) && LegalTransition(current, next)
  }

  type Mutator = Task -> Result<Task>

  /** One task transaction over the hot bucket. */
  function Tx(tasks: map<TaskId, Task>, id: TaskId, mutate: Mutator): Result<map<TaskId, Task>> {
    if id !in tasks then Err(TaskNotFound)
    else match mutate(tasks[id])
      case Err(e) => Err(e)
      case Ok(next) =>
        if ValidTransition(tasks[id], next) then Ok(tasks[id := next]) else Err(InvalidTransition)
  }

  /** The bucket after a transaction whose error the caller swallows. */
  function TxOrKeep(tasks: map<TaskId, Task>, id: TaskId, mutate: Mutator): map<TaskId, Task> {
    match Tx(tasks, id, mutate)
    case Ok(after) => after
    case Err(_) => tasks
  }

  /** The three ways to take a claim. */
  datatype Route = ByClaim | ByReclaim | ByHandoff(from: Agent)

  /** The check made on the record read before the transaction. `live` says
      whether presence lists the current claimer; only Reclaim asks. */
  function PreCheck(route: Route, rec: Task, agent: Agent, live: bool): Option<Error> {
    match route
    case ByClaim =>
      if rec.status != Open || rec.claimedBy != NoAgent then Some(TaskAlreadyClaimed) else None
    case ByReclaim =>
      if rec.status != Claimed then Some(TaskNotClaimed)
      else if rec.claimedBy == agent then Some(AlreadyClaimer)
      else if live then Some(ClaimerLive)
      else None
    case ByHandoff(from) =>
      if rec.status != Claimed then Some(TaskNotClaimed)
      else if rec.claimedBy == agent then Some(AlreadyClaimer)
      else if rec.claimedBy != from then Some(AgentMismatch)
      else None
  }

  /** claimMutator, reclaimMutator and handoffMutator: the guard is re-checked on
      the record the transaction read, and a win raises the epoch by one. */
  function AcquireMutator(route: Route, agent: Agent): Mutator {
    (cur: Task) =>
      match PreCheck(route, cur, agent, false)
      case Some(e) => Err(e)
      case None => Ok(cur.(status := Claimed, claimedBy := agent, claimEpoch := cur.claimEpoch + 1))
  }

  /** The mutator of undoTaskCAS and releaseTaskCAS: it compares the agent, not the epoch. */
  function UnclaimMutator(agent: Agent): Mutator {
    (cur: Task) =>
      if cur.status != Claimed || cur.claimedBy != agent then Err(ClaimNoOp)
      else Ok(cur.(status := Open, claimedBy := NoAgent))
  }

  function ApplyClose(cur: Task, agent: Agent, reason: string, now: int): Task {
    cur.(status := Closed, claimedBy := NoAgent, closedAt := Some(now), closedBy := agent, closedReason := reason)
  }

  /** closeMutator; `want` is the epoch the closing Coord remembers, 0 if none. */
  function CloseMutator(agent: Agent, want: nat, reason: string, now: int): Mutator {
    (cur: Task) =>
      if cur.status == Closed then Err(TaskAlreadyClosed)
      else if cur.claimedBy != agent then Err(AgentMismatch)
      else if cur.claimEpoch != want then Err(EpochStale)
      else Ok(ApplyClose(cur, agent, reason, now))
  }

  /** Closed is terminal for every transaction whatever its mutator: the record
      keeps everything but its compaction stamps, and no other record moves. */
  lemma TxKeepsClosed(tasks: map<TaskId, Task>, id: TaskId, mutate: Mutator, t: TaskId)
    requires t in tasks && tasks[t].status == Closed
    ensures t in TxOrKeep(tasks, id, mutate)
    ensures EqNonCompaction(tasks[t], TxOrKeep(tasks, id, mutate)[t])
  {
  }

  // ----- listings -----

  type Bucket = map<TaskId, Task>

  /** Every record is stored under its own id. */
  ghost predicate Keyed(tasks: Bucket) {
    forall t | t in tasks :: tasks[t].id == t
  }

  ghost predicate Distinct(records: seq<Task>) {
    forall i, j | 0 <= i < j < |records| :: records[i] != records[j]
  }

  /** A listing: every record of the bucket once, in any order. */
  ghost predicate Listing(records: seq<Task>, tasks: Bucket) {
    && (forall r | r in records :: r.id in tasks && tasks[r.id] == r)
    && (forall t | t in tasks :: tasks[t] in records)
    && Distinct(records)
  }
}
