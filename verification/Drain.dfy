/** Draining a backlog: the head of Ready is claimed with its files, closed and
    released, one task a round, each round on a fresh listing. */
module Drain {
  import opened Tasks
  import opened ReadyQueue
  import opened Backlog
  import A = Acquisition

  // ----- the waits-for relation on ids -----

  predicate Waits(tasks: Bucket, a: TaskId, b: TaskId) {
    a in tasks && b in tasks && tasks[a].status != Closed && Holds(tasks[b], a)
  }

  ghost predicate WaitChain(tasks: Bucket, p: seq<TaskId>) {
    forall i, j | 0 <= i < j < |p| && j == i + 1 :: Waits(tasks, p[i], p[j])
  }

  /** A chain that comes back to where it began. */
  ghost predicate Cycle(tasks: Bucket, p: seq<TaskId>) {
    |p| >= 2 && p[0] == p[|p| - 1] && WaitChain(tasks, p)
  }

  ghost predicate NoCycle(tasks: Bucket) {
    forall p: seq<TaskId> :: !Cycle(tasks, p)
  }

  /** A walk through a listing is a chain of waits. */
  lemma WalkIsChain(records: seq<Task>, tasks: Bucket, p: seq<nat>) returns (ids: seq<TaskId>)
    requires Listing(records, tasks) && Walk(records, p)
    ensures |ids| == |p| && WaitChain(tasks, ids)
    ensures |p| >= 2 && p[0] == p[|p| - 1] ==> ids[0] == ids[|ids| - 1]
  {
    ids := seq(|p|, k requires 0 <= k < |p| => if p[k] < |records| then records[p[k]].id else "");
    forall i, j | 0 <= i < j < |ids| && j == i + 1 ensures Waits(tasks, ids[i], ids[j]) {
      assert WaitsFor(records, p[i], p[j]);
      assert records[p[i]] in records && records[p[j]] in records;
    }
  }

  /** Whatever the listing, it is acyclic as a sequence. */
  lemma ListingIsAcyclic(records: seq<Task>, tasks: Bucket)
    requires Listing(records, tasks) && NoCycle(tasks)
    ensures Acyclic(records)
  {
    if p: seq<nat> :| |p| >= 2 && p[0] == p[|p| - 1] && Walk(records, p) {
      var ids := WalkIsChain(records, tasks, p);
      if Cycle(tasks, ids) {
        assert false;
      }
    }
  }

  /** Closing a task only removes waits. */
  lemma ClosingKeepsNoCycle(tasks: Bucket, t: TaskId, closed: Task)
    requires NoCycle(tasks) && closed.status == Closed
    ensures NoCycle(tasks[t := closed])
  {
    var after := tasks[t := closed];
    forall p: seq<TaskId> | Cycle(after, p) ensures Cycle(tasks, p) {
      forall i, j | 0 <= i < j < |p| && j == i + 1 ensures Waits(tasks, p[i], p[j]) {
        assert Waits(after, p[i], p[j]);
      }
    }
  }

  // ----- one round -----

  /** CloseTask as the Coord of the view makes it. */
  function Close(v: A.View, agent: Agent, t: TaskId, now: int): A.View {
    var want := if t in v.epochs then v.epochs[t] else 0;
    v.(tasks := TxOrKeep(v.tasks, t, CloseMutator(agent, want, "done", now)))
  }

  /** Claim t; if that succeeds close it and run the release closure. */
  function ClaimAndClose(v: A.View, agent: Agent, t: TaskId, now: int): A.View {
    var (r, v1) := A.Acquire(v, agent, t, ByClaim, false);
    if r.Err? then v1 else A.Release(Close(v1, agent, t, now), agent, t, r.value)
  }

  function Round(v: A.View, agent: Agent, now: int, records: seq<Task>): A.View {
    var queue := Queue(records, now);
    if queue == [] then v else ClaimAndClose(v, agent, queue[0].id, now)
  }

  /** An acyclic backlog with nothing claimed or deferred. */
  ghost predicate Clear(tasks: Bucket, now: int) {
    && Keyed(tasks) && NoCycle(tasks)
    && forall t | t in tasks :: Coupled(tasks[t]) && tasks[t].status != Claimed && !Deferred(tasks[t], now)
  }

  /** Nobody else holds anything. */
  ghost predicate OnlyHolder(holds: map<Path, Agent>, agent: Agent) {
    forall f | f in holds :: holds[f] == agent
  }

  ghost predicate Drainable(v: A.View, agent: Agent, now: int) {
    agent != NoAgent && Clear(v.tasks, now) && OnlyHolder(v.holds, agent)
  }

  ghost function OpenIds(tasks: Bucket): set<TaskId> {
    set t | t in tasks && tasks[t].status == Open
  }

  lemma NothingBlocks(holds: map<Path, Agent>, agent: Agent, files: seq<Path>)
    requires OnlyHolder(holds, agent)
    ensures A.FirstBlocked(holds, agent, files) == |files|
  {
    A.FirstBlockedIsFirst(holds, agent, files, 0);
  }

  lemma ClaimIs(v: A.View, agent: Agent, t: TaskId, now: int)
    requires Drainable(v, agent, now) && t in v.tasks && v.tasks[t].status == Open
    ensures A.Acquire(v, agent, t, ByClaim, false) == (Ok(v.tasks[t].files), A.AfterClaim(v, agent, t))
  {
    NothingBlocks(v.holds, agent, v.tasks[t].files);
    A.UnblockedClaim(v, agent, t);
  }

  /** The close half, on any view whose claim is the agent's with its epoch remembered. */
  lemma CloseAndRelease(v: A.View, agent: Agent, t: TaskId, now: int, held: seq<Path>)
    requires t in v.tasks && v.tasks[t].status == Claimed && v.tasks[t].claimedBy == agent
    requires t in v.epochs && v.epochs[t] == v.tasks[t].claimEpoch
    ensures var z := A.Release(Close(v, agent, t, now), agent, t, held);
      && z.tasks == v.tasks[t := ApplyClose(v.tasks[t], agent, "done", now)]
      && z.holds == A.WithoutHoldsOf(v.holds, agent, held)
  {
  }

  /** A claimed and closed task: one record changes, to closed, and the claimer's
      files are free again. */
  lemma ClaimAndCloseIs(v: A.View, agent: Agent, t: TaskId, now: int)
    requires Drainable(v, agent, now) && t in v.tasks && v.tasks[t].status == Open
    ensures var z := ClaimAndClose(v, agent, t, now); var rec := v.tasks[t];
      && z.tasks == v.tasks[t := rec.(status := Closed, claimEpoch := rec.claimEpoch + 1, closedAt := Some(now),
                                      closedBy := agent, closedReason := "done")]
      && z.holds == v.holds - (set f | f in rec.files)
  {
    ClaimIs(v, agent, t, now);
    CloseAndRelease(A.AfterClaim(v, agent, t), agent, t, now, v.tasks[t].files);
    A.RollbackDropsAnnounced(v.holds, agent, v.tasks[t].files);
  }

  lemma ClosingKeepsClear(tasks: Bucket, now: int, t: TaskId, closed: Task)
    requires Clear(tasks, now) && t in tasks && tasks[t].status == Open
    requires closed.status == Closed && closed.id == t && closed.claimedBy == NoAgent
      && closed.deferUntil == tasks[t].deferUntil
    ensures Clear(tasks[t := closed], now)
    ensures OpenIds(tasks[t := closed]) == OpenIds(tasks) - {t} && t in OpenIds(tasks)
  {
    ClosingKeepsNoCycle(tasks, t, closed);
  }

  /** One close, on the parts of the view it ends in. */
  lemma ClosesOne(v: A.View, agent: Agent, now: int, t: TaskId, z: A.View)
    requires Drainable(v, agent, now) && t in v.tasks && v.tasks[t].status == Open
    requires z.tasks == v.tasks[t := ApplyClose(v.tasks[t].(claimEpoch := v.tasks[t].claimEpoch + 1), agent, "done",
        now)]
    requires z.holds == v.holds - (set f | f in v.tasks[t].files)
    ensures Drainable(z, agent, now) && |OpenIds(z.tasks)| == |OpenIds(v.tasks)| - 1
  {
    ClosingKeepsClear(v.tasks, now, t,
        ApplyClose(v.tasks[t].(claimEpoch := v.tasks[t].claimEpoch + 1), agent, "done", now));
  }

  /** Every round on a drainable view with something open closes exactly one task. */
  lemma RoundClosesOne(v: A.View, agent: Agent, now: int, records: seq<Task>)
    requires Drainable(v, agent, now) && Listing(records, v.tasks) && OpenIds(v.tasks) != {}
    ensures var z := Round(v, agent, now, records);
      Drainable(z, agent, now) && |OpenIds(z.tasks)| == |OpenIds(v.tasks)| - 1
  {
    HeadIsOpen(v, agent, now, records);
    var t := Queue(records, now)[0].id;
    ClaimAndCloseIs(v, agent, t, now);
    ClosesOne(v, agent, now, t, ClaimAndClose(v, agent, t, now));
  }

  lemma HeadIsOpen(v: A.View, agent: Agent, now: int, records: seq<Task>)
    requires Drainable(v, agent, now) && Listing(records, v.tasks) && OpenIds(v.tasks) != {}
    ensures var queue := Queue(records, now);
      queue != [] && queue[0].id in v.tasks && v.tasks[queue[0].id].status == Open
  {
    var t :| t in OpenIds(v.tasks);
    assert v.tasks[t] in records;
    ListingIsAcyclic(records, v.tasks);
    Progress(records, now);
    var head := Queue(records, now)[0];
    QueueMember(records, now, head);
  }

  // ----- all rounds -----

  type Rounder = (A.View, seq<Task>) -> A.View

  function RoundBy(agent: Agent, now: int): Rounder {
    (v: A.View, records: seq<Task>) => Round(v, agent, now, records)
  }

  /** The view after the first k rounds, each with its own listing. */
  function Rounds(round: Rounder, v: A.View, listings: seq<seq<Task>>, k: nat): A.View
    requires k <= |listings|
  {
    if k == 0 then v else round(Rounds(round, v, listings, k - 1), listings[k - 1])
  }

  /** Each round is given a listing of the bucket as it then is. */
  ghost predicate Listed(round: Rounder, v: A.View, listings: seq<seq<Task>>, k: nat)
    requires k <= |listings|
  {
    k == 0 || (Listed(round, v, listings, k - 1) && Listing(listings[k - 1], Rounds(round, v, listings, k - 1).tasks))
  }

  /** round takes one open task off every good view. */
  ghost predicate TakesOne(round: Rounder, good: A.View -> bool) {
    forall v, records {:trigger round(v, records)} | good(v) && Listing(records, v.tasks) && OpenIds(v.tasks) != {} ::
      good(round(v, records)) && |OpenIds(round(v, records).tasks)| == |OpenIds(v.tasks)| - 1
  }

  lemma {:induction false} CountDown(round: Rounder, good: A.View -> bool, v: A.View, listings: seq<seq<Task>>, k: nat)
    requires TakesOne(round, good) && good(v) && k <= |listings| && Listed(round, v, listings, k)
      && k <= |OpenIds(v.tasks)|
    ensures var z := Rounds(round, v, listings, k);
      good(z) && |OpenIds(z.tasks)| == |OpenIds(v.tasks)| - k
  {
    if k > 0 {
      CountDown(round, good, v, listings, k - 1);
      var was := Rounds(round, v, listings, k - 1);
      assert OpenIds(was.tasks) != {};
      assert Rounds(round, v, listings, k) == round(was, listings[k - 1]);
    }
  }

  /** N open tasks take exactly N rounds, whatever the order of the listings: after k
      of them N - k are open, and after N every task is closed. */
  lemma DrainsInExactlyN(v: A.View, agent: Agent, now: int, listings: seq<seq<Task>>, k: nat)
    requires Drainable(v, agent, now) && k <= |listings| && Listed(RoundBy(agent, now), v, listings, k)
      && k <= |OpenIds(v.tasks)|
    ensures var z := Rounds(RoundBy(agent, now), v, listings, k);
      && |OpenIds(z.tasks)| == |OpenIds(v.tasks)| - k
      && (k == |OpenIds(v.tasks)| ==> forall t | t in z.tasks :: z.tasks[t].status == Closed)
  {
    var round, good := RoundBy(agent, now), (x: A.View) => Drainable(x, agent, now);
    forall x, records | good(x) && Listing(records, x.tasks) && OpenIds(x.tasks) != {}
      ensures good(round(x, records)) && |OpenIds(round(x, records).tasks)| == |OpenIds(x.tasks)| - 1
    {
      RoundClosesOne(x, agent, now, records);
    }
    assert TakesOne(round, good);
    CountDown(round, good, v, listings, k);
    AllClosed(Rounds(round, v, listings, k), agent, now);
  }

  lemma AllClosed(v: A.View, agent: Agent, now: int)
    requires Drainable(v, agent, now)
    ensures |OpenIds(v.tasks)| == 0 ==> forall t | t in v.tasks :: v.tasks[t].status == Closed
  {
    if |OpenIds(v.tasks)| == 0 {
      forall t | t in v.tasks ensures v.tasks[t].status == Closed {
        assert t !in OpenIds(v.tasks);
      }
    }
  }
}
