/** The ready queue: the reverse-index form of internal/coord/ready.go and
    blocked.go against a quantified definition, and progress of the backlog. */
module ReadyQueue {
  import opened Tasks
  import opened Sorting

  // ----- the quantified definition -----

  predicate HasEdge(r: Task, kind: EdgeType, t: TaskId) {
    Edge(kind, t) in r.edges
  }

  /** A record that, while not closed, keeps task t waiting. */
  predicate Holds(r: Task, t: TaskId) {
    && r.status != Closed
    && (|| HasEdge(r, Blocks, t) || HasEdge(r, Supersedes, t) || HasEdge(r, Duplicates, t)
        || (r.parent != "" && r.parent == t))
  }

  predicate Deferred(r: Task, now: int) {
    r.deferUntil.Some? && r.deferUntil.value > now
  }

  predicate IsReady(records: seq<Task>, now: int, r: Task) {
    && r.status == Open && r.claimedBy == NoAgent
    && (forall y | y in records :: !Holds(y, r.id))
    && !Deferred(r, now)
  }

  predicate IsBlocked(records: seq<Task>, r: Task) {
    && r.status == Open && r.claimedBy == NoAgent
    && exists y | y in records :: y.status != Closed && HasEdge(y, Blocks, r.id)
  }

  function Created(): Task -> int { (r: Task) => r.createdAt }

  function Cap(s: seq<Task>, max: nat): seq<Task> {
    if |s| > max then s[..max] else s
  }

  /** The whole queue, before the cap. */
  function Queue(records: seq<Task>, now: int): seq<Task> {
    StableSort(Created(), Filter(records, r => IsReady(records, now, r)))
  }

  // ----- the code's one-pass form -----

  datatype Blockers = Blockers(
    blocked: set<TaskId>, superseded: set<TaskId>, duplicated: set<TaskId>, hasOpenChild: set<TaskId>)

  /** What the first n records, and the first m edges of the next one, imply. */
  ghost predicate Indexes(b: Blockers, records: seq<Task>, n: nat, m: nat)
    requires n <= |records| && (m > 0 ==> n < |records| && m <= |records[n].edges|)
  {
    forall t ::
      && (t in b.blocked <==> Reaches(records, n, m, Blocks, t))
      && (t in b.superseded <==> Reaches(records, n, m, Supersedes, t))
      && (t in b.duplicated <==> Reaches(records, n, m, Duplicates, t))
  }

  ghost predicate Reaches(records: seq<Task>, n: nat, m: nat, kind: EdgeType, t: TaskId)
    requires n <= |records| && (m > 0 ==> n < |records| && m <= |records[n].edges|)
  {
    || (exists i | 0 <= i < n :: records[i].status != Closed && HasEdge(records[i], kind, t))
    || (m > 0 && Edge(kind, t) in records[n].edges[..m])
  }

  ghost predicate Children(b: Blockers, records: seq<Task>, n: nat)
    requires n <= |records|
  {
    forall t :: t in b.hasOpenChild <==>
      exists i | 0 <= i < n :: records[i].status != Closed && records[i].parent != "" && records[i].parent == t
  }

  method BuildReadyBlockers(records: seq<Task>) returns (b: Blockers)
    ensures Indexes(b, records, |records|, 0) && Children(b, records, |records|)
  {
    b := Blockers({}, {}, {}, {});
    for n := 0 to |records|
      invariant Indexes(b, records, n, 0) && Children(b, records, n)
    {
      var r := records[n];
      if r.status != Closed {
        if r.parent != "" { b := b.(hasOpenChild := b.hasOpenChild + {r.parent}); }
        b := IndexEdges(records, n, b);
      }
    }
  }

  method IndexEdges(records: seq<Task>, n: nat, start: Blockers) returns (b: Blockers)
    requires n < |records| && records[n].status != Closed && Indexes(start, records, n, 0)
    ensures Indexes(b, records, n + 1, 0) && b.hasOpenChild == start.hasOpenChild
  {
    b := start;
    var edges := records[n].edges;
    for m := 0 to |edges|
      invariant Indexes(b, records, n, m) && b.hasOpenChild == start.hasOpenChild
    {
      assert edges[..m + 1] == edges[..m] + [edges[m]];
      match edges[m].kind
      case Blocks => b := b.(blocked := b.blocked + {edges[m].target});
      case Supersedes => b := b.(superseded := b.superseded + {edges[m].target});
      case Duplicates => b := b.(duplicated := b.duplicated + {edges[m].target});
      case DiscoveredFrom =>
      case Unknown(_) =>
    }
    assert edges[..|edges|] == edges;
  }

  method FilterReady(records: seq<Task>, b: Blockers, now: int) returns (out: seq<Task>)
    requires Indexes(b, records, |records|, 0) && Children(b, records, |records|)
    ensures out == Filter(records, r => IsReady(records, now, r))
  {
    out := [];
    ghost var p := (r: Task) => IsReady(records, now, r);
    for n := 0 to |records|
      invariant out == Filter(records[..n], p)
    {
      var r := records[n];
      IndexDecides(records, b, r.id);
      FilterAppend(records[..n], [r], p);
      assert records[..n + 1] == records[..n] + [r];
      if r.status == Open && r.claimedBy == NoAgent
         && r.id !in b.blocked && r.id !in b.superseded && r.id !in b.duplicated && r.id !in b.hasOpenChild
         && !(r.deferUntil.Some? && r.deferUntil.value > now) {
        out := out + [r];
      }
    }
    assert records[..|records|] == records;
  }

  lemma IndexDecides(records: seq<Task>, b: Blockers, t: TaskId)
    requires Indexes(b, records, |records|, 0) && Children(b, records, |records|)
    ensures (t in b.blocked || t in b.superseded || t in b.duplicated || t in b.hasOpenChild)
       <==> exists y | y in records :: Holds(y, t)
    ensures t in b.blocked <==> exists y | y in records :: y.status != Closed && HasEdge(y, Blocks, t)
  {
    if y :| y in records && Holds(y, t) {
      var i :| 0 <= i < |records| && records[i] == y;
      assert records[i].status != Closed;
    }
    if t in b.hasOpenChild {
      var i :| 0 <= i < |records| && records[i].status != Closed && records[i].parent != "" && records[i].parent == t;
      assert Holds(records[i], t);
    }
    if k :| k in {Blocks, Supersedes, Duplicates} && Reaches(records, |records|, 0, k, t) {
      var i :| 0 <= i < |records| && records[i].status != Closed && HasEdge(records[i], k, t);
      assert Holds(records[i], t);
    }
  }

  /** coord.Ready: exactly the tasks meeting every condition, oldest first,
      equal ages in listing order, at most max of them. */
  method Ready(records: seq<Task>, now: int, max: nat) returns (out: seq<Task>)
    ensures out == Cap(Queue(records, now), max)
    ensures OldestOf(records, r => Waiting(records, now, r), max, out)
  {
    var b := BuildReadyBlockers(records);
    var eligible := FilterReady(records, b, now);
    out := Cap(StableSort(Created(), eligible), max);
    SameTest(records, r => IsReady(records, now, r), r => Waiting(records, now, r));
    CappedOldest(records, r => Waiting(records, now, r), max);
  }

  /** What it is to be ready, on the fields of the records. */
  ghost predicate Waiting(records: seq<Task>, now: int, r: Task) {
    && r.status == Open && r.claimedBy == ""
    && (r.deferUntil == None || r.deferUntil.value <= now)
    && forall y | y in records && y.status != Closed ::
         && Edge(Blocks, r.id) !in y.edges && Edge(Supersedes, r.id) !in y.edges && Edge(Duplicates, r.id) !in y.edges
         && (y.parent == "" || y.parent != r.id)
  }

  /** What it is to be blocked. */
  ghost predicate Stuck(records: seq<Task>, r: Task) {
    && r.status == Open && r.claimedBy == ""
    && exists y | y in records :: y.status != Closed && Edge(Blocks, r.id) in y.edges
  }

  function CreatedAt(k: int): Task -> bool { (r: Task) => r.createdAt == k }

  /** out is the oldest max of the records that pass the test: only such records,
      older before younger, as many as there are or max, none of them younger than one
      left out, and of each age the first ones in listing order. */
  ghost predicate OldestOf(records: seq<Task>, test: Task -> bool, max: nat, out: seq<Task>) {
    var all := Filter(records, test);
    && |out| == (if |all| > max then max else |all|)
    && (forall r | r in out :: r in records && test(r))
    && (forall i, j | 0 <= i < j < |out| :: out[i].createdAt <= out[j].createdAt)
    && (forall r, x | r in records && test(r) && r !in out && x in out :: x.createdAt <= r.createdAt)
    && (forall k :: Filter(out, CreatedAt(k)) <= Filter(all, CreatedAt(k)))
  }

  lemma {:induction false} SameTest(s: seq<Task>, p: Task -> bool, q: Task -> bool)
    requires forall r | r in s :: p(r) == q(r)
    ensures Filter(s, p) == Filter(s, q)
  {
    if s != [] {
      assert s[0] in s;
      SameTest(s[1..], p, q);
    }
  }

  lemma {:induction false} SameKey(s: seq<Task>, k: int)
    ensures WithKey(Created(), s, k) == Filter(s, CreatedAt(k))
  {
    if s != [] {
      SameKey(s[1..], k);
    }
  }

  lemma CappedOldest(records: seq<Task>, test: Task -> bool, max: nat)
    ensures OldestOf(records, test, max, Cap(StableSort(Created(), Filter(records, test)), max))
  {
    var all := Filter(records, test);
    var sorted := StableSort(Created(), all);
    var out := Cap(sorted, max);
    StableSortIs(Created(), all);
    SortedMembers(records, test);
    forall i, j | 0 <= i < j < |sorted| ensures sorted[i].createdAt <= sorted[j].createdAt {
      assert Created()(sorted[i]) <= Created()(sorted[j]);
    }
    forall k ensures Filter(out, CreatedAt(k)) <= Filter(all, CreatedAt(k)) {
      CapIsPrefix(sorted, max, k);
      SameKey(sorted, k);
      SameKey(all, k);
      assert WithKey(Created(), sorted, k) == WithKey(Created(), all, k);
    }
  }

  lemma SortedMembers(records: seq<Task>, test: Task -> bool)
    ensures var sorted := StableSort(Created(), Filter(records, test));
      |sorted| == |Filter(records, test)| && forall r :: r in sorted <==> r in records && test(r)
  {
    var all := Filter(records, test);
    StableSortIs(Created(), all);
    assert |multiset(StableSort(Created(), all))| == |multiset(all)|;
    forall r ensures r in StableSort(Created(), all) <==> r in records && test(r) {
      MemberMultiset(StableSort(Created(), all), all, r);
      FilterMember(records, test, r);
    }
  }

  lemma CapIsPrefix(s: seq<Task>, max: nat, k: int)
    ensures Filter(Cap(s, max), CreatedAt(k)) <= Filter(s, CreatedAt(k))
  {
    if |s| > max {
      assert s == s[..max] + s[max..];
      FilterAppend(s[..max], s[max..], CreatedAt(k));
    }
  }

  method FilterBlocked(records: seq<Task>, b: Blockers) returns (out: seq<Task>)
    requires Indexes(b, records, |records|, 0) && Children(b, records, |records|)
    ensures out == Filter(records, r => IsBlocked(records, r))
  {
    out := [];
    ghost var p := (r: Task) => IsBlocked(records, r);
    for n := 0 to |records|
      invariant out == Filter(records[..n], p)
    {
      var r := records[n];
      IndexDecides(records, b, r.id);
      FilterAppend(records[..n], [r], p);
      assert records[..n + 1] == records[..n] + [r];
      if r.status == Open && r.claimedBy == NoAgent && r.id in b.blocked {
        out := out + [r];
      }
    }
    assert records[..|records|] == records;
  }

  method Blocked(records: seq<Task>, max: nat) returns (out: seq<Task>)
    ensures out == Cap(StableSort(Created(), Filter(records, r => IsBlocked(records, r))), max)
    ensures OldestOf(records, r => Stuck(records, r), max, out)
  {
    var b := BuildReadyBlockers(records);
    var eligible := FilterBlocked(records, b);
    out := Cap(StableSort(Created(), eligible), max);
    SameTest(records, r => IsBlocked(records, r), r => Stuck(records, r));
    CappedOldest(records, r => Stuck(records, r), max);
  }

  // ----- properties of the queue -----

  lemma QueueMember(records: seq<Task>, now: int, r: Task)
    ensures r in Queue(records, now) <==> r in records && IsReady(records, now, r)
  {
    var p := (x: Task) => IsReady(records, now, x);
    StableSortIs(Created(), Filter(records, p));
    MemberMultiset(Queue(records, now), Filter(records, p), r);
    FilterMember(records, p, r);
  }

  /** The answer of Ready is characterised without its code: it is the capped
      head of the one sequence that is sorted by age and lists, under every
      creation time, the ready records in listing order. */
  lemma ReadyIsTheOldestFirst(records: seq<Task>, now: int, out: seq<Task>)
    requires IsStableSortOf(Created(), Filter(records, r => IsReady(records, now, r)), out)
    ensures out == Queue(records, now)
  {
    var eligible := Filter(records, r => IsReady(records, now, r));
    StableSortIs(Created(), eligible);
    forall k ensures WithKey(Created(), out, k) == WithKey(Created(), Queue(records, now), k) {
      assert WithKey(Created(), out, k) == WithKey(Created(), eligible, k);
    }
    StableSortUnique(Created(), out, Queue(records, now));
  }

  lemma ReadyAndBlockedDisjoint(records: seq<Task>, now: int, r: Task)
    ensures !(IsReady(records, now, r) && IsBlocked(records, r))
  {
    if r' :| r' in records && IsBlocked(records, r) && r'.status != Closed && HasEdge(r', Blocks, r.id) {
      assert Holds(r', r.id);
    }
  }

  /** Adding an edge to task i puts no task into the queue. */
  lemma AddingEdgeAddsNone(records: seq<Task>, now: int, i: nat, e: Edge, r: Task)
    requires i < |records|
    requires IsReady(records[i := records[i].(edges := records[i].edges + [e])], now, r)
    ensures IsReady(records, now, r)
  {
    var after := records[i := records[i].(edges := records[i].edges + [e])];
    forall y | y in records ensures !Holds(y, r.id) {
      var j :| 0 <= j < |records| && records[j] == y;
      assert after[j] in after;
      if Holds(y, r.id) {
        assert Holds(after[j], r.id);
      }
    }
  }

  /** Before the cap: closing task i takes no other record out of the queue. */
  lemma ClosingKeepsTheQueue(records: seq<Task>, now: int, i: nat, agent: Agent, reason: string, r: Task)
    requires i < |records| && r in Queue(records, now) && r != records[i]
    ensures r in Queue(records[i := ApplyClose(records[i], agent, reason, now)], now)
  {
    var after := records[i := ApplyClose(records[i], agent, reason, now)];
    QueueMember(records, now, r);
    var j :| 0 <= j < |records| && records[j] == r;
    assert after[j] == r;
    QueueMember(after, now, r);
  }

  /** Before the cap: after adding an edge to task i every record of the queue was
      in it before, task i under its old edges. */
  lemma AddingEdgeKeepsTheQueue(records: seq<Task>, now: int, i: nat, e: Edge, r: Task)
    requires i < |records| && r in Queue(records[i := records[i].(edges := records[i].edges + [e])], now)
    ensures r in Queue(records, now) || (r == records[i].(edges := records[i].edges + [e])
        && records[i] in Queue(records, now))
  {
    var after := records[i := records[i].(edges := records[i].edges + [e])];
    QueueMember(after, now, r);
    AddingEdgeAddsNone(records, now, i, e, r);
    var j :| 0 <= j < |after| && after[j] == r;
    QueueMember(records, now, records[j]);
  }
}
