/** Progress of the ready queue: an acyclic backlog never gets stuck. */
module Backlog {
  import opened Tasks
  import opened ReadyQueue

  // ----- the waits-for relation -----

  /** Task number i waits for task number j. */
  predicate WaitsFor(records: seq<Task>, i: nat, j: nat) {
    && i < |records| && j < |records|
    && records[i].status != Closed && Holds(records[j], records[i].id)
  }

  ghost predicate Walk(records: seq<Task>, p: seq<nat>) {
    forall i, j | 0 <= i < j < |p| && j == i + 1 :: WaitsFor(records, p[i], p[j])
  }

  ghost predicate Acyclic(records: seq<Task>) {
    !exists p: seq<nat> :: |p| >= 2 && p[0] == p[|p| - 1] && Walk(records, p)
  }

  // ----- a finite relation without sinks has a cycle -----

  function Trail(next: map<nat, nat>, i: nat, n: nat): seq<nat>
    requires i in next && forall k | k in next :: next[k] in next
    decreases n
  {
    if n == 0 then [i] else [i] + Trail(next, next[i], n - 1)
  }

  /** Each member's successor follows it. */
  ghost predicate Follows(next: map<nat, nat>, p: seq<nat>) {
    && (forall k | 0 <= k < |p| :: p[k] in next)
    && (forall i, j | 0 <= i < j < |p| && j == i + 1 :: p[i] in next && p[j] == next[p[i]])
  }

  lemma {:induction false} TrailFollows(next: map<nat, nat>, i: nat, n: nat)
    requires i in next && forall k | k in next :: next[k] in next
    ensures var p := Trail(next, i, n); |p| == n + 1 && p[0] == i && Follows(next, p)
    decreases n
  {
    if n != 0 {
      TrailFollows(next, next[i], n - 1);
    }
  }

  lemma {:induction false} Pigeonhole(p: seq<nat>, s: set<nat>) returns (i: nat, j: nat)
    requires |p| > |s| && forall k | 0 <= k < |p| :: p[k] in s
    ensures i < j < |p| && p[i] == p[j]
    decreases |s|
  {
    if k :| 0 < k < |p| && p[k] == p[0] {
      return 0, k;
    }
    i, j := Pigeonhole(p[1..], s - {p[0]});
    i, j := i + 1, j + 1;
  }

  lemma FindCycle(next: map<nat, nat>) returns (cycle: seq<nat>)
    requires next != map[] && forall k | k in next :: next[k] in next
    ensures |cycle| >= 2 && cycle[0] == cycle[|cycle| - 1] && Follows(next, cycle)
  {
    var i :| i in next;
    var p := Trail(next, i, |next.Keys|);
    TrailFollows(next, i, |next.Keys|);
    var a, b := Pigeonhole(p, next.Keys);
    cycle := p[a..b + 1];
  }

  lemma SinklessHasCycle(records: seq<Task>, next: map<nat, nat>)
    requires next != map[] && forall k | k in next :: next[k] in next && WaitsFor(records, k, next[k])
    ensures !Acyclic(records)
  {
    var cycle := FindCycle(next);
    assert Walk(records, cycle);
  }

  // ----- progress -----

  ghost predicate Healthy(records: seq<Task>, now: int) {
    && (forall r | r in records :: Coupled(r) && !Deferred(r, now))
    && Acyclic(records)
  }

  /** Some task that is not closed waits for nobody. */
  lemma SomeoneIsFree(records: seq<Task>) returns (i: nat)
    requires Acyclic(records) && exists r | r in records :: r.status != Closed
    ensures i < |records| && records[i].status != Closed && forall j :: !WaitsFor(records, i, j)
  {
    var live := set k | 0 <= k < |records| && records[k].status != Closed;
    var r :| r in records && r.status != Closed;
    var k0 :| 0 <= k0 < |records| && records[k0] == r;
    assert k0 in live;
    if forall k | k in live :: exists j :: WaitsFor(records, k, j) {
      var next := map k | k in live :: Someone(records, k);
      assert k0 in next;
      SinklessHasCycle(records, next);
    } else {
      i :| i in live && forall j :: !WaitsFor(records, i, j);
    }
  }

  ghost function Someone(records: seq<Task>, k: nat): (j: nat)
    requires exists j :: WaitsFor(records, k, j)
    ensures WaitsFor(records, k, j) && records[j].status != Closed
  {
    var j :| WaitsFor(records, k, j); j
  }

  /** While any task is not closed, Ready has an answer or some task is claimed. */
  lemma Progress(records: seq<Task>, now: int)
    requires Healthy(records, now) && exists r | r in records :: r.status != Closed
    ensures Queue(records, now) != [] || exists r | r in records :: r.status == Claimed
  {
    var i := SomeoneIsFree(records);
    var r := records[i];
    assert r in records;
    if r.status != Claimed {
      forall y | y in records ensures !Holds(y, r.id) {
        var j :| 0 <= j < |records| && records[j] == y;
        assert !WaitsFor(records, i, j);
      }
      QueueMember(records, now, r);
    }
  }
}
