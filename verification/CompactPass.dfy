/** One compaction pass after another (Leaf.Compact in internal/coord/compact.go):
    what a pass takes, in which order, and how a backlog drains. */
module CompactPass {
  import opened Tasks
  import opened Sorting
  import opened Compaction

  datatype Buckets = Buckets(hot: Bucket, archive: Bucket)

  /** The options of a pass; size is what compactOriginalSize measures. */
  datatype Options = Options(now: int, minAge: int, limit: nat, prune: bool, size: Task -> nat)

  predicate Eligible(o: Options, t: Task) {
    Uncompacted(t) && o.now - t.closedAt.value >= o.minAge
  }

  function IsEligible(o: Options): Task -> bool { (t: Task) => Eligible(o, t) }

  function ClosedTime(): Task -> int { (t: Task) => if t.closedAt.Some? then t.closedAt.value else 0 }

  /** The records a pass compacts. */
  function Taken(o: Options, records: seq<Task>): seq<Task> {
    var all := StableSort(ClosedTime(), Filter(records, IsEligible(o)));
    if |all| > o.limit then all[..o.limit] else all
  }

  function Stamp(o: Options, t: Task): Task {
    t.(compactLevel := t.compactLevel + 1, originalSize := o.size(t), compactedAt := Some(o.now))
  }

  /** The record-update part of compactOne, alone. */
  function CompactOne(o: Options, b: Buckets, rec: Task): Buckets {
    if !o.prune then Buckets(b.hot[rec.id := Stamp(o, rec)], b.archive)
    else Buckets(b.hot - {rec.id}, if rec.id in b.archive then b.archive else b.archive[rec.id := Stamp(o, rec)])
  }

  function CompactAll(o: Options, b: Buckets, recs: seq<Task>, n: nat): Buckets
    requires n <= |recs|
  {
    if n == 0 then b else CompactOne(o, CompactAll(o, b, recs, n - 1), recs[n - 1])
  }

  class Leaf {
    var hot: Bucket
    var archive: Bucket

    constructor (b: Buckets)
      ensures Value() == b
    {
      hot, archive := b.hot, b.archive;
    }

    function Value(): Buckets
      reads this
    {
      Buckets(hot, archive)
    }

    /** compactOne through the real transaction, and getAndArchiveTask. */
    method CompactRecord(o: Options, rec: Task)
      requires rec.id in hot && hot[rec.id] == rec && rec.status == Closed && Coupled(rec)
      modifies this
      ensures Value() == CompactOne(o, old(Value()), rec)
    {
      var level := rec.compactLevel + 1;
      var r := Tx(hot, rec.id, CompactMutator(level, o.size(rec), o.now));
      hot := r.value;
      if o.prune {
        var copy := hot[rec.id];
        if rec.id !in archive {
          archive := archive[rec.id := copy];
        }
        hot := hot - {rec.id};
      }
    }

    /** Compact; fails are the tasks whose summary or artifact cannot be made. */
    method Compact(o: Options, records: seq<Task>, fails: set<TaskId>) returns (done: nat)
      requires Keyed(hot) && Listing(records, hot) && forall t | t in hot :: Coupled(hot[t])
      modifies this
      ensures done <= |Taken(o, records)| && Value() == CompactAll(o, old(Value()), Taken(o, records), done)
      ensures done < |Taken(o, records)| ==> Taken(o, records)[done].id in fails
      ensures forall i | 0 <= i < done :: Taken(o, records)[i].id !in fails
    {
      var taken := EligibleTasks(o, records);
      if |taken| > o.limit {
        taken := taken[..o.limit];
      }
      TakenAre(o, records, hot);
      done := CompactEach(o, taken, fails);
    }

    method CompactEach(o: Options, taken: seq<Task>, fails: set<TaskId>) returns (done: nat)
      requires DistinctIds(taken)
      requires forall r | r in taken :: r.id in hot && hot[r.id] == r && r.status == Closed && Coupled(r)
      modifies this
      ensures done <= |taken| && Value() == CompactAll(o, old(Value()), taken, done)
      ensures done < |taken| ==> taken[done].id in fails
      ensures forall i | 0 <= i < done :: taken[i].id !in fails
    {
      ghost var was := Value();
      done := 0;
      while done < |taken|
        invariant done <= |taken| && Value() == CompactAll(o, was, taken, done)
        invariant forall i | 0 <= i < done :: taken[i].id !in fails
      {
        var rec := taken[done];
        if rec.id in fails { return; }
        assert rec in taken;
        Untouched(o, was, taken, done, rec.id);
        CompactRecord(o, rec);
        done := done + 1;
      }
    }
  }

  /** eligibleCompactionTasks. */
  method EligibleTasks(o: Options, records: seq<Task>) returns (out: seq<Task>)
    ensures out == StableSort(ClosedTime(), Filter(records, IsEligible(o)))
  {
    out := [];
    for i := 0 to |records|
      invariant out == Filter(records[..i], IsEligible(o))
    {
      var rec := records[i];
      assert records[..i + 1] == records[..i] + [rec];
      FilterAppend(records[..i], [rec], IsEligible(o));
      if rec.status != Closed || rec.closedAt.None? { continue; }
      if rec.compactLevel != 0 { continue; }
      if o.now - rec.closedAt.value < o.minAge { continue; }
      out := out + [rec];
    }
    assert records[..|records|] == records;
    out := StableSort(ClosedTime(), out);
  }

  // ----- what a pass takes -----

  ghost predicate DistinctIds(recs: seq<Task>) {
    forall i, j | 0 <= i < j < |recs| :: recs[i].id != recs[j].id
  }

  lemma {:induction false} FilterDistinct(s: seq<Task>, p: Task -> bool)
    requires Distinct(s)
    ensures Distinct(Filter(s, p))
  {
    if s != [] {
      FilterDistinct(s[1..], p);
      FilterMember(s[1..], p, s[0]);
    }
  }

  lemma {:induction false} DistinctMultiset(s: seq<Task>)
    ensures Distinct(s) <==> forall x :: multiset(s)[x] <= 1
  {
    if s != [] {
      assert s == [s[0]] + s[1..];
      DistinctMultiset(s[1..]);
      if forall x :: multiset(s)[x] <= 1 {
        assert multiset(s)[s[0]] <= 1;
        forall x ensures multiset(s[1..])[x] <= 1 {
          assert multiset(s)[x] <= 1;
        }
      }
      if Distinct(s) {
        assert s[0] !in s[1..];
      }
    }
  }

  /** All eligible records, oldest first, each once. */
  lemma SortedEligible(o: Options, records: seq<Task>)
    requires Distinct(records)
    ensures var all := StableSort(ClosedTime(), Filter(records, IsEligible(o)));
      && SortedBy(ClosedTime(), all) && Distinct(all)
      && forall r :: r in all <==> r in records && Eligible(o, r)
  {
    var f := Filter(records, IsEligible(o));
    var all := StableSort(ClosedTime(), f);
    StableSortIs(ClosedTime(), f);
    FilterDistinct(records, IsEligible(o));
    DistinctMultiset(f);
    DistinctMultiset(all);
    forall r ensures r in all <==> r in records && Eligible(o, r) {
      MemberMultiset(all, f, r);
      FilterMember(records, IsEligible(o), r);
    }
  }

  lemma TakenAre(o: Options, records: seq<Task>, hot: Bucket)
    requires Keyed(hot) && Listing(records, hot)
    ensures DistinctIds(Taken(o, records))
    ensures forall r | r in Taken(o, records) :: r.id in hot && hot[r.id] == r && Eligible(o, r)
  {
    SortedEligible(o, records);
    var all := StableSort(ClosedTime(), Filter(records, IsEligible(o)));
    var taken := Taken(o, records);
    assert forall r | r in taken :: r in all;
    assert Distinct(taken);
    forall i, j | 0 <= i < j < |taken| ensures taken[i].id != taken[j].id {
      assert taken[i] in taken && taken[j] in taken;
    }
  }

  /** Oldest first: nothing eligible that a pass leaves closed before what it took. */
  lemma OldestFirst(o: Options, records: seq<Task>, r: Task, left: Task)
    requires Distinct(records)
    requires r in Taken(o, records) && left in records && Eligible(o, left) && left !in Taken(o, records)
    ensures r.closedAt.Some? && left.closedAt.Some? && r.closedAt.value <= left.closedAt.value
  {
    SortedEligible(o, records);
    var all := StableSort(ClosedTime(), Filter(records, IsEligible(o)));
    var i :| 0 <= i < |Taken(o, records)| && Taken(o, records)[i] == r;
    var j :| 0 <= j < |all| && all[j] == left;
    assert all[i] == r && (i < j || left in Taken(o, records));
    assert all[i] in all && ClosedTime()(all[i]) <= ClosedTime()(all[j]);
  }

  /** The records a pass takes come in the order of their closing times. */
  lemma TakenInOrder(o: Options, records: seq<Task>, i: nat, j: nat)
    requires Distinct(records) && i < j < |Taken(o, records)|
    ensures var a, b := Taken(o, records)[i].closedAt, Taken(o, records)[j].closedAt;
      a.Some? && b.Some? && a.value <= b.value
  {
    SortedEligible(o, records);
    var all := StableSort(ClosedTime(), Filter(records, IsEligible(o)));
    assert all[i] in all && all[j] in all && ClosedTime()(all[i]) <= ClosedTime()(all[j]);
  }

  /** Closed long enough ago and never compacted, on the fields of the record. */
  predicate Due(o: Options, r: Task) {
    r.status == Closed && r.compactLevel == 0 && r.closedAt.Some? && r.closedAt.value <= o.now - o.minAge
  }

  /** A pass takes only records that are due, and all of them when the limit does not cut. */
  lemma TakenMeans(o: Options, records: seq<Task>, r: Task)
    requires Distinct(records)
    ensures r in Taken(o, records) ==> r in records && Due(o, r)
    ensures |Taken(o, records)| < o.limit && r in records && Due(o, r) ==> r in Taken(o, records)
  {
    SortedEligible(o, records);
    var all := StableSort(ClosedTime(), Filter(records, IsEligible(o)));
    assert r in Taken(o, records) ==> r in all;
  }

  // ----- what a pass leaves -----

  /** A record the pass has not reached is as it was. */
  lemma {:induction false} Untouched(o: Options, b: Buckets, recs: seq<Task>, n: nat, t: TaskId)
    requires n <= |recs| && forall i | 0 <= i < n :: recs[i].id != t
    ensures var b' := CompactAll(o, b, recs, n);
      && (t in b'.hot <==> t in b.hot) && (t in b.hot ==> b'.hot[t] == b.hot[t])
      && (t in b'.archive <==> t in b.archive) && (t in b.archive ==> b'.archive[t] == b.archive[t])
  {
    if n > 0 {
      Untouched(o, b, recs, n - 1, t);
    }
  }

  /** A record it has reached carries the new stamps and nothing else new: in the hot
      bucket, or, when it prunes, in the archive, where an earlier copy is left alone. */
  lemma {:induction false} Touched(o: Options, b: Buckets, recs: seq<Task>, n: nat, k: nat)
    requires k < n <= |recs| && DistinctIds(recs)
    ensures var b' := CompactAll(o, b, recs, n); var r := recs[k]; var t := r.id;
      var stamped := r.(compactLevel := r.compactLevel + 1, originalSize := o.size(r), compactedAt := Some(o.now));
      if o.prune then
        && t !in b'.hot && t in b'.archive
        && b'.archive[t] == (if t in b.archive then b.archive[t] else stamped)
      else t in b'.hot && b'.hot[t] == stamped
  {
    if k < n - 1 {
      Touched(o, b, recs, n - 1, k);
      assert recs[n - 1].id != recs[k].id;
    } else {
      Untouched(o, b, recs, n - 1, recs[k].id);
    }
  }

  ghost function EligibleIds(o: Options, hot: Bucket): set<TaskId> {
    set t | t in hot && Eligible(o, hot[t])
  }

  ghost function Ids(recs: seq<Task>): set<TaskId> {
    set r | r in recs :: r.id
  }

  lemma {:induction false} IdsSize(recs: seq<Task>)
    requires DistinctIds(recs)
    ensures |Ids(recs)| == |recs|
  {
    if recs != [] {
      IdsSize(recs[1..]);
      assert recs[0].id !in Ids(recs[1..]);
      assert Ids(recs) == Ids(recs[1..]) + {recs[0].id};
    }
  }

  function Pass(o: Options, b: Buckets, records: seq<Task>): Buckets {
    CompactAll(o, b, Taken(o, records), |Taken(o, records)|)
  }

  /** A pass without errors makes exactly what it took ineligible. */
  lemma PassLeaves(o: Options, b: Buckets, records: seq<Task>)
    requires Keyed(b.hot) && Listing(records, b.hot)
    ensures EligibleIds(o, Pass(o, b, records).hot) == EligibleIds(o, b.hot) - Ids(Taken(o, records))
    ensures Keyed(Pass(o, b, records).hot)
  {
    var recs := Taken(o, records);
    var b' := Pass(o, b, records);
    TakenAre(o, records, b.hot);
    forall t
      ensures t in EligibleIds(o, b'.hot) <==> t in EligibleIds(o, b.hot) && t !in Ids(recs)
      ensures t in b'.hot ==> b'.hot[t].id == t
    {
      if t in Ids(recs) {
        var k :| 0 <= k < |recs| && recs[k].id == t;
        Touched(o, b, recs, |recs|, k);
      } else {
        forall i | 0 <= i < |recs| ensures recs[i].id != t { assert recs[i] in recs; }
        Untouched(o, b, recs, |recs|, t);
      }
    }
  }

  /** A pass takes as many as the limit allows. */
  lemma TakenSize(o: Options, records: seq<Task>, hot: Bucket)
    requires Keyed(hot) && Listing(records, hot)
    ensures var n := |EligibleIds(o, hot)|; |Taken(o, records)| == if n > o.limit then o.limit else n
    ensures Ids(Taken(o, records)) <= EligibleIds(o, hot)
  {
    SortedEligible(o, records);
    TakenAre(o, records, hot);
    var all := StableSort(ClosedTime(), Filter(records, IsEligible(o)));
    assert DistinctIds(all) by {
      forall i, j | 0 <= i < j < |all| ensures all[i].id != all[j].id {
        assert all[i] in all && all[j] in all;
      }
    }
    IdsSize(all);
    forall t ensures t in Ids(all) <==> t in EligibleIds(o, hot) {
      if t in EligibleIds(o, hot) { assert hot[t] in all; }
    }
    assert Ids(all) == EligibleIds(o, hot);
  }

  /** A pass without errors takes the limit off the backlog, or empties it. */
  lemma PassShrinks(o: Options, b: Buckets, records: seq<Task>)
    requires Keyed(b.hot) && Listing(records, b.hot)
    ensures Keyed(Pass(o, b, records).hot)
    ensures Backlog(o, Pass(o, b, records)) == if Backlog(o, b) > o.limit then Backlog(o, b) - o.limit else 0
  {
    PassLeaves(o, b, records);
    TakenSize(o, records, b.hot);
    TakenAre(o, records, b.hot);
    IdsSize(Taken(o, records));
  }

  type Passer = (Buckets, seq<Task>) -> Buckets

  function PassBy(o: Options): Passer { (b: Buckets, records: seq<Task>) => Pass(o, b, records) }

  /** The buckets after the first k passes, each with its own listing. */
  function Passes(pass: Passer, b: Buckets, listings: seq<seq<Task>>, k: nat): Buckets
    requires k <= |listings|
  {
    if k == 0 then b else pass(Passes(pass, b, listings, k - 1), listings[k - 1])
  }

  /** Each pass is given a listing of the hot bucket as it then is. */
  ghost predicate Listed(pass: Passer, b: Buckets, listings: seq<seq<Task>>, k: nat)
    requires k <= |listings|
  {
    k == 0 || (Listed(pass, b, listings, k - 1) && Listing(listings[k - 1], Passes(pass, b, listings, k - 1).hot))
  }

  ghost function Backlog(o: Options, b: Buckets): nat { |EligibleIds(o, b.hot)| }

  /** n less k times the limit, but not below 0. */
  function Left(n: nat, limit: nat, k: nat): nat { if k * limit >= n then 0 else n - k * limit }

  lemma LeftStep(n: nat, limit: nat, k: nat)
    ensures Left(n, limit, k + 1) == if Left(n, limit, k) > limit then Left(n, limit, k) - limit else 0
  {
    assert (k + 1) * limit == k * limit + limit;
  }

  type Counter = Buckets -> nat

  /** pass takes the limit off every keyed bucket's backlog. */
  ghost predicate TakesLimit(pass: Passer, backlog: Counter, limit: nat) {
    forall b: Buckets, records {:trigger pass(b, records)} | Keyed(b.hot) && Listing(records, b.hot) ::
      Keyed(pass(b, records).hot) && backlog(pass(b, records)) == if backlog(b) > limit then backlog(b) - limit else 0
  }

  lemma {:induction false} CountDown(pass: Passer, backlog: Counter, limit: nat, b: Buckets,
      listings: seq<seq<Task>>, k: nat)
    requires TakesLimit(pass, backlog, limit) && Keyed(b.hot) && k <= |listings| && Listed(pass, b, listings, k)
    ensures Keyed(Passes(pass, b, listings, k).hot)
    ensures backlog(Passes(pass, b, listings, k)) == Left(backlog(b), limit, k)
  {
    if k > 0 {
      CountDown(pass, backlog, limit, b, listings, k - 1);
      LeftStep(backlog(b), limit, k - 1);
      assert Passes(pass, b, listings, k) == pass(Passes(pass, b, listings, k - 1), listings[k - 1]);
    }
  }

  /** n eligible tasks lose exactly the limit per pass, whatever the listing order:
      they are gone after k passes exactly when k * limit reaches n. */
  lemma Drains(o: Options, b: Buckets, listings: seq<seq<Task>>, k: nat)
    requires k <= |listings| && Keyed(b.hot) && Listed(PassBy(o), b, listings, k)
    ensures Backlog(o, Passes(PassBy(o), b, listings, k)) == Left(Backlog(o, b), o.limit, k)
  {
    var pass, backlog := PassBy(o), (x: Buckets) => Backlog(o, x);
    forall x: Buckets, records | Keyed(x.hot) && Listing(records, x.hot)
      ensures Keyed(pass(x, records).hot) && backlog(pass(x, records)) == if backlog(x) > o.limit
        then backlog(x) - o.limit else 0
    {
      PassShrinks(o, x, records);
    }
    assert TakesLimit(pass, backlog, o.limit);
    CountDown(pass, backlog, o.limit, b, listings, k);
  }
}
