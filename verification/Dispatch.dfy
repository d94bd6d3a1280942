/** Dispatch waves: internal/dispatch/advance.go and cancel.go. */
module Dispatch {
  import opened Sorting

  datatype Wave = Wave(number: int, tasks: seq<string>)

  datatype Manifest = Manifest(current: int, waves: seq<Wave>)

  datatype Stored = NoManifest | Stored(manifest: Manifest)

  datatype Outcome =
    | NothingStored
    | AllWavesComplete
    | WaveIncomplete(open: seq<string>)
    | LookupFailed(id: string)
    | Advanced(to: int)

  // ----- Advance -----

  /** The position of the first wave with this number, or |waves|. */
  function IndexOf(waves: seq<Wave>, number: int, from: nat): (k: nat)
    requires from <= |waves|
    ensures from <= k <= |waves|
    ensures k < |waves| ==> waves[k].number == number
    ensures forall j | from <= j < k :: waves[j].number != number
    decreases |waves| - from
  {
    if from == |waves| || waves[from].number == number then from else IndexOf(waves, number, from + 1)
  }

  function IsOpen(closed: set<string>): string -> bool { (id: string) => id !in closed }

  /** nextWave after the first n waves, with -1 for "none yet". */
  function NextWave(waves: seq<Wave>, current: int, n: nat): int
    requires n <= |waves|
  {
    if n == 0 then -1
    else
      var w, next := waves[n - 1].number, NextWave(waves, current, n - 1);
      if w > current && (next < 0 || w < next) then w else next
  }

  /** r is the number of the wave that comes next, or negative when there is none. */
  ghost predicate IsNext(waves: seq<Wave>, current: int, r: int) {
    if r < 0 then forall w | w in waves :: w.number <= current
    else r > current && (exists w | w in waves :: w.number == r) && forall w | w in waves ::
      w.number <= current || r <= w.number
  }

  /** A wave number that the sentinel -1 cannot tell from "none". */
  ghost predicate HidesFromSentinel(waves: seq<Wave>, current: int) {
    exists w | w in waves :: current < w.number < 0
  }

  lemma {:induction false} NextWavePrefix(waves: seq<Wave>, current: int, n: nat)
    requires n <= |waves| && !HidesFromSentinel(waves, current)
    ensures NextWave(waves, current, n) >= -1 && IsNext(waves[..n], current, NextWave(waves, current, n))
  {
    if n > 0 {
      NextWavePrefix(waves, current, n - 1);
      assert waves[..n] == waves[..n - 1] + [waves[n - 1]];
      assert waves[n - 1] in waves;
    }
  }

  /** The search finds the next wave if and only if no later wave is negative. */
  lemma NextWaveIsRightIff(waves: seq<Wave>, current: int)
    ensures IsNext(waves, current, NextWave(waves, current, |waves|)) <==> !HidesFromSentinel(waves, current)
  {
    assert waves[..|waves|] == waves;
    if !HidesFromSentinel(waves, current) {
      NextWavePrefix(waves, current, |waves|);
    }
  }

  /** The position of the first task whose status cannot be read or written, or |tasks|. */
  function FirstFaulty(tasks: seq<string>, faulty: set<string>, from: nat := 0): (k: nat)
    requires from <= |tasks|
    ensures from <= k <= |tasks| && (k < |tasks| ==> tasks[k] in faulty) && forall j | from <= j < k ::
      tasks[j] !in faulty
    decreases |tasks| - from
  {
    if from == |tasks| || tasks[from] in faulty then from else FirstFaulty(tasks, faulty, from + 1)
  }

  /** What Advance answers; the manifest changes only on Advanced. */
  function AdvanceOutcome(m: Manifest, closed: set<string>, faulty: set<string> := {}): Outcome {
    var k := IndexOf(m.waves, m.current, 0);
    if k == |m.waves| then AllWavesComplete
    else
      var tasks := m.waves[k].tasks;
      var bad := FirstFaulty(tasks, faulty);
      var open := Filter(tasks, IsOpen(closed));
      var next := NextWave(m.waves, m.current, |m.waves|);
      if bad < |tasks| then LookupFailed(tasks[bad])
      else if open != [] then WaveIncomplete(open)
      else if next < 0 then AllWavesComplete
      else Advanced(next)
  }

  // ----- Cancel, which counts positions where Advance counts wave numbers -----

  /** The waves whose tasks Cancel closes. */
  predicate Cancels(m: Manifest, j: nat) {
    m.current >= 1 && m.current - 1 <= j < |m.waves|
  }

  /** The tasks of the waves from position i on, in order. */
  function TasksFrom(waves: seq<Wave>, i: nat): seq<string>
    decreases if i < |waves| then |waves| - i else 0
  {
    if i >= |waves| then [] else waves[i].tasks + TasksFrom(waves, i + 1)
  }

  /** The tasks Cancel closes, in order. */
  function CancelList(m: Manifest): seq<string> {
    if m.current < 1 then [] else TasksFrom(m.waves, m.current - 1)
  }

  ghost function Elems(s: seq<string>): set<string> { set id | id in s }

  lemma ElemsAppend(a: seq<string>, b: seq<string>)
    ensures Elems(a + b) == Elems(a) + Elems(b)
  {
  }

  ghost function CancelClosed(m: Manifest): set<string> {
    Elems(CancelList(m))
  }

  /** id is a task of a wave at position current - 1 or later. */
  ghost predicate ByPosition(m: Manifest, id: string) {
    exists j: nat :: m.current - 1 <= j < |m.waves| && m.current >= 1 && id in m.waves[j].tasks
  }

  lemma CancelListIs(m: Manifest, faulty: set<string>)
    ensures forall id :: id in CancelList(m) <==> ByPosition(m, id)
    ensures FirstFaulty(CancelList(m), faulty) == |CancelList(m)| <==> forall id | id in CancelList(m) :: id !in faulty
    ensures CancelList(m)[..|CancelList(m)|] == CancelList(m)
  {
    forall id ensures id in CancelList(m) <==> ByPosition(m, id) {
      if m.current >= 1 {
        TasksFromAre(m.waves, m.current - 1, id);
      }
    }
    var list := CancelList(m);
    var k := FirstFaulty(list, faulty);
    assert k < |list| ==> list[k] in list;
  }

  lemma {:induction false} TasksFromAre(waves: seq<Wave>, i: nat, id: string)
    ensures id in TasksFrom(waves, i) <==> exists j: nat :: i <= j < |waves| && id in waves[j].tasks
    decreases if i < |waves| then |waves| - i else 0
  {
    if i < |waves| {
      TasksFromAre(waves, i + 1, id);
    }
  }

  ghost predicate Covered(m: Manifest, id: string) {
    exists j: nat :: Cancels(m, j) && id in m.waves[j].tasks
  }

  /** They are the tasks of the waves it covers. */
  lemma CancelClosedIs(m: Manifest, id: string)
    ensures id in CancelClosed(m) <==> Covered(m, id)
  {
    CancelListIs(m, {});
    if ByPosition(m, id) {
      var j: nat :| m.current - 1 <= j < |m.waves| && m.current >= 1 && id in m.waves[j].tasks;
      assert Cancels(m, j);
    }
  }

  ghost predicate AllClosed(m: Manifest, closed: set<string>) {
    forall j: nat, id | j < |m.waves| && id in m.waves[j].tasks :: id in closed
  }

  class Workspace {
    var stored: Stored
    var closed: set<string>

    constructor (stored: Stored, closed: set<string>)
      ensures this.stored == stored && this.closed == closed
    {
      this.stored, this.closed := stored, closed;
    }

    /** The open tasks of one wave; the first unreadable one stops the scan. */
    method OpenTasks(tasks: seq<string>, faulty: set<string>) returns (open: seq<string>, read: nat)
      ensures read == FirstFaulty(tasks, faulty)
      ensures read == |tasks| ==> open == Filter(tasks, IsOpen(closed))
    {
      open, read := [], 0;
      while read < |tasks|
        invariant read <= |tasks| && FirstFaulty(tasks, faulty) == FirstFaulty(tasks, faulty, read)
        invariant open == Filter(tasks[..read], IsOpen(closed))
      {
        assert tasks[..read + 1] == tasks[..read] + [tasks[read]];
        FilterAppend(tasks[..read], [tasks[read]], IsOpen(closed));
        if tasks[read] in faulty { return; }
        if tasks[read] !in closed { open := open + [tasks[read]]; }
        read := read + 1;
      }
      assert tasks[..|tasks|] == tasks;
    }

    /** Advance; faulty are the tasks whose status cannot be read. */
    method Advance(faulty: set<string>) returns (r: Outcome)
      modifies this`stored
      ensures r == if old(stored).NoManifest? then NothingStored
        else AdvanceOutcome(old(stored).manifest, closed, faulty)
      ensures stored == if r.Advanced? then Stored(old(stored).manifest.(current := r.to)) else old(stored)
    {
      if stored.NoManifest? { return NothingStored; }
      var m := stored.manifest;
      var k := 0;
      while k < |m.waves| && m.waves[k].number != m.current
        invariant 0 <= k <= |m.waves| && IndexOf(m.waves, m.current, 0) == IndexOf(m.waves, m.current, k)
      {
        k := k + 1;
      }
      if k == |m.waves| { return AllWavesComplete; }
      var open, read := OpenTasks(m.waves[k].tasks, faulty);
      if read < |m.waves[k].tasks| { return LookupFailed(m.waves[k].tasks[read]); }
      if open != [] { return WaveIncomplete(open); }
      var next := -1;
      for i := 0 to |m.waves|
        invariant next == NextWave(m.waves, m.current, i)
      {
        if m.waves[i].number > m.current && (next < 0 || m.waves[i].number < next) {
          next := m.waves[i].number;
        }
      }
      if next < 0 { return AllWavesComplete; }
      stored := Stored(m.(current := next));
      r := Advanced(next);
    }

    /** Cancel closes its tasks in order up to the first that fails; only when none
        does is the manifest removed. */
    method Cancel(faulty: set<string>) returns (ok: bool)
      modifies this
      ensures old(stored).NoManifest? ==> ok && stored == NoManifest && closed == old(closed)
      ensures old(stored).Stored? ==>
        var list := CancelList(old(stored).manifest); var k := FirstFaulty(list, faulty);
        && ok == (k == |list|) && stored == (if ok then NoManifest else old(stored))
        && closed == old(closed) + Elems(list[..k])
      ensures old(stored).Stored? ==>
        var m := old(stored).manifest;
        && (ok ==> forall id :: id in closed <==> id in old(closed) || ByPosition(m, id))
        && (!ok ==> forall id | id in closed && id !in old(closed) :: ByPosition(m, id))
        && (ok <==> forall id | ByPosition(m, id) :: id !in faulty)
    {
      if stored.NoManifest? { return true; }
      var m := stored.manifest;
      var i := m.current - 1;
      ok := true;
      if i >= 0 {
        var n;
        n, ok := CloseFrom(m.waves, i, faulty);
      }
      if ok {
        stored := NoManifest;
      }
      CancelListIs(m, faulty);
    }

    /** The loop of Cancel, from position start on; the answer counts the closed tasks. */
    method CloseFrom(waves: seq<Wave>, start: nat, faulty: set<string>) returns (n: nat, all: bool)
      modifies this`closed
      ensures Stops(TasksFrom(waves, start), faulty, n) && closed == old(closed) + Elems(TasksFrom(waves, start)[..n])
      ensures all == (n == |TasksFrom(waves, start)|)
    {
      ghost var list, was := TasksFrom(waves, start), closed;
      n, all := 0, true;
      var i := start;
      while i < |waves|
        invariant n <= |list| && list[n..] == TasksFrom(waves, i)
        invariant forall j | 0 <= j < n :: list[j] !in faulty
        invariant closed == was + Elems(list[..n])
        decreases |waves| - i
      {
        var k := CloseWave(waves[i].tasks, faulty);
        ghost var rest := TasksFrom(waves, i + 1);
        assert list[n..] == waves[i].tasks + rest;
        NextPart(list, n, waves[i].tasks, rest, k);
        n := n + k;
        if k < |waves[i].tasks| { return n, false; }
        i := i + 1;
      }
      assert |list[n..]| == 0;
    }

    method CloseWave(tasks: seq<string>, faulty: set<string>) returns (n: nat)
      modifies this`closed
      ensures Stops(tasks, faulty, n) && closed == old(closed) + Elems(tasks[..n])
    {
      n := 0;
      while n < |tasks|
        invariant n <= |tasks| && forall j | 0 <= j < n :: tasks[j] !in faulty
        invariant closed == old(closed) + Elems(tasks[..n])
      {
        assert tasks[..n + 1] == tasks[..n] + [tasks[n]];
        ElemsAppend(tasks[..n], [tasks[n]]);
        if tasks[n] in faulty { return; }
        closed := closed + {tasks[n]};
        n := n + 1;
      }
    }
  }

  /** n is the position of the first faulty task, or the length. */
  ghost predicate Stops(list: seq<string>, faulty: set<string>, n: nat) {
    n <= |list| && (forall j | 0 <= j < n :: list[j] !in faulty) && (n < |list| ==> list[n] in faulty)
  }

  /** The first k tasks of the part at position n, seen in the whole list. */
  lemma NextPart(list: seq<string>, n: nat, part: seq<string>, rest: seq<string>, k: nat)
    requires n <= |list| && list[n..] == part + rest && k <= |part|
    ensures n + |part| <= |list| && Elems(list[..n + k]) == Elems(list[..n]) + Elems(part[..k])
    ensures forall j | 0 <= j < |part| :: list[n + j] == part[j]
    ensures forall j | n <= j < n + |part| :: list[j] == part[j - n]
    ensures list[n + |part|..] == rest
  {
    assert forall j | 0 <= j < |part| :: list[n + j] == list[n..][j];
    assert forall j | n <= j < n + |part| :: list[j] == list[n..][j - n];
    assert list[..n + k] == list[..n] + part[..k];
    ElemsAppend(list[..n], part[..k]);
    assert list[n + |part|..] == list[n..][|part|..];
  }

  // ----- runs: tasks get closed, and the dispatch advances -----

  datatype State = State(m: Manifest, closed: set<string>)

  datatype Step = Close(ids: set<string>) | TryAdvance

  function Apply(s: State, step: Step): State {
    match step
    case Close(ids) => s.(closed := s.closed + ids)
    case TryAdvance =>
      var r := AdvanceOutcome(s.m, s.closed);
      if r.Advanced? then s.(m := s.m.(current := r.to)) else s
  }

  function After(s: State, steps: seq<Step>, n: nat): State
    requires n <= |steps|
  {
    if n == 0 then s else Apply(After(s, steps, n - 1), steps[n - 1])
  }

  /** Distinct wave numbers, and none that the search for the next wave misses. */
  ghost predicate Numbered(m: Manifest) {
    && (forall i, j | 0 <= i < j < |m.waves| :: m.waves[i].number != m.waves[j].number)
    && !HidesFromSentinel(m.waves, m.current)
  }

  ghost predicate StartsAtLeast(m: Manifest) {
    && (exists w | w in m.waves :: w.number == m.current)
    && forall w | w in m.waves :: m.current <= w.number
  }

  /** Every task of every earlier wave is closed. */
  ghost predicate EarlierClosed(s: State) {
    forall w | w in s.m.waves && w.number < s.m.current :: forall id | id in w.tasks :: id in s.closed
  }

  /** One advance moves to the next wave and skips none; the wave it leaves is closed. */
  lemma AdvanceStep(m: Manifest, closed: set<string>)
    requires Numbered(m) && AdvanceOutcome(m, closed).Advanced?
    ensures var to := AdvanceOutcome(m, closed).to;
      && to >= 0 && IsNext(m.waves, m.current, to)
      && (forall w | w in m.waves && w.number == m.current :: forall id | id in w.tasks :: id in closed)
  {
    NextWaveIsRightIff(m.waves, m.current);
    var k := IndexOf(m.waves, m.current, 0);
    forall w, id | w in m.waves && w.number == m.current && id in w.tasks ensures id in closed {
      var j :| 0 <= j < |m.waves| && m.waves[j] == w;
      assert j == k;
      FilterMember(w.tasks, IsOpen(closed), id);
    }
  }

  /** Position i has the first faulty task. */
  ghost predicate IsFirst(tasks: seq<string>, faulty: set<string>, i: nat)
    requires i < |tasks|
  {
    tasks[i] in faulty && forall j | 0 <= j < i :: tasks[j] !in faulty
  }

  /** Every answer of Advance, on the manifest. With distinct wave numbers, and the wave
      at position k the current one:
      it advances exactly when its tasks can all be read and are closed and a later
      number exists, and then to the least of these;
      it is complete exactly when its tasks are so and no later number exists;
      it is incomplete exactly when all can be read and some is open, and names those;
      and the lookup fails exactly when some task cannot be read, and names the first. */
  lemma AdvanceAnswers(m: Manifest, closed: set<string>, faulty: set<string>, k: nat)
    requires Numbered(m) && k < |m.waves| && m.waves[k].number == m.current
    ensures var r := AdvanceOutcome(m, closed, faulty); var tasks := m.waves[k].tasks;
      var readable := forall id | id in tasks :: id !in faulty;
      var done := forall id | id in tasks :: id in closed;
      var later := exists w | w in m.waves :: w.number > m.current;
      && (r.Advanced? <==> readable && done && later)
      && (r.Advanced? ==> r.to > m.current && (exists w | w in m.waves :: w.number == r.to)
                          && forall w | w in m.waves && w.number > m.current :: r.to <= w.number)
      && (r.AllWavesComplete? <==> readable && done && !later)
      && (r.WaveIncomplete? <==> readable && !done)
      && (r.WaveIncomplete? ==> forall id :: id in r.open <==> id in tasks && id !in closed)
      && (r.LookupFailed? <==> !readable)
      && (r.LookupFailed? ==> exists i | 0 <= i < |tasks| :: IsFirst(tasks, faulty, i) && r.id == tasks[i])
  {
    var tasks := m.waves[k].tasks;
    assert IndexOf(m.waves, m.current, 0) == k;
    NextWaveIsRightIff(m.waves, m.current);
    assert forall w | w in m.waves && w.number > m.current :: w.number >= 0;
    OpenOnes(tasks, closed);
    var bad := FirstFaulty(tasks, faulty);
    assert bad < |tasks| ==> tasks[bad] in tasks && IsFirst(tasks, faulty, bad);
  }

  lemma OpenOnes(tasks: seq<string>, closed: set<string>)
    ensures forall id :: id in Filter(tasks, IsOpen(closed)) <==> id in tasks && id !in closed
    ensures Filter(tasks, IsOpen(closed)) == [] <==> forall id | id in tasks :: id in closed
  {
    var open := Filter(tasks, IsOpen(closed));
    forall id ensures id in open <==> id in tasks && id !in closed {
      FilterMember(tasks, IsOpen(closed), id);
    }
    assert open != [] ==> open[0] in open;
  }

  /** Without a wave of the current number the dispatch is complete. */
  lemma NoCurrentWave(m: Manifest, closed: set<string>, faulty: set<string>)
    requires forall w | w in m.waves :: w.number != m.current
    ensures AdvanceOutcome(m, closed, faulty) == AllWavesComplete
  {
    assert forall j | 0 <= j < |m.waves| :: m.waves[j] in m.waves;
  }

  lemma StepKeepsEarlierClosed(s: State, step: Step)
    requires Numbered(s.m) && EarlierClosed(s)
    ensures EarlierClosed(Apply(s, step)) && Numbered(Apply(s, step).m) && Apply(s, step).m.waves == s.m.waves
    ensures Apply(s, step).m.current >= s.m.current
  {
    if step.TryAdvance? && AdvanceOutcome(s.m, s.closed).Advanced? {
      AdvanceStep(s.m, s.closed);
    }
  }

  /** Wave safety: whatever is closed whenever, the waves before the current one
      are closed, and the current wave never falls. */
  lemma {:induction false} WaveSafety(s: State, steps: seq<Step>, n: nat)
    requires n <= |steps| && Numbered(s.m) && EarlierClosed(s)
    ensures EarlierClosed(After(s, steps, n)) && Numbered(After(s, steps, n).m)
      && After(s, steps, n).m.waves == s.m.waves
    ensures After(s, steps, n).m.current >= s.m.current
  {
    if n > 0 {
      WaveSafety(s, steps, n - 1);
      StepKeepsEarlierClosed(After(s, steps, n - 1), steps[n - 1]);
    }
  }

  /** How many of the first n steps advanced the dispatch. */
  function Successes(s: State, steps: seq<Step>, n: nat): nat
    requires n <= |steps|
  {
    if n == 0 then 0
    else Successes(s, steps, n - 1) + if After(s, steps, n).m.current != After(s, steps, n - 1).m.current then 1 else 0
  }

  /** The waves numbered above c. */
  ghost function Ahead(waves: seq<Wave>, c: int): set<int> {
    set w | w in waves && w.number > c :: w.number
  }

  lemma NextLeavesTheRest(waves: seq<Wave>, current: int, to: int)
    requires to >= 0 && IsNext(waves, current, to)
    ensures Ahead(waves, current) == Ahead(waves, to) + {to} && to !in Ahead(waves, to)
    ensures |Ahead(waves, current)| == |Ahead(waves, to)| + 1
  {
    var w :| w in waves && w.number == to;
    assert to in Ahead(waves, current);
  }

  /** One step passes one wave number or none. */
  lemma StepPassesOne(s: State, step: Step)
    requires Numbered(s.m)
    ensures var c := Apply(s, step).m.current;
      |Ahead(s.m.waves, s.m.current)| == |Ahead(s.m.waves, c)| + if c != s.m.current then 1 else 0
  {
    if step.TryAdvance? && AdvanceOutcome(s.m, s.closed).Advanced? {
      AdvanceStep(s.m, s.closed);
      NextLeavesTheRest(s.m.waves, s.m.current, AdvanceOutcome(s.m, s.closed).to);
    }
  }

  /** Each success passes exactly one wave number: none is skipped or repeated. */
  lemma {:induction false} SuccessesPassWaves(s: State, steps: seq<Step>, n: nat)
    requires n <= |steps| && Numbered(s.m) && EarlierClosed(s)
    ensures Successes(s, steps, n) + |Ahead(s.m.waves, After(s, steps, n).m.current)| == |Ahead(s.m.waves, s.m.current)|
  {
    if n > 0 {
      SuccessesPassWaves(s, steps, n - 1);
      WaveSafety(s, steps, n - 1);
      StepPassesOne(After(s, steps, n - 1), steps[n - 1]);
    }
  }

  lemma {:induction false} NumbersBounded(waves: seq<Wave>)
    ensures |set w | w in waves :: w.number| <= |waves|
  {
    if waves != [] {
      NumbersBounded(waves[1..]);
      assert (set w | w in waves :: w.number) == (set w | w in waves[1..] :: w.number) + {waves[0].number};
    }
  }

  lemma SubsetSize(a: set<int>, b: set<int>)
    requires a <= b
    ensures |a| <= |b|
  {
    assert b == a + (b - a);
  }

  /** From the least wave, a run succeeds at most (number of waves - 1) times. */
  lemma SuccessesAreFew(s: State, steps: seq<Step>)
    requires Numbered(s.m) && StartsAtLeast(s.m)
    ensures Successes(s, steps, |steps|) <= |s.m.waves| - 1
  {
    SuccessesPassWaves(s, steps, |steps|);
    var numbers := set w | w in s.m.waves :: w.number;
    NumbersBounded(s.m.waves);
    assert s.m.current in numbers;
    SubsetSize(Ahead(s.m.waves, s.m.current) + {s.m.current}, numbers);
  }

  // ----- a run with nothing left to do -----

  /** The state after n advances and nothing else. */
  function Advances(s: State, n: nat): State {
    if n == 0 then s else Apply(Advances(s, n - 1), TryAdvance)
  }

  lemma {:induction false} DistinctNumbers(waves: seq<Wave>)
    requires forall i, j | 0 <= i < j < |waves| :: waves[i].number != waves[j].number
    ensures |set w | w in waves :: w.number| == |waves|
  {
    if waves != [] {
      DistinctNumbers(waves[1..]);
      var rest := set w | w in waves[1..] :: w.number;
      assert waves[0].number !in rest;
      assert (set w | w in waves :: w.number) == rest + {waves[0].number};
    }
  }

  lemma AllAhead(m: Manifest)
    requires Numbered(m) && StartsAtLeast(m)
    ensures |Ahead(m.waves, m.current)| == |m.waves| - 1
  {
    DistinctNumbers(m.waves);
    assert (set w | w in m.waves :: w.number) == Ahead(m.waves, m.current) + {m.current};
  }

  ghost predicate HasCurrent(m: Manifest) {
    exists w | w in m.waves :: w.number == m.current
  }

  /** A dispatch at one of its waves, with every task closed. */
  ghost predicate Finished(s: State) {
    Numbered(s.m) && HasCurrent(s.m) && AllClosed(s.m, s.closed)
  }

  /** With every task closed, an advance moves on whenever a later wave exists. */
  lemma ClosedAdvances(s: State)
    requires Finished(s) && Ahead(s.m.waves, s.m.current) != {}
    ensures var z := Apply(s, TryAdvance);
      Finished(z) && z.m.waves == s.m.waves && z.m.current > s.m.current
  {
    var w :| w in s.m.waves && w.number == s.m.current;
    var k :| 0 <= k < |s.m.waves| && s.m.waves[k] == w;
    var c :| c in Ahead(s.m.waves, s.m.current);
    AdvanceAnswers(s.m, s.closed, {}, k);
  }

  lemma {:induction false} ClosedRun(s: State, n: nat)
    requires Finished(s) && n <= |Ahead(s.m.waves, s.m.current)|
    ensures var z := Advances(s, n);
      && Finished(z) && z.m.waves == s.m.waves
      && |Ahead(s.m.waves, z.m.current)| == |Ahead(s.m.waves, s.m.current)| - n
  {
    if n > 0 {
      ClosedRun(s, n - 1);
      ClosedAdvances(Advances(s, n - 1));
      StepPassesOne(Advances(s, n - 1), TryAdvance);
    }
  }

  /** With every task closed, exactly |waves| - 1 advances lead from the least wave to
      the greatest, each of them to the next. */
  lemma ClosedRunReachesTheEnd(s: State, n: nat)
    requires Numbered(s.m) && StartsAtLeast(s.m) && AllClosed(s.m, s.closed) && n < |s.m.waves|
    ensures var c := Advances(s, n).m.current;
      && (exists w | w in s.m.waves :: w.number == c)
      && |Ahead(s.m.waves, c)| == |s.m.waves| - 1 - n
      && ((forall w | w in s.m.waves :: w.number <= c) <==> n == |s.m.waves| - 1)
  {
    AllAhead(s.m);
    ClosedRun(s, n);
    Greatest(s.m.waves, Advances(s, n).m.current);
  }

  lemma Greatest(waves: seq<Wave>, c: int)
    ensures (forall w | w in waves :: w.number <= c) <==> |Ahead(waves, c)| == 0
  {
    if w :| w in waves && w.number > c {
      assert w.number in Ahead(waves, c);
    }
  }

  // ----- Cancel after a run -----

  /** Waves numbered 1..n in order. */
  ghost predicate InOrder(waves: seq<Wave>) {
    forall j | 0 <= j < |waves| :: waves[j].number == j + 1
  }

  /** With waves 1..n in order, a Cancel after any run leaves every task closed. */
  lemma CancelAfterAnyRun(s: State, steps: seq<Step>)
    requires InOrder(s.m.waves) && s.m.current == 1
    ensures var end := After(s, steps, |steps|); AllClosed(s.m, end.closed + CancelClosed(end.m))
  {
    assert EarlierClosed(s);
    WaveSafety(s, steps, |steps|);
    var end := After(s, steps, |steps|);
    forall j: nat, id | j < |s.m.waves| && id in s.m.waves[j].tasks ensures id in end.closed + CancelClosed(end.m) {
      if Cancels(end.m, j) {
        CancelClosedIs(end.m, id);
      } else {
        assert end.m.waves[j] in end.m.waves;
      }
    }
  }

  /** In general, with the earlier waves closed: Cancel leaves every task closed if and
      only if each task of a wave that it passes over, and that is not an earlier
      wave, is closed already or is in a wave that it covers. */
  lemma CancelClosesAllIff(s: State)
    requires EarlierClosed(s)
    ensures AllClosed(s.m, s.closed + CancelClosed(s.m)) <==>
      forall j: nat, id | PassedOver(s.m, j) && id in s.m.waves[j].tasks :: id in s.closed || Covered(s.m, id)
  {
    if AllClosed(s.m, s.closed + CancelClosed(s.m)) {
      forall j: nat, id | PassedOver(s.m, j) && id in s.m.waves[j].tasks ensures id in s.closed || Covered(s.m, id) {
        assert id in s.closed + CancelClosed(s.m);
        CancelClosedIs(s.m, id);
      }
    }
    if forall j: nat, id | PassedOver(s.m, j) && id in s.m.waves[j].tasks :: id in s.closed || Covered(s.m, id) {
      forall j: nat, id | j < |s.m.waves| && id in s.m.waves[j].tasks ensures id in s.closed + CancelClosed(s.m) {
        assert s.m.waves[j] in s.m.waves;
        CancelClosedIs(s.m, id);
      }
    }
  }

  /** A wave that Cancel does not cover and that Advance has not left behind. */
  predicate PassedOver(m: Manifest, j: nat) {
    j < |m.waves| && !Cancels(m, j) && m.waves[j].number >= m.current
  }

  /** A negative wave after the current one is passed over. */
  lemma SentinelSkipsAWave() returns (s: State)
    ensures StartsAtLeast(s.m) && EarlierClosed(s) && !EarlierClosed(Apply(s, TryAdvance))
  {
    var waves := [Wave(-2, []), Wave(-1, ["t"]), Wave(3, [])];
    s := State(Manifest(-2, waves), {});
    assert waves[0] in waves && waves[1] in waves && waves[1].tasks[0] == "t";
    assert NextWave(waves, -2, 0) == NextWave(waves, -2, 1) == -1;
    assert NextWave(waves, -2, 2) == -1 && NextWave(waves, -2, 3) == 3;
    var now := Apply(s, TryAdvance);
    assert now == State(Manifest(3, waves), {});
    assert now.m.waves[1] in now.m.waves && "t" in now.m.waves[1].tasks && "t" !in now.closed;
  }

  /** Waves numbered from 0: Cancel at the start closes nothing. */
  lemma CancelMissesWaveZero() returns (m: Manifest)
    ensures Numbered(m) && StartsAtLeast(m) && !AllClosed(m, CancelClosed(m))
  {
    m := Manifest(0, [Wave(0, ["t"]), Wave(1, ["u"])]);
    assert m.waves[0] in m.waves && m.waves[0].tasks[0] == "t";
    assert CancelList(m) == [] && "t" !in CancelClosed(m) && "t" in m.waves[0].tasks;
  }
}
