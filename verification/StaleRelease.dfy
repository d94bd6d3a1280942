/** A release closure may give back a claim it was not returned for: the run
    below is reachable from an empty world. ReleaseClosure.UnclaimHitsAnotherClaim
    says exactly when this happens. */
module StaleRelease {
  import opened Tasks
  import opened Protocol
  import A = Acquisition
  import S = SoloRun

  function Draft(files: seq<Path>): Task { NewTask("t", files, "", [], 0, None) }

  /** Starting operation o and letting it run alone. */
  function Alone(o: OpId, c: CoordId, route: Route, n: nat): seq<Step> {
    [Start(o, c, "t", route)] + seq(n, i => Advance(o, true, false))
  }

  /** The hold table a takeover of "t" starts from. */
  function BaseOf(w: World, route: Route): map<Path, Agent>
    requires "t" in w.tasks
  {
    A.Base(w.holds, route, w.tasks["t"].claimedBy, w.tasks["t"].files)
  }

  /** With no file blocked, an operation whose check passes runs to a live claim one
      epoch later, holds the files and disturbs no other operation. */
  lemma Takes(w: World, o: OpId, c: CoordId, route: Route) returns (n: nat)
    requires o !in w.ops && c in w.agents && w.agents[c] != NoAgent && "t" in w.tasks
    requires PreCheck(route, w.tasks["t"], w.agents[c], false) == None
    requires forall f | f in w.tasks["t"].files :: !HeldByOther(BaseOf(w, route), f, w.agents[c])
    ensures var z := Run(w, Alone(o, c, route, n)); var rec := w.tasks["t"];
      && z.agents == w.agents
      && z.tasks == w.tasks["t" := rec.(status := Claimed, claimedBy := w.agents[c], claimEpoch := rec.claimEpoch + 1)]
      && z.holds == A.WithHolds(BaseOf(w, route), w.agents[c], rec.files)
      && o in z.ops && z.ops[o].phase == Live(rec.files) && z.ops[o].coord == c && z.ops[o].task == "t"
      && (forall p | p in w.ops :: p in z.ops && z.ops[p] == w.ops[p])
      && (forall p | p in z.ops :: p in w.ops || p == o)
  {
    var w1 := StartStep(w, o, c, "t", route);
    n := StartedTakes(w1, o);
    var steps := seq(n, i => Advance(o, true, false));
    assert Alone(o, c, route, n)[1..] == steps;
    assert Run(w, Alone(o, c, route, n)) == Run(w1, steps);
    SparesOthers(w1, o, n);
  }

  /** The same once it has started. */
  lemma StartedTakes(w: World, o: OpId) returns (n: nat)
    requires o in w.ops && w.ops[o].phase.Reading? && w.ops[o].task == "t" && "t" in w.tasks
    requires w.ops[o].coord in w.agents && w.agents[w.ops[o].coord] != NoAgent
    requires PreCheck(w.ops[o].route, w.tasks["t"], w.agents[w.ops[o].coord], false) == None
    requires forall f | f in w.tasks["t"].files :: !HeldByOther(BaseOf(w, w.ops[o].route), f, w.agents[w.ops[o].coord])
    ensures var z := Run(w, seq(n, i => Advance(o, true, false))); var rec := w.tasks["t"]; var op := w.ops[o];
      var agent := w.agents[op.coord];
      && z.agents == w.agents
      && z.tasks == w.tasks["t" := rec.(status := Claimed, claimedBy := agent, claimEpoch := rec.claimEpoch + 1)]
      && z.holds == A.WithHolds(BaseOf(w, op.route), agent, rec.files)
      && o in z.ops && z.ops[o].phase == Live(rec.files) && z.ops[o].coord == op.coord && z.ops[o].task == "t"
  {
    var op := w.ops[o];
    UnblockedAcquire(S.ViewOf(w, op.coord), w.agents[op.coord], op.route);
    n := S.SoloAcquire(w, o, false);
  }

  /** What Acquire computes when no file is blocked. */
  lemma UnblockedAcquire(v: A.View, agent: Agent, route: Route)
    requires A.Acquirable(v, agent, "t", route, false)
    requires var base := A.Base(v.holds, route, v.tasks["t"].claimedBy, v.tasks["t"].files);
      forall f | f in v.tasks["t"].files :: !HeldByOther(base, f, agent)
    ensures var (r, v') := A.Acquire(v, agent, "t", route, false); var rec := v.tasks["t"];
      && r == Ok(rec.files)
      && v'.tasks == v.tasks["t" := rec.(status := Claimed, claimedBy := agent, claimEpoch := rec.claimEpoch + 1)]
      && v'.holds == A.WithHolds(A.Base(v.holds, route, rec.claimedBy, rec.files), agent, rec.files)
  {
    A.HoldsAfter(v, agent, "t", route, false);
    A.SuccessHoldsAll(v, agent, "t", route, false, []);
  }

  lemma SparesOthers(w: World, o: OpId, n: nat)
    requires o in w.ops
    ensures var z := Run(w, seq(n, i => Advance(o, true, false)));
      (forall p | p in w.ops && p != o :: p in z.ops && z.ops[p] == w.ops[p]) && forall p | p in z.ops :: p in w.ops
  {
    var steps := seq(n, i => Advance(o, true, false));
    forall p | p in w.ops && p != o ensures p in Run(w, steps).ops && Run(w, steps).ops[p] == w.ops[p] {
      S.SoloSparesOthers(w, o, false, n, p);
    }
    NoNewOps(w, o, n);
  }

  lemma {:induction false} NoNewOps(w: World, o: OpId, n: nat)
    requires o in w.ops
    ensures Run(w, seq(n, i => Advance(o, true, false))).ops.Keys == w.ops.Keys
    decreases n
  {
    if n != 0 {
      var steps := seq(n, i => Advance(o, true, false));
      assert steps[1..] == seq(n - 1, i => Advance(o, true, false));
      NoNewOps(Next(w, Advance(o, true, false)), o, n - 1);
    }
  }

  /** The record of "t" with its claim fields replaced. */
  function Taken(files: seq<Path>, agent: Agent, e: nat): Task {
    Draft(files).(status := Claimed, claimedBy := agent, claimEpoch := e)
  }

  lemma OneStep(w: World, s: Step)
    ensures Run(w, [s]) == Next(w, s)
  {
    assert [s][1..] == [];
  }

  lemma TwoSteps(w: World, s: Step, s': Step)
    ensures Run(w, [s, s']) == Next(Next(w, s), s')
  {
    assert [s] + [s'] == [s, s'];
    RunAppend(w, [s], [s']);
    OneStep(w, s);
    OneStep(Next(w, s), s');
  }

  /** Operation 0's closure un-claims. */
  lemma Unclaims(w: World, held: seq<Path>)
    requires 0 in w.agents && w.agents[0] == "a"
    requires 0 in w.ops && w.ops[0].phase == Live(held) && w.ops[0].coord == 0 && w.ops[0].task == "t"
    requires "t" in w.tasks && w.tasks["t"].status == Claimed && w.tasks["t"].claimedBy == "a"
    ensures var z := Run(w, [Release(0), Advance(0, true, false)]);
      && z.agents == w.agents && z.holds == w.holds && z.ops == w.ops[0 := w.ops[0].(phase := Freeing(held, 0))]
      && z.tasks == w.tasks["t" := w.tasks["t"].(status := Open, claimedBy := NoAgent)]
  {
    TwoSteps(w, Release(0), Advance(0, true, false));
  }

  /** And then releases its first file. */
  lemma Frees(w: World, held: seq<Path>)
    requires 0 in w.agents && w.agents[0] == "a" && held != []
    requires 0 in w.ops && w.ops[0].phase == Freeing(held, 0) && w.ops[0].coord == 0
    requires held[0] in w.holds && w.holds[held[0]] == "a"
    ensures var z := Next(w, Advance(0, true, false));
      && z.tasks == w.tasks && z.holds == w.holds - {held[0]}
      && z.ops == w.ops[0 := w.ops[0].(phase := Freeing(held, 1))]
  {
  }

  /** Agent "a" claims (operation 0) and agent "b" takes over (operation 1). */
  lemma TwoTakes(w: World) returns (steps: seq<Step>)
    requires Init(w) && w.agents == map[0 := "a", 1 := "b"]
    ensures var z := Run(w, steps);
      && z.agents == w.agents && z.tasks == map["t" := Taken(["f"], "b", 2)] && z.holds == map["f" := "b"]
      && 0 in z.ops && z.ops[0].phase == Live(["f"]) && z.ops[0].coord == 0 && z.ops[0].task == "t"
      && 2 !in z.ops
  {
    var s0 := [OpenTask(Draft(["f"]))];
    var w0 := OpenStep(w, Draft(["f"]));
    OneStep(w, s0[0]);
    var n0 := Takes(w0, 0, 0, ByClaim);
    var s1 := Alone(0, 0, ByClaim, n0);
    var w1 := Run(w0, s1);
    OneHold("a", "b");
    assert w1.holds == map["f" := "a"];
    var n1 := Takes(w1, 1, 1, ByHandoff("a"));
    var s2 := Alone(1, 1, ByHandoff("a"), n1);
    RunAppend(w, s0, s1);
    RunAppend(w, s0 + s1, s2);
    steps := s0 + s1 + s2;
  }

  /** The hold table of one file, from agent to agent. */
  lemma OneHold(a: Agent, b: Agent)
    ensures A.WithHolds(map[], a, ["f"]) == map["f" := a]
    ensures A.WithoutHoldsOf(map["f" := a], a, ["f"]) == map[]
    ensures A.WithHolds(map[], b, ["f"]) == map["f" := b]
  {
    assert ["f"][0] == "f";
  }

  /** Agent "a" claims (operation 0), hands the task to "b" (operation 1) and
      takes it back (operation 2). Calling the closure of operation 0 then opens
      the task and drops its file under operation 2, whose claim is live and whose
      closure was never called. */
  lemma GivesBackALaterClaim(w: World) returns (steps: seq<Step>)
    requires Init(w) && w.agents == map[0 := "a", 1 := "b"]
    ensures var z := Run(w, steps);
      && 0 in z.ops && z.ops[0].phase == Live(["f"])
      && 2 in z.ops && z.ops[2].phase == Live(["f"])
      && z.tasks == map["t" := Taken(["f"], "a", 3)] && z.holds == map["f" := "a"]
    ensures var z := Run(w, steps + [Release(0), Advance(0, true, false)] + [Advance(0, true, false)]);
      && 2 in z.ops && z.ops[2].phase == Live(["f"])
      && "t" in z.tasks && z.tasks["t"].status == Open && "f" !in z.holds
  {
    steps := ThreeTakes(w);
    var unclaim, free := [Release(0), Advance(0, true, false)], [Advance(0, true, false)];
    RunAppend(w, steps, unclaim);
    RunAppend(w, steps + unclaim, free);
    Unclaims(Run(w, steps), ["f"]);
    OneStep(Run(w, steps + unclaim), free[0]);
    Frees(Run(w, steps + unclaim), ["f"]);
  }

  lemma ThreeTakes(w: World) returns (steps: seq<Step>)
    requires Init(w) && w.agents == map[0 := "a", 1 := "b"]
    ensures var z := Run(w, steps);
      && z.agents == w.agents && z.tasks == map["t" := Taken(["f"], "a", 3)] && z.holds == map["f" := "a"]
      && 0 in z.ops && z.ops[0].phase == Live(["f"]) && z.ops[0].coord == 0 && z.ops[0].task == "t"
      && 2 in z.ops && z.ops[2].phase == Live(["f"])
  {
    var s0 := TwoTakes(w);
    OneHold("b", "a");
    var n := Takes(Run(w, s0), 2, 0, ByHandoff("b"));
    var s1 := Alone(2, 0, ByHandoff("b"), n);
    RunAppend(w, s0, s1);
    steps := s0 + s1;
  }
}
