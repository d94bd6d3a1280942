/** Subscription slots (internal/coord/subscribe.go): an atomic counter raised on
    entry, lowered by a rejected entry and by each close closure. */
module SubscriberSlots {
  /** One Subscribe call. A rejected one still owes its decrement. A live one has a
      relay, and a close closure that has or has not been entered. */
  datatype Call =
    | Rejecting
    | Rejected
    | Live(srcClosed: bool, closing: bool, relayDone: bool)
    | Freed

  datatype State = State(counter: int, calls: map<nat, Call>)

  datatype Step =
    | Enter(id: nat)
    | GiveBack(id: nat)
    | CancelCtx(id: nat)
    | SourceEnds(id: nat)
    | CallCloser(id: nat)
    | RelayExits(id: nat)
    | FreeSlot(id: nat)

  function With(s: State, id: nat, delta: int, call: Call): State {
    State(s.counter + delta, s.calls[id := call])
  }

  /** One atomic step; a step that does not apply changes nothing. */
  function Next(cap: int, s: State, step: Step): State {
    var i := step.id;
    if step.Enter? then
      if i in s.calls then s
      else if s.counter + 1 > cap then With(s, i, 1, Rejecting)
      else With(s, i, 1, Live(false, false, false))
    else if i !in s.calls then s
    else
      var c := s.calls[i];
      match step
      case GiveBack(_) => if c.Rejecting? then With(s, i, -1, Rejected) else s
      // a cancelled context closes the relay's source, which may also close by itself
      case CancelCtx(_) => if c.Live? then With(s, i, 0, c.(srcClosed := true)) else s
      case SourceEnds(_) => if c.Live? then With(s, i, 0, c.(srcClosed := true)) else s
      // sync.Once: only the first call to the closer gets past here
      case CallCloser(_) => if c.Live? && !c.closing then With(s, i, 0, c.(srcClosed := true, closing := true)) else s
      case RelayExits(_) => if c.Live? && c.srcClosed && !c.relayDone then With(s, i, 0, c.(relayDone := true)) else s
      case FreeSlot(_) => if c.Live? && c.closing && c.relayDone then With(s, i, -1, Freed) else s
  }

  /** The state after the first n steps, from no calls at all. */
  function After(cap: int, steps: seq<Step>, n: nat): State
    requires n <= |steps|
  {
    if n == 0 then State(0, map[]) else Next(cap, After(cap, steps, n - 1), steps[n - 1])
  }

  /** Admitted and not yet freed. */
  ghost function Admitted(s: State): set<nat> {
    set i | i in s.calls && s.calls[i].Live?
  }

  /** Rejected with the decrement still to come. */
  ghost function InFlight(s: State): set<nat> {
    set i | i in s.calls && s.calls[i].Rejecting?
  }

  ghost predicate Inv(cap: int, s: State) {
    && s.counter == |Admitted(s)| + |InFlight(s)|
    && (Admitted(s) != {} ==> |Admitted(s)| <= cap)
  }

  lemma WithSets(s: State, i: nat, delta: int, c: Call)
    ensures Admitted(With(s, i, delta, c)) == if c.Live? then Admitted(s) + {i} else Admitted(s) - {i}
    ensures InFlight(With(s, i, delta, c)) == if c.Rejecting? then InFlight(s) + {i} else InFlight(s) - {i}
  {
  }

  lemma StepKeepsInv(cap: int, s: State, step: Step)
    requires Inv(cap, s)
    ensures Inv(cap, Next(cap, s, step))
  {
    var s' := Next(cap, s, step);
    if s' != s {
      WithSets(s, step.id, s'.counter - s.counter, s'.calls[step.id]);
      assert s' == With(s, step.id, s'.counter - s.counter, s'.calls[step.id]);
    }
  }

  /** In every run the counter is the admitted plus the in-flight rejected calls,
      and the admitted never exceed the cap. */
  lemma {:induction false} CounterIsExact(cap: int, steps: seq<Step>, n: nat)
    requires n <= |steps|
    ensures Inv(cap, After(cap, steps, n))
  {
    if n > 0 {
      CounterIsExact(cap, steps, n - 1);
      StepKeepsInv(cap, After(cap, steps, n - 1), steps[n - 1]);
    }
  }

  /** When an entry is refused. */
  lemma RefusedIff(cap: int, steps: seq<Step>, n: nat, i: nat)
    requires n <= |steps| && i !in After(cap, steps, n).calls
    ensures var s := After(cap, steps, n);
      Next(cap, s, Enter(i)).calls[i].Rejecting? <==> |Admitted(s)| + |InFlight(s)| >= cap
  {
    CounterIsExact(cap, steps, n);
  }

  /** So an entry can be refused with no subscription live: a refused call that has
      not yet given back still counts. */
  lemma RefusedBelowTheCap() returns (steps: seq<Step>)
    ensures Admitted(After(1, steps, |steps|)) == {}
    ensures 2 !in After(1, steps, |steps|).calls && Next(1, After(1, steps, |steps|), Enter(2)).calls[2].Rejecting?
  {
    steps := [Enter(0), Enter(1), CallCloser(0), RelayExits(0), FreeSlot(0)];
    var s1 := After(1, steps, 1);
    assert s1 == State(1, map[0 := Live(false, false, false)]) by { assert After(1, steps, 0) == State(0, map[]); }
    var s2 := After(1, steps, 2);
    assert s2 == State(2, map[0 := Live(false, false, false), 1 := Rejecting]);
    var s3 := After(1, steps, 3);
    assert s3 == State(2, map[0 := Live(true, true, false), 1 := Rejecting]);
    var s4 := After(1, steps, 4);
    assert s4 == State(2, map[0 := Live(true, true, true), 1 := Rejecting]);
    assert After(1, steps, 5) == State(1, map[0 := Freed, 1 := Rejecting]);
  }

  // ----- each slot and each channel is given up once -----

  /** How often, among the first n steps, a step of this kind took effect. */
  function Effects(cap: int, steps: seq<Step>, n: nat, step: Step): nat
    requires n <= |steps|
  {
    if n == 0 then 0
    else
      var was := After(cap, steps, n - 1);
      Effects(cap, steps, n - 1, step) + if steps[n - 1] == step && Next(cap, was, step) != was then 1 else 0
  }

  /** The calls whose slot, decrement or relay has been given up. */
  ghost predicate Spent(s: State, step: Step) {
    step.id in s.calls &&
    match step
    case FreeSlot(i) => s.calls[i].Freed?
    case GiveBack(i) => s.calls[i].Rejected?
    case RelayExits(i) => s.calls[i].Freed? || (s.calls[i].Live? && s.calls[i].relayDone)
    case CallCloser(i) => s.calls[i].Freed? || (s.calls[i].Live? && s.calls[i].closing)
    case _ => false
  }

  lemma StaysSpent(cap: int, s: State, step: Step, once: Step)
    requires once.FreeSlot? || once.GiveBack? || once.RelayExits? || once.CallCloser?
    ensures Spent(s, once) ==> Spent(Next(cap, s, step), once) && Next(cap, s, once) == s
    ensures Next(cap, s, once) != s ==> Spent(Next(cap, s, once), once)
  {
  }

  /** Each slot is freed at most once, each rejected call gives back at most once,
      each relay closes its channel at most once, however often the closer runs. */
  lemma {:induction false} AtMostOnce(cap: int, steps: seq<Step>, n: nat, once: Step)
    requires n <= |steps| && (once.FreeSlot? || once.GiveBack? || once.RelayExits? || once.CallCloser?)
    ensures Effects(cap, steps, n, once) <= 1
    ensures Effects(cap, steps, n, once) == 1 ==> Spent(After(cap, steps, n), once)
  {
    if n > 0 {
      AtMostOnce(cap, steps, n - 1, once);
      StaysSpent(cap, After(cap, steps, n - 1), steps[n - 1], once);
    }
  }

  /** A slot is held until its closer is called: a cancelled context or a source that
      closes by itself ends the relay and frees nothing. */
  lemma {:induction false} HeldUntilClosed(cap: int, steps: seq<Step>, n: nat, k: nat, i: nat)
    requires k <= n <= |steps| && i in Admitted(After(cap, steps, k)) && !After(cap, steps, k).calls[i].closing
    requires forall j | k <= j < n :: steps[j] != CallCloser(i)
    ensures i in Admitted(After(cap, steps, n)) && !After(cap, steps, n).calls[i].closing
  {
    if n > k {
      HeldUntilClosed(cap, steps, n - 1, k, i);
    }
  }

  /** What a call's phase says about the steps that took effect on it. */
  ghost predicate PhaseTells(cap: int, steps: seq<Step>, n: nat, i: nat)
    requires n <= |steps|
  {
    var s := After(cap, steps, n);
    var exits, closes := Effects(cap, steps, n, RelayExits(i)), Effects(cap, steps, n, CallCloser(i));
    if i !in s.calls then exits == closes == 0
    else match s.calls[i]
      case Live(_, closing, relayDone) =>
        exits == (if relayDone then 1 else 0) && closes == (if closing then 1 else 0)
      case Freed => exits == closes == 1
      case _ => exits == closes == 0
  }

  lemma {:induction false} PhasesTell(cap: int, steps: seq<Step>, n: nat, i: nat)
    requires n <= |steps|
    ensures PhaseTells(cap, steps, n, i)
  {
    if n > 0 {
      PhasesTell(cap, steps, n - 1, i);
    }
  }

  /** A slot is freed only after its closer was called and its relay has closed the
      event channel, each exactly once. */
  lemma FreedAfterTheRelay(cap: int, steps: seq<Step>, n: nat, i: nat)
    requires n <= |steps| && i in After(cap, steps, n).calls && After(cap, steps, n).calls[i].Freed?
    ensures Effects(cap, steps, n, RelayExits(i)) == 1 && Effects(cap, steps, n, CallCloser(i)) == 1
  {
    PhasesTell(cap, steps, n, i);
  }
}
