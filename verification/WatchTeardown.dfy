/** Teardown of a chat watch (watchSubject in internal/chat/chat.go): any number
    of consumer callbacks race one goroutine that closes the output channel. */
module WatchTeardown {
  datatype Holder = Free | Callback(id: nat) | Closer

  datatype CallbackAt = Waiting | Locked | Selecting | Leaving | Returned

  datatype CloserAt = AwaitCancel | AwaitLock | Entered | Flagged | ClosedOut | Exited

  /** The channel counts its closes; `panicked` records a send on, or a second
      close of, a closed channel. */
  datatype State = State(
    cancelled: bool,
    holder: Holder,
    closedFlag: bool,
    closes: nat,
    sends: nat,
    panicked: bool,
    closer: CloserAt,
    callbacks: map<nat, CallbackAt>)

  datatype Step =
    | Cancel
    | Arrive(id: nat)
    | Lock(id: nat)
    | CheckFlag(id: nat)
    | Send(id: nat)
    | GiveUp(id: nat)
    | Unlock(id: nat)
    | Close

  const Start := State(false, Free, false, 0, 0, false, AwaitCancel, map[])

  function To(s: State, i: nat, at: CallbackAt): State {
    s.(callbacks := s.callbacks[i := at])
  }

  predicate IsAt(s: State, i: nat, at: CallbackAt) {
    i in s.callbacks && s.callbacks[i] == at
  }

  /** One step; a step that is not enabled changes nothing. */
  function Next(s: State, step: Step): State {
    match step
    case Cancel => s.(cancelled := true)
    case Arrive(i) => if i in s.callbacks then s else To(s, i, Waiting)
    case Lock(i) => if IsAt(s, i, Waiting) && s.holder == Free then To(s, i, Locked).(holder := Callback(i)) else s
    case CheckFlag(i) => if !IsAt(s, i, Locked) then s else To(s, i, if s.closedFlag then Leaving else Selecting)
    case Send(i) =>
      if IsAt(s, i, Selecting) then To(s, i, Leaving).(sends := s.sends + 1, panicked := s.panicked || s.closes > 0)
        else s
    case GiveUp(i) => if IsAt(s, i, Selecting) && s.cancelled then To(s, i, Leaving) else s
    case Unlock(i) => if IsAt(s, i, Leaving) then To(s, i, Returned).(holder := Free) else s
    case Close => CloserNext(s)
  }

  function CloserNext(s: State): State {
    match s.closer
    case AwaitCancel => if s.cancelled then s.(closer := AwaitLock) else s
    case AwaitLock => if s.holder == Free then s.(holder := Closer, closer := Entered) else s
    case Entered => s.(closedFlag := true, closer := Flagged)
    case Flagged => s.(closes := s.closes + 1, panicked := s.panicked || s.closes > 0, closer := ClosedOut)
    case ClosedOut => s.(holder := Free, closer := Exited)
    case Exited => s
  }

  function After(s: State, steps: seq<Step>, n: nat): State
    requires n <= |steps|
  {
    if n == 0 then s else Next(After(s, steps, n - 1), steps[n - 1])
  }

  predicate Holding(at: CallbackAt) { at == Locked || at == Selecting || at == Leaving }

  ghost predicate Inv(s: State) {
    && !s.panicked
    && (s.closer.Entered? || s.closer.Flagged? || s.closer.ClosedOut? <==> s.holder == Closer)
    && (s.closedFlag <==> s.closer.Flagged? || s.closer.ClosedOut? || s.closer.Exited?)
    && s.closes == (if s.closer.ClosedOut? || s.closer.Exited? then 1 else 0)
    && (!s.closer.AwaitCancel? ==> s.cancelled)
    && (s.holder.Callback? ==> s.holder.id in s.callbacks && Holding(s.callbacks[s.holder.id]))
    && (forall i | i in s.callbacks && Holding(s.callbacks[i]) :: s.holder == Callback(i))
    && (forall i | i in s.callbacks && s.callbacks[i] == Selecting :: !s.closedFlag)
  }

  lemma StepKeepsInv(s: State, step: Step)
    requires Inv(s)
    ensures Inv(Next(s, step))
  {
    match step {
      case Cancel =>
      case Arrive(i) =>
      case Lock(i) =>
      case CheckFlag(i) =>
      case Send(i) =>
      case GiveUp(i) =>
      case Unlock(i) =>
      case Close =>
    }
  }

  lemma {:induction false} RunKeepsInv(s: State, steps: seq<Step>, n: nat)
    requires n <= |steps| && Inv(s)
    ensures Inv(After(s, steps, n))
  {
    if n > 0 {
      RunKeepsInv(s, steps, n - 1);
      StepKeepsInv(After(s, steps, n - 1), steps[n - 1]);
    }
  }

  /** In every interleaving: no send on a closed channel, no second close, and the
      channel is closed once the closer has passed it. */
  lemma NeverPanics(steps: seq<Step>, n: nat)
    requires n <= |steps|
    ensures var s := After(Start, steps, n);
      !s.panicked && s.closes <= 1 && (s.closer.Exited? ==> s.closes == 1 && s.closedFlag)
  {
    RunKeepsInv(Start, steps, n);
  }

  /** From any reachable state with the channel closed, nothing more is sent. */
  lemma {:induction false} NoSendAfterClose(s: State, steps: seq<Step>, n: nat)
    requires n <= |steps| && Inv(s) && s.closes == 1
    ensures After(s, steps, n).sends == s.sends && After(s, steps, n).closes == 1
  {
    if n > 0 {
      NoSendAfterClose(s, steps, n - 1);
      RunKeepsInv(s, steps, n - 1);
    }
  }

  /** The step of whoever holds the lock, or of the closer. */
  function Urgent(s: State): Step {
    if s.holder.Callback? && s.holder.id in s.callbacks then
      match s.callbacks[s.holder.id]
      case Locked => CheckFlag(s.holder.id)
      case Selecting => GiveUp(s.holder.id)
      case _ => Unlock(s.holder.id)
    else Close
  }

  /** What is left for the closer, and for the callback in its way. */
  function Distance(s: State): nat {
    (match s.closer
     case AwaitCancel => 5 case AwaitLock => 4 case Entered => 3 case Flagged => 2 case ClosedOut => 1 case Exited => 0)
    * 4 +
    (if s.holder.Callback? && s.holder.id in s.callbacks then
      match s.callbacks[s.holder.id]
      case Locked => 3 case Selecting => 2 case Leaving => 1 case _ => 0
     else 0)
  }

  /** No deadlock: once cancelled, the lock holder or the closer can always move,
      even with the channel full, and each such move brings the close nearer. */
  lemma TeardownMovesOn(steps: seq<Step>, n: nat)
    requires n <= |steps|
    ensures var s := After(Start, steps, n);
      s.cancelled && !s.closer.Exited? ==> Distance(Next(s, Urgent(s))) < Distance(s)
  {
    RunKeepsInv(Start, steps, n);
  }

  /** While nothing has been torn down, a waiting callback that gets the lock sends. */
  lemma CallbackDelivers(s: State, i: nat)
    requires Inv(s) && !s.closedFlag && s.holder == Free && IsAt(s, i, Waiting)
    ensures var z := Next(Next(Next(Next(s, Lock(i)), CheckFlag(i)), Send(i)), Unlock(i));
      z == s.(sends := s.sends + 1, callbacks := s.callbacks[i := Returned])
  {
    var s1 := Next(s, Lock(i));
    var s2 := Next(s1, CheckFlag(i));
    assert IsAt(s1, i, Locked) && IsAt(s2, i, Selecting);
    var s3 := Next(s2, Send(i));
    assert IsAt(s3, i, Leaving);
    assert Next(s3, Unlock(i)).callbacks == s.callbacks[i := Returned];
  }
}
