/** The "hooks" key of the settings file: what up, doctor and down make of it when it
    is absent, an object, or any other JSON value. */
module HookFile {
  import opened Hooks
  import H = HookHistory

  datatype HooksValue = NoHooks | Object(hooks: HookMap) | OtherValue(raw: string)

  /** The type assertion of all three commands: anything but an object reads as empty. */
  function AsMap(v: HooksValue): HookMap {
    if v.Object? then v.hooks else map[]
  }

  /** mergeSettings always writes an object. */
  function UpFile(v: HooksValue): HooksValue { Object(Up(AsMap(v))) }

  /** checkBonesScaffoldedHooksWith writes one when it rewrote something. */
  function DoctorFile(v: HooksValue): (HooksValue, nat) {
    var (h, rewrites) := Doctor(AsMap(v));
    (if rewrites > 0 then Object(h) else v, rewrites)
  }

  /** What down makes of an object: the key goes when nothing is left in it. */
  function Trimmed(h: HookMap): HooksValue {
    if h == map[] then NoHooks else Object(h)
  }

  /** removeBonesHooksWith touches only an object. */
  function DownFile(v: HooksValue): HooksValue {
    if v.Object? then Trimmed(Down(v.hooks)) else v
  }

  /** The values that up and doctor do not overwrite: no other value at "hooks", and
      none but an array at SessionStart. */
  predicate Mergeable(v: HooksValue) {
    !v.OtherValue? && H.IsArray(At(AsMap(v), SessionStart))
  }

  // ----- pairs of commands -----

  /** Down neither makes nor unmakes a value that up would overwrite. */
  lemma DownKeepsMergeable(v: HooksValue)
    ensures Mergeable(DownFile(v)) <==> Mergeable(v)
  {
    if !v.OtherValue? {
      H.DownKeepsKind(AsMap(v));
    }
  }

  /** down after up gives the value down alone gives if and only if "hooks" is absent
      or an object, with SessionStart absent or an array in it. */
  lemma DownUndoesUp(v: HooksValue)
    ensures DownFile(UpFile(v)) == DownFile(v) <==> Mergeable(v)
  {
    DownKeepsMergeable(UpFile(v));
    DownKeepsMergeable(v);
    if Mergeable(v) {
      H.DownUndoesUp(AsMap(v));
    }
  }

  /** down after doctor gives the value down alone gives under the same condition. */
  lemma DownUndoesDoctor(v: HooksValue)
    ensures DownFile(DoctorFile(v).0) == DownFile(v) <==> Mergeable(v)
  {
    DownKeepsMergeable(DoctorFile(v).0);
    DownKeepsMergeable(v);
    if Mergeable(v) {
      H.DoctorOnArray(AsMap(v));
    }
  }

  lemma DownTwice(v: HooksValue)
    ensures DownFile(DownFile(v)) == DownFile(v)
  {
    if v.Object? {
      H.DownTwice(v.hooks);
    }
  }

  /** up twice is up once, and doctor right after up rewrites nothing. */
  lemma UpIsStable(v: HooksValue)
    ensures UpFile(UpFile(v)) == UpFile(v) && DoctorFile(UpFile(v)) == (UpFile(v), 0)
  {
    H.UpTwice(AsMap(v));
    H.DoctorAfterUp(AsMap(v));
  }

  // ----- whole histories -----

  datatype Command = RunUp | RunDoctor | RunDown

  function Exec(v: HooksValue, c: Command): HooksValue {
    match c
    case RunUp => UpFile(v)
    case RunDoctor => DoctorFile(v).0
    case RunDown => DownFile(v)
  }

  function Run(v: HooksValue, commands: seq<Command>): HooksValue
    decreases |commands|
  {
    if commands == [] then v else Run(Exec(v, commands[0]), commands[1..])
  }

  predicate OnlyDowns(commands: seq<Command>) {
    commands == [] || (commands[0] == RunDown && OnlyDowns(commands[1..]))
  }

  /** One command, seen by a later down. */
  lemma ExecThenDown(v: HooksValue, c: Command)
    ensures c != RunDown ==> Mergeable(Exec(v, c))
    ensures Mergeable(v) ==> Mergeable(Exec(v, c))
    ensures Mergeable(v) || c == RunDown ==> DownFile(Exec(v, c)) == DownFile(v)
    ensures c == RunDown ==> (Mergeable(Exec(v, c)) <==> Mergeable(v))
  {
    match c {
      case RunUp => DownUndoesUp(v);
      case RunDoctor => DownUndoesDoctor(v);
      case RunDown => DownTwice(v); DownKeepsMergeable(v);
    }
  }

  lemma {:induction false} MergeableHistory(v: HooksValue, commands: seq<Command>)
    requires Mergeable(v)
    ensures DownFile(Run(v, commands)) == DownFile(v)
    decreases |commands|
  {
    if commands != [] {
      ExecThenDown(v, commands[0]);
      MergeableHistory(Exec(v, commands[0]), commands[1..]);
    }
  }

  /** Whatever sequence of up, doctor and down a settings file has been through, down
      leaves what down alone would have left at the start, if and only if nothing was
      there to be overwritten, or only downs have run. */
  lemma {:induction false} DownEndsEveryHistory(v: HooksValue, commands: seq<Command>)
    ensures DownFile(Run(v, commands)) == DownFile(v) <==> Mergeable(v) || OnlyDowns(commands)
    decreases |commands|
  {
    if Mergeable(v) {
      MergeableHistory(v, commands);
    } else if commands != [] {
      var v' := Exec(v, commands[0]);
      ExecThenDown(v, commands[0]);
      if commands[0] == RunDown {
        DownEndsEveryHistory(v', commands[1..]);
      } else {
        MergeableHistory(v', commands[1..]);
        DownKeepsMergeable(v');
        DownKeepsMergeable(v);
      }
    }
  }
}
