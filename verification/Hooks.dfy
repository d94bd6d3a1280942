/** The hooks of .claude/settings.json under `bones up`, `bones doctor` and
    `bones down`: what one event's value becomes, as functions. */
module Hooks {
  import opened Sorting

  /** A hook entry: a JSON object (its command "" when absent or not a string,
      its other fields as one blob), or any other JSON value. */
  datatype Entry = HookEntry(command: string, rest: string) | OtherEntry(raw: string)

  /** A matcher group: a JSON object (no entries when "hooks" is absent or not an
      array), or any other JSON value. */
  datatype Group = HookGroup(matcher: string, entries: seq<Entry>, rest: string) | OtherGroup(raw: string)

  datatype EventValue = Groups(groups: seq<Group>) | NotArray(raw: string)

  datatype Slot = Absent | Present(value: EventValue)

  type HookMap = map<string, EventValue>

  const SessionStart := "SessionStart"
  const SessionEnd := "SessionEnd"
  const Stop := "Stop"
  const PreCompact := "PreCompact"

  const BootNeedle := "hub-bootstrap.sh"
  const ShutdownNeedle := "hub-shutdown.sh"
  const JsonNeedle := "bones tasks prime --json"
  const PrimeNeedle := "bones tasks prime"
  const PrimeCommand := "bones tasks prime --hook=session-start"
  const HubCommand := "bones hub start"
  const PrimeMatcher := "startup|compact"

  /** strings.Contains. */
  predicate Contains(s: string, sub: string) {
    exists i | 0 <= i <= |s| :: OccursAt(s, sub, i)
  }

  predicate OccursAt(s: string, sub: string, i: nat) {
    i + |sub| <= |s| && s[i..i + |sub|] == sub
  }

  /** The entries a needle removes. */
  predicate Mentions(e: Entry, needle: string) {
    e.HookEntry? && Contains(e.command, needle)
  }

  type Drop = Entry -> bool

  function Needle(needle: string): Drop { (e: Entry) => Mentions(e, needle) }

  function Or(a: Drop, b: Drop): Drop { (e: Entry) => a(e) || b(e) }

  function Kept(drop: Drop): Entry -> bool { (e: Entry) => !drop(e) }

  // ----- pruning and adding, one event -----

  /** What is left of one group: itself, itself with fewer entries, or nothing. */
  function PruneGroup(g: Group, drop: Drop): seq<Group> {
    if g.OtherGroup? then [g]
    else
      var keep := Filter(g.entries, Kept(drop));
      if keep == [] then [] else [g.(entries := keep)]
  }

  function PruneGroups(gs: seq<Group>, drop: Drop): seq<Group> {
    if gs == [] then [] else PruneGroup(gs[0], drop) + PruneGroups(gs[1..], drop)
  }

  function Prune(v: Slot, drop: Drop): Slot {
    if v.Absent? || v.value.NotArray? then v
    else
      var keep := PruneGroups(v.value.groups, drop);
      if keep == [] then Absent else Present(Groups(keep))
  }

  function NewEntry(cmd: string): Entry { HookEntry(cmd, "type: command, timeout: 10") }

  predicate HasCommand(entries: seq<Entry>, cmd: string) {
    exists e | e in entries :: e.HookEntry? && e.command == cmd
  }

  predicate Matches(g: Group, matcher: string) {
    g.HookGroup? && g.matcher == matcher
  }

  /** The first group with the matcher gets the command unless it has it; with no
      such group, a new one is appended. */
  function AddGroups(gs: seq<Group>, matcher: string, cmd: string): seq<Group> {
    if gs == [] then [HookGroup(matcher, [NewEntry(cmd)], "")]
    else if !Matches(gs[0], matcher) then [gs[0]] + AddGroups(gs[1..], matcher, cmd)
    else if HasCommand(gs[0].entries, cmd) then gs
    else [gs[0].(entries := gs[0].entries + [NewEntry(cmd)])] + gs[1..]
  }

  function GroupsOf(v: Slot): seq<Group> {
    if v.Present? && v.value.Groups? then v.value.groups else []
  }

  function Add(v: Slot, matcher: string, cmd: string): Slot {
    Present(Groups(AddGroups(GroupsOf(v), matcher, cmd)))
  }

  /** Some entry of some group is exactly this command. */
  predicate CommandPresent(v: Slot, cmd: string) {
    exists g | g in GroupsOf(v) :: g.HookGroup? && HasCommand(g.entries, cmd)
  }

  predicate AnyMention(v: Slot, needle: string) {
    exists g | g in GroupsOf(v) :: g.HookGroup? && exists e | e in g.entries :: Mentions(e, needle)
  }

  // ----- the map of events -----

  function At(h: HookMap, event: string): Slot {
    if event in h then Present(h[event]) else Absent
  }

  function Put(h: HookMap, event: string, v: Slot): HookMap {
    match v
    case Absent => h - {event}
    case Present(value) => h[event := value]
  }

  function PruneEvent(h: HookMap, event: string, needle: string): HookMap {
    Put(h, event, Prune(At(h, event), Needle(needle)))
  }

  function AddHook(h: HookMap, event: string, matcher: string, cmd: string): HookMap {
    Put(h, event, Add(At(h, event), matcher, cmd))
  }

  // ----- the three commands -----

  /** What up prunes before it adds. */
  function Pruned(h: HookMap): HookMap {
    var h1 := PruneEvent(h, SessionStart, BootNeedle);
    var h2 := PruneEvent(h1, Stop, ShutdownNeedle);
    var h3 := PruneEvent(h2, SessionEnd, ShutdownNeedle);
    var h4 := PruneEvent(h3, SessionStart, JsonNeedle);
    PruneEvent(h4, PreCompact, PrimeNeedle)
  }

  /** The hook part of mergeSettings. */
  function Up(h: HookMap): HookMap {
    AddHook(AddHook(Pruned(h), SessionStart, PrimeMatcher, PrimeCommand), SessionStart, "", HubCommand)
  }

  /** The hook part of removeBonesHooksWith. */
  function Down(h: HookMap): HookMap {
    var h1 := PruneEvent(h, SessionStart, BootNeedle);
    var h2 := PruneEvent(h1, SessionStart, HubCommand);
    var h3 := PruneEvent(h2, SessionStart, PrimeNeedle);
    var h4 := PruneEvent(h3, PreCompact, PrimeNeedle);
    var h5 := PruneEvent(h4, SessionEnd, ShutdownNeedle);
    PruneEvent(h5, Stop, ShutdownNeedle)
  }

  /** The three repairs of migrateHookProtocolEntries, and when each applies. */
  predicate Stale(h: HookMap) { CommandPresent(At(h, SessionStart), JsonNeedle) }

  predicate Misplaced(h: HookMap) { AnyMention(At(h, PreCompact), PrimeNeedle) }

  predicate Missing(h: HookMap) { !CommandPresent(At(h, SessionStart), PrimeCommand) }

  function FixStale(h: HookMap): HookMap {
    if Stale(h) then AddHook(PruneEvent(h, SessionStart, JsonNeedle), SessionStart, PrimeMatcher, PrimeCommand) else h
  }

  function FixMisplaced(h: HookMap): HookMap {
    if Misplaced(h) then PruneEvent(h, PreCompact, PrimeNeedle) else h
  }

  function FixMissing(h: HookMap): HookMap {
    if Missing(h) then AddHook(h, SessionStart, PrimeMatcher, PrimeCommand) else h
  }

  function Bit(b: bool): nat { if b then 1 else 0 }

  /** The hooks after the migration, and how many rewrites it made. */
  function Doctor(h: HookMap): (HookMap, nat) {
    var h1 := FixStale(h);
    var h2 := FixMisplaced(h1);
    (FixMissing(h2), Bit(Stale(h)) + Bit(Misplaced(h1)) + Bit(Missing(h2)))
  }

  // ----- algebra of pruning and adding -----

  lemma {:induction false} FilterFilter(s: seq<Entry>, a: Drop, b: Drop)
    ensures Filter(Filter(s, Kept(a)), Kept(b)) == Filter(s, Kept(Or(a, b)))
  {
    if s != [] {
      FilterFilter(s[1..], a, b);
      FilterAppend(if Kept(a)(s[0]) then [s[0]] else [], Filter(s[1..], Kept(a)), Kept(b));
    }
  }

  lemma {:induction false} FilterSame(s: seq<Entry>, a: Drop, b: Drop)
    requires forall e | e in s :: a(e) == b(e)
    ensures Filter(s, Kept(a)) == Filter(s, Kept(b))
  {
    if s != [] {
      assert s[0] in s;
      FilterSame(s[1..], a, b);
    }
  }

  lemma {:induction false} PruneAppend(a: seq<Group>, b: seq<Group>, drop: Drop)
    ensures PruneGroups(a + b, drop) == PruneGroups(a, drop) + PruneGroups(b, drop)
  {
    if a == [] {
      assert a + b == b;
    } else {
      assert (a + b)[1..] == a[1..] + b;
      PruneAppend(a[1..], b, drop);
    }
  }

  lemma PruneGroupTwice(g: Group, a: Drop, b: Drop)
    ensures PruneGroups(PruneGroup(g, a), b) == PruneGroup(g, Or(a, b))
  {
    if g.HookGroup? {
      FilterFilter(g.entries, a, b);
    }
    if PruneGroup(g, a) != [] {
      assert PruneGroup(g, a)[1..] == [];
      assert PruneGroups(PruneGroup(g, a), b) == PruneGroup(PruneGroup(g, a)[0], b) + [];
    }
  }

  lemma {:induction false} PruneGroupsTwice(gs: seq<Group>, a: Drop, b: Drop)
    ensures PruneGroups(PruneGroups(gs, a), b) == PruneGroups(gs, Or(a, b))
  {
    if gs != [] {
      PruneGroupsTwice(gs[1..], a, b);
      PruneAppend(PruneGroup(gs[0], a), PruneGroups(gs[1..], a), b);
      PruneGroupTwice(gs[0], a, b);
    }
  }

  /** Pruning for one needle and then another is pruning for both. */
  lemma PruneTwice(v: Slot, a: Drop, b: Drop)
    ensures Prune(Prune(v, a), b) == Prune(v, Or(a, b))
  {
    if v.Present? && v.value.Groups? {
      PruneGroupsTwice(v.value.groups, a, b);
    }
  }

  lemma {:induction false} PruneGroupsSame(gs: seq<Group>, a: Drop, b: Drop)
    requires forall g, e | g in gs && g.HookGroup? && e in g.entries :: a(e) == b(e)
    ensures PruneGroups(gs, a) == PruneGroups(gs, b)
  {
    if gs != [] {
      assert gs[0] in gs;
      if gs[0].HookGroup? {
        FilterSame(gs[0].entries, a, b);
      }
      PruneGroupsSame(gs[1..], a, b);
    }
  }

  /** Needles that remove the same entries prune alike. */
  lemma PruneSame(v: Slot, a: Drop, b: Drop)
    requires forall e :: a(e) == b(e)
    ensures Prune(v, a) == Prune(v, b)
  {
    PruneGroupsSame(GroupsOf(v), a, b);
  }

  /** Pruning for a is lost in a later pruning for b when b removes all that a does. */
  lemma PruneAbsorbed(v: Slot, a: Drop, b: Drop)
    requires forall e | a(e) :: b(e)
    ensures Prune(Prune(v, a), b) == Prune(v, b) == Prune(Prune(v, b), a)
  {
    PruneTwice(v, a, b);
    PruneTwice(v, b, a);
    PruneSame(v, Or(a, b), b);
    PruneSame(v, Or(b, a), b);
  }

  lemma {:induction false} PruneGroupsUndoesAdd(gs: seq<Group>, matcher: string, cmd: string, drop: Drop)
    requires drop(NewEntry(cmd))
    ensures PruneGroups(AddGroups(gs, matcher, cmd), drop) == PruneGroups(gs, drop)
  {
    assert Filter([NewEntry(cmd)], Kept(drop)) == [];
    if gs == [] {
      assert PruneGroup(HookGroup(matcher, [NewEntry(cmd)], ""), drop) == [];
    } else if !Matches(gs[0], matcher) {
      PruneGroupsUndoesAdd(gs[1..], matcher, cmd, drop);
    } else if !HasCommand(gs[0].entries, cmd) {
      FilterAppend(gs[0].entries, [NewEntry(cmd)], Kept(drop));
      assert Filter(gs[0].entries + [NewEntry(cmd)], Kept(drop)) == Filter(gs[0].entries, Kept(drop));
      assert PruneGroup(gs[0].(entries := gs[0].entries + [NewEntry(cmd)]), drop) == PruneGroup(gs[0], drop);
    }
  }

  /** Pruning undoes an add of something it removes, on any array or absent event. */
  lemma PruneUndoesAdd(v: Slot, matcher: string, cmd: string, drop: Drop)
    requires drop(NewEntry(cmd)) && !(v.Present? && v.value.NotArray?)
    ensures Prune(Add(v, matcher, cmd), drop) == Prune(v, drop)
  {
    PruneGroupsUndoesAdd(GroupsOf(v), matcher, cmd, drop);
  }

  // ----- tidy events: what a second up finds -----

  /** No empty group, and nothing left to drop. */
  ghost predicate Tidy(gs: seq<Group>, drop: Drop) {
    forall g | g in gs && g.HookGroup? :: g.entries != [] && forall e | e in g.entries :: !drop(e)
  }

  lemma {:induction false} FilterAll(s: seq<Entry>, drop: Drop)
    requires forall e | e in s :: !drop(e)
    ensures Filter(s, Kept(drop)) == s
  {
    if s != [] {
      assert s[0] in s;
      FilterAll(s[1..], drop);
    }
  }

  lemma {:induction false} PruneTidy(gs: seq<Group>, drop: Drop)
    requires Tidy(gs, drop)
    ensures PruneGroups(gs, drop) == gs
  {
    if gs != [] {
      assert gs[0] in gs;
      if gs[0].HookGroup? {
        FilterAll(gs[0].entries, drop);
      }
      PruneTidy(gs[1..], drop);
    }
  }

  lemma {:induction false} PruneMakesTidy(gs: seq<Group>, drop: Drop, other: Drop)
    ensures Tidy(PruneGroups(gs, drop), drop)
    ensures Tidy(gs, other) ==> Tidy(PruneGroups(gs, drop), other)
  {
    if gs != [] {
      PruneMakesTidy(gs[1..], drop, other);
      var g := gs[0];
      assert g in gs && forall x | x in gs[1..] :: x in gs;
      if g.HookGroup? {
        forall e | e in Filter(g.entries, Kept(drop)) ensures e in g.entries && !drop(e) {
          FilterMember(g.entries, Kept(drop), e);
        }
      }
    }
  }

  lemma {:induction false} AddKeepsTidy(gs: seq<Group>, matcher: string, cmd: string, drop: Drop)
    requires Tidy(gs, drop) && !drop(NewEntry(cmd))
    ensures Tidy(AddGroups(gs, matcher, cmd), drop)
  {
    if gs != [] {
      assert gs[0] in gs && forall x | x in gs[1..] :: x in gs;
      AddKeepsTidy(gs[1..], matcher, cmd, drop);
    }
  }

  /** The first group with the matcher has the command. */
  predicate Installed(gs: seq<Group>, matcher: string, cmd: string) {
    && gs != []
    && if Matches(gs[0], matcher) then HasCommand(gs[0].entries, cmd) else Installed(gs[1..], matcher, cmd)
  }

  lemma {:induction false} AddInstalls(gs: seq<Group>, matcher: string, cmd: string)
    ensures Installed(AddGroups(gs, matcher, cmd), matcher, cmd)
    ensures Installed(gs, matcher, cmd) ==> AddGroups(gs, matcher, cmd) == gs
  {
    assert NewEntry(cmd) in [NewEntry(cmd)];
    if gs != [] {
      AddInstalls(gs[1..], matcher, cmd);
      if Matches(gs[0], matcher) {
        assert NewEntry(cmd) in gs[0].entries + [NewEntry(cmd)];
      }
    }
  }

  lemma {:induction false} AddKeepsInstalled(gs: seq<Group>, matcher: string, cmd: string, matcher': string,
      cmd': string)
    requires Installed(gs, matcher, cmd) && matcher' != matcher
    ensures Installed(AddGroups(gs, matcher', cmd'), matcher, cmd)
  {
    if !Matches(gs[0], matcher) {
      if !Matches(gs[0], matcher') {
        AddKeepsInstalled(gs[1..], matcher, cmd, matcher', cmd');
      }
    }
  }

  lemma {:induction false} InstalledIsPresent(gs: seq<Group>, matcher: string, cmd: string)
    requires Installed(gs, matcher, cmd)
    ensures exists g | g in gs :: g.HookGroup? && HasCommand(g.entries, cmd)
  {
    if Matches(gs[0], matcher) {
      assert gs[0] in gs;
    } else {
      InstalledIsPresent(gs[1..], matcher, cmd);
      var g :| g in gs[1..] && g.HookGroup? && HasCommand(g.entries, cmd);
      assert g in gs;
    }
  }

  // ----- what the needles match -----

  lemma ContainsShorter(s: string, long: string, short: string)
    requires Contains(s, long) && short <= long
    ensures Contains(s, short)
  {
    var i :| 0 <= i <= |s| && OccursAt(s, long, i);
    assert s[i..i + |short|] == s[i..i + |long|][..|short|] == short;
    assert OccursAt(s, short, i);
  }

  lemma ContainsPrefix(s: string, sub: string)
    requires sub <= s
    ensures Contains(s, sub)
  {
    assert OccursAt(s, sub, 0);
  }

  lemma ContainsChars(s: string, sub: string, c: char)
    ensures Contains(s, sub) && c in sub ==> c in s
  {
    if Contains(s, sub) && c in sub {
      var i :| 0 <= i <= |s| && OccursAt(s, sub, i);
      assert c in s[i..i + |sub|];
    }
  }

  lemma PrimeIsSpared()
    ensures !Contains(PrimeCommand, BootNeedle) && !Contains(PrimeCommand, JsonNeedle)
  {
    assert BootNeedle[13] == '.' && JsonNeedle[20] == 'j';
    ContainsChars(PrimeCommand, BootNeedle, '.');
    ContainsChars(PrimeCommand, JsonNeedle, 'j');
  }

  lemma JsonIsPrime()
    ensures forall s | Contains(s, JsonNeedle) :: Contains(s, PrimeNeedle)
    ensures Contains(PrimeCommand, PrimeNeedle) && Contains(HubCommand, HubCommand)
  {
    assert PrimeNeedle <= JsonNeedle && PrimeNeedle <= PrimeCommand;
    ContainsPrefix(PrimeCommand, PrimeNeedle);
    ContainsPrefix(HubCommand, HubCommand);
    forall s | Contains(s, JsonNeedle) ensures Contains(s, PrimeNeedle) {
      ContainsShorter(s, JsonNeedle, PrimeNeedle);
    }
  }
}
