/** The hook map edited in place, loop by loop, as cli/orchestrator.go,
    cli/down.go and cli/doctor.go edit it. */
module Settings {
  import opened Hooks
  import opened Sorting
  import opened HookFile

  /** How many of the three migrations apply. */
  function Faults(h: HookMap): nat {
    Bit(Stale(h)) + Bit(Misplaced(h)) + Bit(Missing(h))
  }

  lemma PruneOneMore(groups: seq<Group>, i: nat, drop: Drop)
    requires i < |groups|
    ensures PruneGroups(groups[..i + 1], drop) == PruneGroups(groups[..i], drop) + PruneGroup(groups[i], drop)
  {
    assert groups[..i + 1] == groups[..i] + [groups[i]];
    PruneAppend(groups[..i], [groups[i]], drop);
    assert [groups[i]][1..] == [];
    assert PruneGroups([groups[i]], drop) == PruneGroup(groups[i], drop) + [];
  }

  /** AddGroups and Installed by index: k is the first group with the matcher, if any. */
  lemma {:induction false} AddAt(gs: seq<Group>, k: nat, matcher: string, cmd: string)
    requires k <= |gs| && (k < |gs| ==> Matches(gs[k], matcher))
    requires forall i | 0 <= i < k :: !Matches(gs[i], matcher)
    ensures Installed(gs, matcher, cmd) <==> k < |gs| && HasCommand(gs[k].entries, cmd)
    ensures AddGroups(gs, matcher, cmd) ==
      if k == |gs| then gs + [HookGroup(matcher, [NewEntry(cmd)], "")]
      else if HasCommand(gs[k].entries, cmd) then gs
      else gs[k := gs[k].(entries := gs[k].entries + [NewEntry(cmd)])]
  {
    if k > 0 {
      AddAt(gs[1..], k - 1, matcher, cmd);
    }
  }

  class SettingsHooks {
    var hooks: HookMap

    constructor (hooks: HookMap)
      ensures this.hooks == hooks
    {
      this.hooks := hooks;
    }

    /** pruneCommandFromEvent and pruneHookEvent: entries mentioning needle go,
        groups left empty go, and an event left empty goes. */
    method PruneCommandFromEvent(event: string, needle: string)
      modifies this
      ensures hooks == PruneEvent(old(hooks), event, needle)
    {
      if event !in hooks || hooks[event].NotArray? { return; }
      var keep := KeepGroups(hooks[event].groups, needle);
      hooks := if keep == [] then hooks - {event} else hooks[event := Groups(keep)];
    }

    static method KeepGroups(groups: seq<Group>, needle: string) returns (keep: seq<Group>)
      ensures keep == PruneGroups(groups, Needle(needle))
    {
      keep := [];
      for i := 0 to |groups|
        invariant keep == PruneGroups(groups[..i], Needle(needle))
      {
        PruneOneMore(groups, i, Needle(needle));
        if groups[i].OtherGroup? {
          keep := keep + [groups[i]];
        } else {
          var keepEntries := KeepEntries(groups[i].entries, needle);
          if keepEntries != [] {
            keep := keep + [groups[i].(entries := keepEntries)];
          }
        }
      }
      assert groups[..|groups|] == groups;
    }

    static method KeepEntries(entries: seq<Entry>, needle: string) returns (keep: seq<Entry>)
      ensures keep == Filter(entries, Kept(Needle(needle)))
    {
      keep := [];
      for i := 0 to |entries|
        invariant keep == Filter(entries[..i], Kept(Needle(needle)))
      {
        assert entries[..i + 1] == entries[..i] + [entries[i]];
        FilterAppend(entries[..i], [entries[i]], Kept(Needle(needle)));
        if !(entries[i].HookEntry? && Contains(entries[i].command, needle)) {
          keep := keep + [entries[i]];
        }
      }
      assert entries[..|entries|] == entries;
    }

    /** addHookWithMatcher; the answer is whether an entry was appended. */
    method AddHookWithMatcher(event: string, matcher: string, cmd: string) returns (added: bool)
      modifies this
      ensures hooks == AddHook(old(hooks), event, matcher, cmd)
      ensures added <==> !Installed(GroupsOf(At(old(hooks), event)), matcher, cmd)
    {
      var groups := if event in hooks && hooks[event].Groups? then hooks[event].groups else [];
      var idx := 0;
      while idx < |groups| && !Matches(groups[idx], matcher)
        invariant idx <= |groups| && hooks == old(hooks)
        invariant forall i | 0 <= i < idx :: !Matches(groups[i], matcher)
      {
        idx := idx + 1;
      }
      AddAt(groups, idx, matcher, cmd);
      if idx == |groups| {
        hooks := hooks[event := Groups(groups + [HookGroup(matcher, [NewEntry(cmd)], "")])];
        return true;
      }
      var grp := groups[idx];
      var present := ScanEntries(grp.entries, cmd);
      if !present {
        groups := groups[idx := grp.(entries := grp.entries + [NewEntry(cmd)])];
      }
      hooks := hooks[event := Groups(groups)];
      added := !present;
    }

    static method ScanEntries(entries: seq<Entry>, cmd: string) returns (found: bool)
      ensures found <==> HasCommand(entries, cmd)
    {
      for i := 0 to |entries|
        invariant !HasCommand(entries[..i], cmd)
      {
        assert entries[..i + 1] == entries[..i] + [entries[i]];
        if entries[i].HookEntry? && entries[i].command == cmd { return true; }
      }
      assert entries[..|entries|] == entries;
      found := false;
    }

    /** bones up. */
    method MergeHooks() returns (primeAdded: bool, hubAdded: bool)
      modifies this
      ensures hooks == Up(old(hooks))
      ensures var was := GroupsOf(At(Pruned(old(hooks)), SessionStart));
        && primeAdded == !Installed(was, PrimeMatcher, PrimeCommand)
        && hubAdded == !Installed(AddGroups(was, PrimeMatcher, PrimeCommand), "", HubCommand)
    {
      PruneCommandFromEvent(SessionStart, BootNeedle);
      PruneCommandFromEvent(Stop, ShutdownNeedle);
      PruneCommandFromEvent(SessionEnd, ShutdownNeedle);
      PruneCommandFromEvent(SessionStart, JsonNeedle);
      PruneCommandFromEvent(PreCompact, PrimeNeedle);
      primeAdded := AddHookWithMatcher(SessionStart, PrimeMatcher, PrimeCommand);
      hubAdded := AddHookWithMatcher(SessionStart, "", HubCommand);
    }

    /** bones down. */
    method RemoveBonesHooks()
      modifies this
      ensures hooks == Down(old(hooks))
    {
      PruneCommandFromEvent(SessionStart, BootNeedle);
      PruneCommandFromEvent(SessionStart, HubCommand);
      PruneCommandFromEvent(SessionStart, PrimeNeedle);
      PruneCommandFromEvent(PreCompact, PrimeNeedle);
      PruneCommandFromEvent(SessionEnd, ShutdownNeedle);
      PruneCommandFromEvent(Stop, ShutdownNeedle);
    }

    /** hookCommandPresent. */
    method HookCommandPresent(event: string, cmd: string) returns (found: bool)
      ensures found <==> CommandPresent(At(hooks, event), cmd)
    {
      if event !in hooks || hooks[event].NotArray? { return false; }
      var groups := hooks[event].groups;
      for i := 0 to |groups|
        invariant forall g | g in groups[..i] :: !(g.HookGroup? && HasCommand(g.entries, cmd))
      {
        assert groups[..i + 1] == groups[..i] + [groups[i]];
        var here := groups[i].HookGroup?;
        if here { here := ScanEntries(groups[i].entries, cmd); }
        if here {
          assert groups[i] in groups;
          return true;
        }
      }
      assert groups[..|groups|] == groups;
      found := false;
    }

    static method ScanMentions(entries: seq<Entry>, needle: string) returns (found: bool)
      ensures found <==> exists e | e in entries :: Mentions(e, needle)
    {
      for i := 0 to |entries|
        invariant forall e | e in entries[..i] :: !Mentions(e, needle)
      {
        assert entries[..i + 1] == entries[..i] + [entries[i]];
        if Mentions(entries[i], needle) {
          assert entries[i] in entries;
          return true;
        }
      }
      assert entries[..|entries|] == entries;
      found := false;
    }

    /** hasPrimeUnderPreCompact, for any event and needle. */
    method HasMention(event: string, needle: string) returns (found: bool)
      ensures found <==> AnyMention(At(hooks, event), needle)
    {
      if event !in hooks || hooks[event].NotArray? { return false; }
      var groups := hooks[event].groups;
      for i := 0 to |groups|
        invariant forall g | g in groups[..i] :: !(g.HookGroup? && exists e | e in g.entries :: Mentions(e, needle))
      {
        assert groups[..i + 1] == groups[..i] + [groups[i]];
        var here := groups[i].HookGroup?;
        if here { here := ScanMentions(groups[i].entries, needle); }
        if here {
          assert groups[i] in groups;
          return true;
        }
      }
      assert groups[..|groups|] == groups;
      found := false;
    }

    /** doctor: with noFix it only counts what it would do and changes nothing. */
    method MigrateHookProtocolEntries(noFix: bool) returns (rewrites: nat, warns: nat)
      modifies this
      ensures !noFix ==> (hooks, rewrites) == Doctor(old(hooks)) && warns == 0
      ensures noFix ==> hooks == old(hooks) && rewrites == 0 && warns == Faults(hooks)
    {
      var r1, w1 := MigrateStale(noFix);
      var r2, w2 := MigrateMisplaced(noFix);
      var r3, w3 := MigrateMissing(noFix);
      rewrites, warns := r1 + r2 + r3, w1 + w2 + w3;
    }

    /** The stale command under SessionStart. */
    method MigrateStale(noFix: bool) returns (rewrote: nat, warned: nat)
      modifies this
      ensures rewrote == Bit(!noFix && Stale(old(hooks))) && warned == Bit(noFix && Stale(old(hooks)))
      ensures hooks == if noFix then old(hooks) else FixStale(old(hooks))
    {
      var found := HookCommandPresent(SessionStart, JsonNeedle);
      rewrote, warned := Bit(!noFix && found), Bit(noFix && found);
      if found && !noFix {
        PruneCommandFromEvent(SessionStart, JsonNeedle);
        var _ := AddHookWithMatcher(SessionStart, PrimeMatcher, PrimeCommand);
      }
    }

    /** The prime command under PreCompact. */
    method MigrateMisplaced(noFix: bool) returns (rewrote: nat, warned: nat)
      modifies this
      ensures rewrote == Bit(!noFix && Misplaced(old(hooks))) && warned == Bit(noFix && Misplaced(old(hooks)))
      ensures hooks == if noFix then old(hooks) else FixMisplaced(old(hooks))
    {
      var found := HasMention(PreCompact, PrimeNeedle);
      rewrote, warned := Bit(!noFix && found), Bit(noFix && found);
      if found && !noFix {
        PruneCommandFromEvent(PreCompact, PrimeNeedle);
      }
    }

    /** No prime command under SessionStart. */
    method MigrateMissing(noFix: bool) returns (rewrote: nat, warned: nat)
      modifies this
      ensures rewrote == Bit(!noFix && Missing(old(hooks))) && warned == Bit(noFix && Missing(old(hooks)))
      ensures hooks == if noFix then old(hooks) else FixMissing(old(hooks))
    {
      var present := HookCommandPresent(SessionStart, PrimeCommand);
      rewrote, warned := Bit(!noFix && !present), Bit(noFix && !present);
      if !present && !noFix {
        var _ := AddHookWithMatcher(SessionStart, PrimeMatcher, PrimeCommand);
      }
    }
  }

  /** The settings file, as the three commands read and write its "hooks" key. */
  class SettingsFile {
    var value: HooksValue

    constructor (value: HooksValue)
      ensures this.value == value
    {
      this.value := value;
    }

    /** The map a command works on. */
    method ReadHooks() returns (s: SettingsHooks)
      ensures fresh(s) && s.hooks == AsMap(value)
    {
      s := new SettingsHooks(if value.Object? then value.hooks else map[]);
    }

    method Up()
      modifies this
      ensures value == UpFile(old(value))
    {
      var s := ReadHooks();
      var _, _ := s.MergeHooks();
      value := Object(s.hooks);
    }

    method Doctor(noFix: bool) returns (rewrites: nat, warns: nat)
      modifies this
      ensures !noFix ==> (value, rewrites) == DoctorFile(old(value)) && warns == 0
      ensures noFix ==> value == old(value) && rewrites == 0 && warns == Faults(AsMap(value))
    {
      var s := ReadHooks();
      rewrites, warns := s.MigrateHookProtocolEntries(noFix);
      if rewrites > 0 && !noFix {
        value := Object(s.hooks);
      }
    }

    method Down()
      modifies this
      ensures value == DownFile(old(value))
    {
      if !value.Object? { return; }
      var s := ReadHooks();
      s.RemoveBonesHooks();
      value := if s.hooks == map[] then NoHooks else Object(s.hooks);
    }
  }
}
