/** What up, doctor and down do to the commands in the settings, said on the commands
    and with the needles written out. */
module HookEffects {
  import opened Sorting
  import opened Hooks
  import H = HookHistory

  // ----- substrings -----

  /** sub stands somewhere in s. */
  ghost predicate Has(s: string, sub: string) {
    exists p, q :: s == p + sub + q
  }

  lemma InTheMiddle(p: string, sub: string, q: string)
    ensures Contains(p + sub + q, sub)
  {
    assert OccursAt(p + sub + q, sub, |p|);
  }

  /** strings.Contains, both ways. */
  lemma ContainsIff(s: string, sub: string)
    ensures Contains(s, sub) <==> Has(s, sub)
  {
    if Contains(s, sub) {
      var i :| 0 <= i <= |s| && OccursAt(s, sub, i);
      assert s == s[..i] + sub + s[i + |sub|..];
    }
    if Has(s, sub) {
      var p, q :| s == p + sub + q;
      InTheMiddle(p, sub, q);
    }
  }

  ghost predicate Says(e: Entry, sub: string) {
    e.HookEntry? && Has(e.command, sub)
  }

  // ----- the entries of an event -----

  function EntriesOf(gs: seq<Group>): seq<Entry> {
    if gs == [] then [] else (if gs[0].HookGroup? then gs[0].entries else []) + EntriesOf(gs[1..])
  }

  /** All entries of an event, group after group. */
  function Entries(h: HookMap, event: string): seq<Entry> { EntriesOf(GroupsOf(At(h, event))) }

  lemma {:induction false} EntriesAppend(a: seq<Group>, b: seq<Group>)
    ensures EntriesOf(a + b) == EntriesOf(a) + EntriesOf(b)
  {
    if a == [] {
      assert a + b == b;
    } else {
      assert (a + b)[0] == a[0] && (a + b)[1..] == a[1..] + b;
      EntriesAppend(a[1..], b);
    }
  }

  lemma PruneGroupEntries(g: Group, drop: Drop)
    ensures EntriesOf(PruneGroup(g, drop)) == Filter(EntriesOf([g]), Kept(drop))
  {
    OneGroup(g);
    var left := PruneGroup(g, drop);
    if left != [] {
      assert left == [left[0]];
      OneGroup(left[0]);
    }
  }

  lemma OneGroup(g: Group)
    ensures EntriesOf([g]) == if g.HookGroup? then g.entries else []
  {
    assert [g][1..] == [] && EntriesOf([]) == [];
    assert EntriesOf([g]) == (if g.HookGroup? then g.entries else []) + [];
  }

  /** Pruning takes exactly the entries it should, and leaves the others in order. */
  lemma {:induction false} PruneEntries(gs: seq<Group>, drop: Drop)
    ensures EntriesOf(PruneGroups(gs, drop)) == Filter(EntriesOf(gs), Kept(drop))
  {
    if gs != [] {
      PruneEntries(gs[1..], drop);
      PruneGroupEntries(gs[0], drop);
      EntriesAppend(PruneGroup(gs[0], drop), PruneGroups(gs[1..], drop));
      assert gs == [gs[0]] + gs[1..];
      EntriesAppend([gs[0]], gs[1..]);
      FilterAppend(EntriesOf([gs[0]]), EntriesOf(gs[1..]), Kept(drop));
    }
  }

  lemma PruneSlotEntries(v: Slot, drop: Drop)
    ensures EntriesOf(GroupsOf(Prune(v, drop))) == Filter(EntriesOf(GroupsOf(v)), Kept(drop))
  {
    PruneEntries(GroupsOf(v), drop);
  }

  /** A pruned group, against the one it came from. */
  ghost predicate CameFrom(g': Group, g: Group, drop: Drop) {
    if g.OtherGroup? then g' == g
    else g'.HookGroup? && g'.entries != [] && g'.matcher == g.matcher && g'.rest == g.rest
         && forall e :: e in g'.entries <==> e in g.entries && !drop(e)
  }

  /** Pruning leaves no empty group, keeps matchers and other fields, and keeps whatever
      is no group. */
  lemma {:induction false} PruneShape(gs: seq<Group>, drop: Drop)
    ensures forall g' | g' in PruneGroups(gs, drop) :: exists g | g in gs :: CameFrom(g', g, drop)
    ensures forall g | g in gs && g.OtherGroup? :: g in PruneGroups(gs, drop)
  {
    if gs != [] {
      PruneShape(gs[1..], drop);
      if gs[0].HookGroup? {
        forall e ensures e in Filter(gs[0].entries, Kept(drop)) <==> e in gs[0].entries && !drop(e) {
          FilterMember(gs[0].entries, Kept(drop), e);
        }
      }
      forall g' | g' in PruneGroups(gs, drop) ensures exists g | g in gs :: CameFrom(g', g, drop) {
        if g' in PruneGroup(gs[0], drop) {
          assert gs[0] in gs && CameFrom(g', gs[0], drop);
        } else {
          assert g' in PruneGroups(gs[1..], drop);
          var g :| g in gs[1..] && CameFrom(g', g, drop);
          assert g in gs;
        }
      }
    }
  }

  /** An event left without groups goes; one that is no array stays as it is. */
  lemma PruneSlotShape(v: Slot, drop: Drop)
    ensures v.Present? && v.value.NotArray? ==> Prune(v, drop) == v
    ensures v.Present? && v.value.Groups? ==>
      (Prune(v, drop) == Absent <==>
          forall g | g in v.value.groups :: g.HookGroup? && forall e | e in g.entries :: drop(e))
    ensures Prune(v, drop).Present? && Prune(v, drop).value.Groups? ==> Prune(v, drop).value.groups != []
  {
    if v.Present? && v.value.Groups? {
      LeftIff(v.value.groups, drop);
    }
  }

  lemma {:induction false} LeftIff(gs: seq<Group>, drop: Drop)
    ensures PruneGroups(gs, drop) == [] <==> forall g | g in gs :: g.HookGroup? && forall e | e in g.entries :: drop(e)
  {
    if gs != [] {
      LeftIff(gs[1..], drop);
      assert gs[0] in gs && forall g | g in gs[1..] :: g in gs;
      if gs[0].HookGroup? {
        forall e ensures e in Filter(gs[0].entries, Kept(drop)) <==> e in gs[0].entries && !drop(e) {
          FilterMember(gs[0].entries, Kept(drop), e);
        }
        var left := Filter(gs[0].entries, Kept(drop));
        assert left != [] ==> left[0] in left;
      }
    }
  }

  lemma {:induction false} SameFilter(s: seq<Entry>, p: Entry -> bool, q: Entry -> bool)
    requires forall e | e in s :: p(e) == q(e)
    ensures Filter(s, p) == Filter(s, q)
  {
    if s != [] {
      assert s[0] in s;
      SameFilter(s[1..], p, q);
    }
  }

  // ----- down -----

  ghost predicate DownTakesFromStart(e: Entry) {
    Says(e, "hub-bootstrap.sh") || Says(e, "bones hub start") || Says(e, "bones tasks prime")
  }

  /** After down SessionStart has the entries it had, in order, without those that say
      one of the three bones commands; the other three events lose theirs; and no other
      event changes. */
  lemma DownLeaves(h: HookMap)
    ensures Entries(Down(h), "SessionStart") == Filter(Entries(h, "SessionStart"), e => !DownTakesFromStart(e))
    ensures Entries(Down(h), "PreCompact") == Filter(Entries(h, "PreCompact"), e => !Says(e, "bones tasks prime"))
    ensures Entries(Down(h), "SessionEnd") == Filter(Entries(h, "SessionEnd"), e => !Says(e, "hub-shutdown.sh"))
    ensures Entries(Down(h), "Stop") == Filter(Entries(h, "Stop"), e => !Says(e, "hub-shutdown.sh"))
    ensures forall event | event !in ["SessionStart", "PreCompact", "SessionEnd", "Stop"] ::
      At(Down(h), event) == At(h, event)
  {
    DownStartLeaves(h);
    SideLeaves(h, Down(h), "PreCompact", "bones tasks prime");
    SideLeaves(h, Down(h), "SessionEnd", "hub-shutdown.sh");
    SideLeaves(h, Down(h), "Stop", "hub-shutdown.sh");
    forall event | event !in ["SessionStart", "PreCompact", "SessionEnd", "Stop"]
      ensures At(Down(h), event) == At(h, event)
    {
      OthersStay(h, event);
    }
  }

  lemma OthersStay(h: HookMap, event: string)
    requires event !in ["SessionStart", "PreCompact", "SessionEnd", "Stop"]
    ensures At(Down(h), event) == At(h, event) && At(Up(h), event) == At(h, event)
  {
    var four := ["SessionStart", "PreCompact", "SessionEnd", "Stop"];
    assert four[0] in four && four[1] in four && four[2] in four && four[3] in four;
    H.DownAt(h, event);
    H.UpAt(h, event);
  }

  lemma DownStartLeaves(h: HookMap)
    ensures Entries(Down(h), "SessionStart") == Filter(Entries(h, "SessionStart"), e => !DownTakesFromStart(e))
  {
    H.DownAt(h, "SessionStart");
    H.DownStartIs(At(h, "SessionStart"));
    PruneSlotEntries(At(h, "SessionStart"), H.Bones());
    forall e: Entry ensures Kept(H.Bones())(e) == !DownTakesFromStart(e) {
      BonesAre(e);
    }
    SameFilter(Entries(h, "SessionStart"), Kept(H.Bones()), e => !DownTakesFromStart(e));
  }

  lemma BonesAre(e: Entry)
    ensures Kept(H.Bones())(e) == !DownTakesFromStart(e)
  {
    if e.HookEntry? {
      ContainsIff(e.command, "hub-bootstrap.sh");
      ContainsIff(e.command, "bones hub start");
      ContainsIff(e.command, "bones tasks prime");
    }
  }

  /** An event that is pruned for one needle. */
  lemma SideLeaves(h: HookMap, h': HookMap, event: string, needle: string)
    requires h' == Down(h) || h' == Up(h)
    requires (event == "PreCompact" && needle == "bones tasks prime")
          || ((event == "SessionEnd" || event == "Stop") && needle == "hub-shutdown.sh")
    ensures Entries(h', event) == Filter(Entries(h, event), e => !Says(e, needle))
  {
    H.EventsDiffer();
    H.DownAt(h, event);
    H.UpAt(h, event);
    PruneSlotEntries(At(h, event), Needle(needle));
    var all := Entries(h, event);
    forall e | e in all ensures Kept(Needle(needle))(e) == !Says(e, needle) {
      if e.HookEntry? {
        ContainsIff(e.command, needle);
      }
    }
    SameFilter(all, Kept(Needle(needle)), e => !Says(e, needle));
  }

  // ----- up -----

  /** A group with exactly this matcher has an entry with exactly this command. */
  ghost predicate Wired(h: HookMap, event: string, matcher: string, command: string) {
    exists g, e | g in GroupsOf(At(h, event)) && g.HookGroup? && e in g.entries ::
      g.matcher == matcher && e.HookEntry? && e.command == command
  }

  lemma {:induction false} AddEntries(gs: seq<Group>, matcher: string, cmd: string, e: Entry)
    ensures e in EntriesOf(gs) ==> e in EntriesOf(AddGroups(gs, matcher, cmd))
    ensures e in EntriesOf(AddGroups(gs, matcher, cmd)) ==> e in EntriesOf(gs) || e == NewEntry(cmd)
  {
    var after := AddGroups(gs, matcher, cmd);
    if gs == [] {
      OneGroup(after[0]);
    } else {
      OneGroup(gs[0]);
      OneGroup(after[0]);
      if !Matches(gs[0], matcher) {
        assert after[1..] == AddGroups(gs[1..], matcher, cmd);
        AddEntries(gs[1..], matcher, cmd, e);
      } else {
        assert after[1..] == gs[1..];
      }
    }
  }

  lemma {:induction false} InstalledIsWired(gs: seq<Group>, matcher: string, cmd: string)
    requires Installed(gs, matcher, cmd)
    ensures exists g, e | g in gs && g.HookGroup? && e in g.entries ::
      g.matcher == matcher && e.HookEntry? && e.command == cmd
  {
    if Matches(gs[0], matcher) {
      var e :| e in gs[0].entries && e.HookEntry? && e.command == cmd;
      assert gs[0] in gs;
    } else {
      InstalledIsWired(gs[1..], matcher, cmd);
      var g, e :| g in gs[1..] && g.HookGroup? && e in g.entries && g.matcher == matcher && e.HookEntry?
        && e.command == cmd;
      assert g in gs;
    }
  }

  ghost predicate UpTakesFromStart(e: Entry) {
    Says(e, "hub-bootstrap.sh") || Says(e, "bones tasks prime --json")
  }

  /** The entries of SessionStart that up leaves before it adds its own. */
  lemma PrunedStart(v: Slot, e: Entry)
    ensures var left := EntriesOf(GroupsOf(Prune(Prune(v, Needle(BootNeedle)), Needle(JsonNeedle))));
      e in left <==> e in EntriesOf(GroupsOf(v)) && !UpTakesFromStart(e)
  {
    var once := Prune(v, Needle(BootNeedle));
    PruneSlotEntries(v, Needle(BootNeedle));
    PruneSlotEntries(once, Needle(JsonNeedle));
    FilterMember(EntriesOf(GroupsOf(v)), Kept(Needle(BootNeedle)), e);
    FilterMember(EntriesOf(GroupsOf(once)), Kept(Needle(JsonNeedle)), e);
    if e.HookEntry? {
      ContainsIff(e.command, "hub-bootstrap.sh");
      ContainsIff(e.command, "bones tasks prime --json");
    }
  }

  /** After up SessionStart has no legacy command, has every other entry it had, and has
      both bones commands under their matchers and nothing else that is new. */
  lemma UpLeaves(h: HookMap, e: Entry)
    ensures e in Entries(h, "SessionStart") && !UpTakesFromStart(e) ==> e in Entries(Up(h), "SessionStart")
    ensures e in Entries(Up(h), "SessionStart") ==>
      && !UpTakesFromStart(e)
      && (e in Entries(h, "SessionStart")
          || (e.HookEntry? && (e.command == "bones hub start" || e.command ==
              "bones tasks prime --hook=session-start")))
    ensures Wired(Up(h), "SessionStart", "startup|compact", "bones tasks prime --hook=session-start")
    ensures Wired(Up(h), "SessionStart", "", "bones hub start")
  {
    var v := At(h, "SessionStart");
    var left := GroupsOf(Prune(Prune(v, Needle(BootNeedle)), Needle(JsonNeedle)));
    var primed := AddGroups(left, PrimeMatcher, PrimeCommand);
    H.UpAt(h, "SessionStart");
    PrunedStart(v, e);
    AddEntries(left, PrimeMatcher, PrimeCommand, e);
    AddEntries(primed, "", HubCommand, e);
    NewOnesAreNotLegacy();
    AddInstalls(left, PrimeMatcher, PrimeCommand);
    AddInstalls(primed, "", HubCommand);
    AddKeepsInstalled(primed, PrimeMatcher, PrimeCommand, "", HubCommand);
    InstalledIsWired(AddGroups(primed, "", HubCommand), PrimeMatcher, PrimeCommand);
    InstalledIsWired(AddGroups(primed, "", HubCommand), "", HubCommand);
  }

  lemma NewOnesAreNotLegacy()
    ensures !UpTakesFromStart(NewEntry(PrimeCommand)) && !UpTakesFromStart(NewEntry(HubCommand))
  {
    PrimeIsSpared();
    ContainsIff(PrimeCommand, "hub-bootstrap.sh");
    ContainsIff(PrimeCommand, "bones tasks prime --json");
    ContainsIff(HubCommand, "hub-bootstrap.sh");
    ContainsIff(HubCommand, "bones tasks prime --json");
  }

  /** The other three events lose their legacy commands, and no other event changes. */
  lemma UpLeavesTheRest(h: HookMap)
    ensures Entries(Up(h), "PreCompact") == Filter(Entries(h, "PreCompact"), e => !Says(e, "bones tasks prime"))
    ensures Entries(Up(h), "SessionEnd") == Filter(Entries(h, "SessionEnd"), e => !Says(e, "hub-shutdown.sh"))
    ensures Entries(Up(h), "Stop") == Filter(Entries(h, "Stop"), e => !Says(e, "hub-shutdown.sh"))
    ensures forall event | event !in ["SessionStart", "PreCompact", "SessionEnd", "Stop"] ::
      At(Up(h), event) == At(h, event)
  {
    SideLeaves(h, Up(h), "PreCompact", "bones tasks prime");
    SideLeaves(h, Up(h), "SessionEnd", "hub-shutdown.sh");
    SideLeaves(h, Up(h), "Stop", "hub-shutdown.sh");
    forall event | event !in ["SessionStart", "PreCompact", "SessionEnd", "Stop"]
      ensures At(Up(h), event) == At(h, event)
    {
      OthersStay(h, event);
    }
  }

  // ----- doctor -----

  /** Some entry of the event is exactly this command. */
  ghost predicate Runs(h: HookMap, event: string, command: string) {
    exists e | e in Entries(h, event) :: e.HookEntry? && e.command == command
  }

  lemma {:induction false} PresentIsRun(gs: seq<Group>, cmd: string)
    ensures (exists g | g in gs :: g.HookGroup? && HasCommand(g.entries, cmd)) <==>
      exists e | e in EntriesOf(gs) :: e.HookEntry? && e.command == cmd
  {
    if gs != [] {
      PresentIsRun(gs[1..], cmd);
      if g :| g in gs && g.HookGroup? && HasCommand(g.entries, cmd) {
        var e :| e in g.entries && e.HookEntry? && e.command == cmd;
        assert g == gs[0] || g in gs[1..];
        assert g == gs[0] ==> e in EntriesOf(gs);
      }
      if e :| e in EntriesOf(gs) && e.HookEntry? && e.command == cmd {
        if e !in EntriesOf(gs[1..]) {
          assert gs[0] in gs && HasCommand(gs[0].entries, cmd);
        }
      }
    }
  }

  lemma {:induction false} MentionIsSaid(gs: seq<Group>, needle: string)
    ensures (exists g | g in gs :: g.HookGroup? && exists e | e in g.entries :: Mentions(e, needle)) <==>
      exists e | e in EntriesOf(gs) :: Says(e, needle)
  {
    forall e: Entry ensures Mentions(e, needle) <==> Says(e, needle) {
      if e.HookEntry? { ContainsIff(e.command, needle); }
    }
    if gs != [] {
      MentionIsSaid(gs[1..], needle);
      if g :| g in gs && g.HookGroup? && exists e | e in g.entries :: Mentions(e, needle) {
        var e :| e in g.entries && Mentions(e, needle);
        assert g == gs[0] || g in gs[1..];
        assert g == gs[0] ==> e in EntriesOf(gs);
      }
      if e :| e in EntriesOf(gs) && Says(e, needle) {
        if e !in EntriesOf(gs[1..]) {
          assert gs[0] in gs && Mentions(e, needle);
        }
      }
    }
  }

  /** What doctor finds, on the commands. */
  lemma DoctorFinds(h: HookMap)
    ensures Stale(h) <==> Runs(h, "SessionStart", "bones tasks prime --json")
    ensures Misplaced(h) <==> exists e | e in Entries(h, "PreCompact") :: Says(e, "bones tasks prime")
    ensures Missing(h) <==> !Runs(h, "SessionStart", "bones tasks prime --hook=session-start")
  {
    PresentIsRun(GroupsOf(At(h, "SessionStart")), "bones tasks prime --json");
    PresentIsRun(GroupsOf(At(h, "SessionStart")), "bones tasks prime --hook=session-start");
    MentionIsSaid(GroupsOf(At(h, "PreCompact")), "bones tasks prime");
  }

  ghost predicate HasIt(gs: seq<Group>, cmd: string) {
    exists g | g in gs :: g.HookGroup? && HasCommand(g.entries, cmd)
  }

  /** An add makes its own command present, and no other. */
  lemma AddGroupsPresent(gs: seq<Group>, matcher: string, cmd: string, other: string)
    requires cmd != other
    ensures HasIt(AddGroups(gs, matcher, cmd), cmd)
    ensures HasIt(AddGroups(gs, matcher, cmd), other) ==> HasIt(gs, other)
  {
    var z := AddGroups(gs, matcher, cmd);
    AddInstalls(gs, matcher, cmd);
    InstalledIsPresent(z, matcher, cmd);
    PresentIsRun(z, other);
    PresentIsRun(gs, other);
    if e :| e in EntriesOf(z) && e.HookEntry? && e.command == other {
      AddEntries(gs, matcher, cmd, e);
    }
  }

  /** Adding the prime command to SessionStart: present afterwards, and nothing else new. */
  lemma AddPrime(h: HookMap)
    ensures var z := AddHook(h, SessionStart, PrimeMatcher, PrimeCommand);
      && !Missing(z) && (Stale(z) ==> Stale(h)) && At(z, PreCompact) == At(h, PreCompact)
  {
    H.EventsDiffer();
    H.AddAt(h, SessionStart, PrimeMatcher, PrimeCommand, SessionStart);
    H.AddAt(h, SessionStart, PrimeMatcher, PrimeCommand, PreCompact);
    assert JsonNeedle[20] == 'j' && PrimeCommand[20] == 'h';
    AddGroupsPresent(GroupsOf(At(h, SessionStart)), PrimeMatcher, PrimeCommand, JsonNeedle);
  }

  /** Pruning the stale command from SessionStart. */
  lemma PruneJson(h: HookMap)
    ensures var z := PruneEvent(h, SessionStart, JsonNeedle); !Stale(z) && At(z, PreCompact) == At(h, PreCompact)
  {
    var z := PruneEvent(h, SessionStart, JsonNeedle);
    H.EventsDiffer();
    H.PruneAt(h, SessionStart, JsonNeedle, SessionStart);
    H.PruneAt(h, SessionStart, JsonNeedle, PreCompact);
    PruneSlotEntries(At(h, SessionStart), Needle(JsonNeedle));
    DoctorFinds(z);
    if Stale(z) {
      var e :| e in Entries(z, SessionStart) && e.HookEntry? && e.command == JsonNeedle;
      FilterMember(Entries(h, SessionStart), Kept(Needle(JsonNeedle)), e);
      ContainsPrefix(JsonNeedle, JsonNeedle);
    }
  }

  /** Pruning PreCompact. */
  lemma PrunePreCompact(h: HookMap)
    ensures var z := PruneEvent(h, PreCompact, PrimeNeedle); !Misplaced(z) && At(z, SessionStart) == At(h, SessionStart)
  {
    H.EventsDiffer();
    H.PruneAt(h, PreCompact, PrimeNeedle, PreCompact);
    H.PruneAt(h, PreCompact, PrimeNeedle, SessionStart);
    H.PreCompactIsClean(At(h, PreCompact));
  }

  /** Doctor heals: afterwards no fault is left, so a second doctor finds nothing to do. */
  lemma DoctorHeals(h: HookMap)
    ensures var z := Doctor(h).0;
      !Stale(z) && !Misplaced(z) && !Missing(z) && Doctor(z) == (z, 0)
  {
    PruneJson(h);
    AddPrime(PruneEvent(h, SessionStart, JsonNeedle));
    var h1 := FixStale(h);
    assert !Stale(h1);
    PrunePreCompact(h1);
    var h2 := FixMisplaced(h1);
    assert !Stale(h2) && !Misplaced(h2);
    AddPrime(h2);
  }

  /** How many rewrites doctor makes: one for a stale command, one for misplaced ones, and
      one for a missing prime command that replacing the stale one does not bring. */
  lemma DoctorCounts(h: HookMap)
    ensures Doctor(h).1 == (if Stale(h) then 1 else 0) + (if Misplaced(h) then 1 else 0)
                         + (if Missing(h) && !Stale(h) then 1 else 0)
  {
    PruneJson(h);
    AddPrime(PruneEvent(h, SessionStart, JsonNeedle));
    PrunePreCompact(FixStale(h));
  }
}
