/** up, doctor and down over whole histories of a settings file. */
module HookHistory {
  import opened Hooks

  lemma PruneAt(h: HookMap, event: string, needle: string, e: string)
    ensures At(PruneEvent(h, event, needle), e) == if e == event then Prune(At(h, e), Needle(needle)) else At(h, e)
  {
  }

  lemma AddAt(h: HookMap, event: string, matcher: string, cmd: string, e: string)
    ensures At(AddHook(h, event, matcher, cmd), e) == if e == event then Add(At(h, e), matcher, cmd) else At(h, e)
  {
  }

  lemma SameEverywhere(a: HookMap, b: HookMap)
    requires forall e :: At(a, e) == At(b, e)
    ensures a == b
  {
    forall e ensures e in a <==> e in b {
      assert At(a, e) == At(b, e);
    }
    forall e | e in a ensures a[e] == b[e] {
      assert At(a, e) == At(b, e);
    }
  }

  lemma EventsDiffer()
    ensures SessionStart != SessionEnd && SessionStart != Stop && SessionStart != PreCompact
    ensures SessionEnd != Stop && SessionEnd != PreCompact && Stop != PreCompact
  {
    assert SessionStart[0] == 'S' && PreCompact[0] == 'P' && Stop[0] == 'S';
    assert |SessionStart| == 12 && |SessionEnd| == 10 && |Stop| == 4;
  }

  // ----- one event at a time -----

  function UpStart(v: Slot): Slot {
    Add(Add(Prune(Prune(v, Needle(BootNeedle)), Needle(JsonNeedle)), PrimeMatcher, PrimeCommand), "", HubCommand)
  }

  function DownStart(v: Slot): Slot {
    Prune(Prune(Prune(v, Needle(BootNeedle)), Needle(HubCommand)), Needle(PrimeNeedle))
  }

  /** Everything down removes from SessionStart. */
  function Bones(): Drop {
    Or(Or(Needle(BootNeedle), Needle(HubCommand)), Needle(PrimeNeedle))
  }

  /** What up and down each do to an event of that name other than SessionStart. */
  function Side(event: string, v: Slot): Slot {
    if event == Stop || event == SessionEnd then Prune(v, Needle(ShutdownNeedle))
    else if event == PreCompact then Prune(v, Needle(PrimeNeedle))
    else v
  }

  lemma UpAt(h: HookMap, e: string)
    ensures At(Up(h), e) == if e == SessionStart then UpStart(At(h, e)) else Side(e, At(h, e))
  {
    EventsDiffer();
    var h1 := PruneEvent(h, SessionStart, BootNeedle);
    var h2 := PruneEvent(h1, Stop, ShutdownNeedle);
    var h3 := PruneEvent(h2, SessionEnd, ShutdownNeedle);
    var h4 := PruneEvent(h3, SessionStart, JsonNeedle);
    var h5 := PruneEvent(h4, PreCompact, PrimeNeedle);
    var h6 := AddHook(h5, SessionStart, PrimeMatcher, PrimeCommand);
    PruneAt(h, SessionStart, BootNeedle, e);
    PruneAt(h1, Stop, ShutdownNeedle, e);
    PruneAt(h2, SessionEnd, ShutdownNeedle, e);
    PruneAt(h3, SessionStart, JsonNeedle, e);
    PruneAt(h4, PreCompact, PrimeNeedle, e);
    AddAt(h5, SessionStart, PrimeMatcher, PrimeCommand, e);
    AddAt(h6, SessionStart, "", HubCommand, e);
  }

  lemma DownAt(h: HookMap, e: string)
    ensures At(Down(h), e) == if e == SessionStart then DownStart(At(h, e)) else Side(e, At(h, e))
  {
    EventsDiffer();
    var h1 := PruneEvent(h, SessionStart, BootNeedle);
    var h2 := PruneEvent(h1, SessionStart, HubCommand);
    var h3 := PruneEvent(h2, SessionStart, PrimeNeedle);
    var h4 := PruneEvent(h3, PreCompact, PrimeNeedle);
    var h5 := PruneEvent(h4, SessionEnd, ShutdownNeedle);
    PruneAt(h, SessionStart, BootNeedle, e);
    PruneAt(h1, SessionStart, HubCommand, e);
    PruneAt(h2, SessionStart, PrimeNeedle, e);
    PruneAt(h3, PreCompact, PrimeNeedle, e);
    PruneAt(h4, SessionEnd, ShutdownNeedle, e);
    PruneAt(h5, Stop, ShutdownNeedle, e);
  }

  lemma DownStartIs(v: Slot)
    ensures DownStart(v) == Prune(v, Bones())
  {
    PruneTwice(v, Needle(BootNeedle), Needle(HubCommand));
    PruneTwice(v, Or(Needle(BootNeedle), Needle(HubCommand)), Needle(PrimeNeedle));
  }

  lemma SideTwice(event: string, v: Slot)
    ensures Side(event, Side(event, v)) == Side(event, v)
  {
    PruneAbsorbed(v, Needle(ShutdownNeedle), Needle(ShutdownNeedle));
    PruneAbsorbed(v, Needle(PrimeNeedle), Needle(PrimeNeedle));
  }

  predicate IsArray(v: Slot) {
    v.Present? ==> v.value.Groups?
  }

  /** On SessionStart down forgets that up ran: first the two adds, then the prunings. */
  lemma BonesForgetsAdds(v: Slot)
    requires IsArray(v)
    ensures Prune(Add(Add(v, PrimeMatcher, PrimeCommand), "", HubCommand), Bones()) == Prune(v, Bones())
  {
    JsonIsPrime();
    PruneUndoesAdd(Add(v, PrimeMatcher, PrimeCommand), "", HubCommand, Bones());
    PruneUndoesAdd(v, PrimeMatcher, PrimeCommand, Bones());
  }

  lemma BonesForgetsPrunes(v: Slot)
    ensures Prune(Prune(Prune(v, Needle(BootNeedle)), Needle(JsonNeedle)), Bones()) == Prune(v, Bones())
  {
    JsonIsPrime();
    PruneAbsorbed(Prune(v, Needle(BootNeedle)), Needle(JsonNeedle), Bones());
    PruneAbsorbed(v, Needle(BootNeedle), Bones());
  }

  lemma DownUpStart(v: Slot)
    requires IsArray(v)
    ensures DownStart(UpStart(v)) == DownStart(v)
  {
    var v1 := Prune(v, Needle(BootNeedle));
    DownStartIs(v);
    DownStartIs(UpStart(v));
    BonesForgetsAdds(Prune(v1, Needle(JsonNeedle)));
    BonesForgetsPrunes(v);
  }

  /** down after up gives the hooks down alone gives, exactly when SessionStart is
      absent or an array: up replaces any other value there. */
  lemma DownUndoesUp(h: HookMap)
    ensures Down(Up(h)) == Down(h) <==> IsArray(At(h, SessionStart))
  {
    forall e ensures e != SessionStart || IsArray(At(h, e)) ==> At(Down(Up(h)), e) == At(Down(h), e) {
      UpAt(h, e);
      DownAt(h, e);
      DownAt(Up(h), e);
      if e != SessionStart {
        SideTwice(e, At(h, e));
      } else if IsArray(At(h, e)) {
        DownUpStart(At(h, e));
      }
    }
    if IsArray(At(h, SessionStart)) {
      SameEverywhere(Down(Up(h)), Down(h));
    } else {
      UpAt(h, SessionStart);
      DownAt(h, SessionStart);
      DownAt(Up(h), SessionStart);
      DownStartIs(UpStart(At(h, SessionStart)));
      assert At(Down(h), SessionStart) == At(h, SessionStart);
      assert IsArray(At(Down(Up(h)), SessionStart));
    }
  }

  // ----- up is idempotent -----

  ghost predicate UpToDate(gs: seq<Group>) {
    && Tidy(gs, Needle(BootNeedle)) && Tidy(gs, Needle(JsonNeedle))
    && Installed(gs, PrimeMatcher, PrimeCommand) && Installed(gs, "", HubCommand)
  }

  lemma UpMakesUpToDate(v: Slot)
    ensures IsArray(UpStart(v)) && UpToDate(GroupsOf(UpStart(v)))
  {
    PrimeIsSpared();
    var boot, json := Needle(BootNeedle), Needle(JsonNeedle);
    var g0 := GroupsOf(v);
    var g1 := PruneGroups(g0, boot);
    var g2 := PruneGroups(g1, json);
    PruneMakesTidy(g0, boot, boot);
    PruneMakesTidy(g1, json, boot);
    assert GroupsOf(Prune(Prune(v, boot), json)) == g2;
    var g3 := AddGroups(g2, PrimeMatcher, PrimeCommand);
    AddKeepsTidy(g2, PrimeMatcher, PrimeCommand, boot);
    AddKeepsTidy(g2, PrimeMatcher, PrimeCommand, json);
    AddInstalls(g2, PrimeMatcher, PrimeCommand);
    AddKeepsTidy(g3, "", HubCommand, boot);
    AddKeepsTidy(g3, "", HubCommand, json);
    AddInstalls(g3, "", HubCommand);
    AddKeepsInstalled(g3, PrimeMatcher, PrimeCommand, "", HubCommand);
  }

  lemma UpKeepsUpToDate(v: Slot)
    requires v.Present? && v.value.Groups? && UpToDate(v.value.groups)
    ensures UpStart(v) == v
  {
    var gs := v.value.groups;
    PruneTidy(gs, Needle(BootNeedle));
    PruneTidy(gs, Needle(JsonNeedle));
    AddInstalls(gs, PrimeMatcher, PrimeCommand);
    AddInstalls(gs, "", HubCommand);
  }

  /** up twice is up once, on every settings file. */
  lemma UpTwice(h: HookMap)
    ensures Up(Up(h)) == Up(h)
  {
    forall e ensures At(Up(Up(h)), e) == At(Up(h), e) {
      UpAt(h, e);
      UpAt(Up(h), e);
      if e == SessionStart {
        UpMakesUpToDate(At(h, e));
        UpKeepsUpToDate(UpStart(At(h, e)));
      } else {
        SideTwice(e, At(h, e));
      }
    }
    SameEverywhere(Up(Up(h)), Up(h));
  }

  // ----- doctor -----

  lemma PreCompactIsClean(v: Slot)
    ensures !AnyMention(Prune(v, Needle(PrimeNeedle)), PrimeNeedle)
  {
    PruneMakesTidy(GroupsOf(v), Needle(PrimeNeedle), Needle(PrimeNeedle));
  }

  /** doctor's migration finds nothing to rewrite right after up. */
  lemma DoctorAfterUp(h: HookMap)
    ensures Doctor(Up(h)) == (Up(h), 0)
  {
    EventsDiffer();
    UpAt(h, SessionStart);
    UpAt(h, PreCompact);
    PreCompactIsClean(At(h, PreCompact));
    UpMakesUpToDate(At(h, SessionStart));
    var gs := GroupsOf(At(Up(h), SessionStart));
    InstalledIsPresent(gs, PrimeMatcher, PrimeCommand);
    assert !CommandPresent(At(Up(h), SessionStart), JsonNeedle) by {
      ContainsPrefix(JsonNeedle, JsonNeedle);
    }
  }

  /** Down forgets an add of the prime command to an array event, and a pruning it would do itself. */
  lemma DownForgetsAdd(h: HookMap)
    requires IsArray(At(h, SessionStart))
    ensures Down(AddHook(h, SessionStart, PrimeMatcher, PrimeCommand)) == Down(h)
    ensures IsArray(At(AddHook(h, SessionStart, PrimeMatcher, PrimeCommand), SessionStart))
  {
    JsonIsPrime();
    var h' := AddHook(h, SessionStart, PrimeMatcher, PrimeCommand);
    forall e ensures At(Down(h'), e) == At(Down(h), e) {
      AddAt(h, SessionStart, PrimeMatcher, PrimeCommand, e);
      DownAt(h, e);
      DownAt(h', e);
      if e == SessionStart {
        DownStartIs(At(h, e));
        DownStartIs(At(h', e));
        PruneUndoesAdd(At(h, e), PrimeMatcher, PrimeCommand, Bones());
      }
    }
    SameEverywhere(Down(h'), Down(h));
  }

  lemma DownForgetsPrune(h: HookMap, event: string, needle: string)
    requires (event == SessionStart && needle == JsonNeedle) || (event == PreCompact && needle == PrimeNeedle)
    ensures Down(PruneEvent(h, event, needle)) == Down(h)
    ensures IsArray(At(h, SessionStart)) ==> IsArray(At(PruneEvent(h, event, needle), SessionStart))
  {
    JsonIsPrime();
    EventsDiffer();
    var h' := PruneEvent(h, event, needle);
    forall e ensures At(Down(h'), e) == At(Down(h), e) {
      PruneAt(h, event, needle, e);
      DownAt(h, e);
      DownAt(h', e);
      if e == SessionStart {
        DownStartIs(At(h, e));
        DownStartIs(At(h', e));
        PruneAbsorbed(At(h, e), Needle(JsonNeedle), Bones());
      } else if e == PreCompact {
        PruneAbsorbed(At(h, e), Needle(PrimeNeedle), Needle(PrimeNeedle));
      }
    }
    SameEverywhere(Down(h'), Down(h));
    PruneAt(h, event, needle, SessionStart);
  }

  lemma DownUndoesRepairs(h: HookMap)
    requires IsArray(At(h, SessionStart))
    ensures Down(FixStale(h)) == Down(h) && IsArray(At(FixStale(h), SessionStart))
    ensures Down(FixMisplaced(h)) == Down(h) && IsArray(At(FixMisplaced(h), SessionStart))
    ensures Down(FixMissing(h)) == Down(h) && IsArray(At(FixMissing(h), SessionStart))
  {
    DownForgetsPrune(h, SessionStart, JsonNeedle);
    DownForgetsPrune(h, PreCompact, PrimeNeedle);
    DownForgetsAdd(PruneEvent(h, SessionStart, JsonNeedle));
    DownForgetsAdd(h);
  }

  lemma DoctorOnArray(h: HookMap)
    requires IsArray(At(h, SessionStart))
    ensures Down(Doctor(h).0) == Down(h) && IsArray(At(Doctor(h).0, SessionStart))
  {
    DownUndoesRepairs(h);
    DownUndoesRepairs(FixStale(h));
    DownUndoesRepairs(FixMisplaced(FixStale(h)));
  }

  /** Down neither makes nor unmakes an array at SessionStart. */
  lemma DownKeepsKind(h: HookMap)
    ensures IsArray(At(Down(h), SessionStart)) <==> IsArray(At(h, SessionStart))
  {
    DownAt(h, SessionStart);
    DownStartIs(At(h, SessionStart));
  }

  /** down after doctor gives the hooks down alone gives, exactly when SessionStart
      is absent or an array. */
  lemma DownUndoesDoctor(h: HookMap)
    ensures Down(Doctor(h).0) == Down(h) <==> IsArray(At(h, SessionStart))
  {
    if IsArray(At(h, SessionStart)) {
      DoctorOnArray(h);
    } else {
      DownKeepsKind(h);
      DownKeepsKind(Doctor(h).0);
    }
  }

  lemma DownTwice(h: HookMap)
    ensures Down(Down(h)) == Down(h)
    ensures IsArray(At(h, SessionStart)) ==> IsArray(At(Down(h), SessionStart))
  {
    forall e ensures At(Down(Down(h)), e) == At(Down(h), e) {
      DownAt(h, e);
      DownAt(Down(h), e);
      DownStartIs(At(h, e));
      DownStartIs(DownStart(At(h, e)));
      PruneAbsorbed(At(h, e), Bones(), Bones());
      SideTwice(e, At(h, e));
    }
    SameEverywhere(Down(Down(h)), Down(h));
    DownAt(h, SessionStart);
    DownStartIs(At(h, SessionStart));
  }

  // ----- what down leaves of a user's file -----

  function Nothing(): Drop { (e: Entry) => false }

  /** The settings with empty groups, and events left empty, taken out of the four
      events bones looks at. */
  function WithoutEmptyGroups(event: string, v: Slot): Slot {
    if event in {SessionStart, SessionEnd, Stop, PreCompact} then Prune(v, Nothing()) else v
  }

  lemma PruneNothing(v: Slot, needle: string)
    requires !AnyMention(v, needle)
    ensures Prune(v, Needle(needle)) == Prune(v, Nothing())
  {
    PruneGroupsSame(GroupsOf(v), Needle(needle), Nothing());
  }

  lemma PruneNoBones(v: Slot)
    requires !AnyMention(v, BootNeedle) && !AnyMention(v, HubCommand) && !AnyMention(v, PrimeNeedle)
    ensures DownStart(v) == Prune(v, Nothing())
  {
    DownStartIs(v);
    forall g, e | g in GroupsOf(v) && g.HookGroup? && e in g.entries ensures !Bones()(e) {
      assert !Mentions(e, BootNeedle) && !Mentions(e, HubCommand) && !Mentions(e, PrimeNeedle);
    }
    PruneGroupsSame(GroupsOf(v), Bones(), Nothing());
  }

  /** Down takes nothing but empty groups from a file in which no command of those
      events mentions a bones needle. */
  lemma DownSparesTheUser(h: HookMap, event: string)
    requires !AnyMention(At(h, event), BootNeedle) && !AnyMention(At(h, event), HubCommand)
    requires !AnyMention(At(h, event), PrimeNeedle) && !AnyMention(At(h, event), ShutdownNeedle)
    ensures At(Down(h), event) == WithoutEmptyGroups(event, At(h, event))
  {
    DownAt(h, event);
    PruneNoBones(At(h, event));
    PruneNothing(At(h, event), ShutdownNeedle);
    PruneNothing(At(h, event), PrimeNeedle);
  }
}
