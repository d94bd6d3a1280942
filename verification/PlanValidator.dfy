/** cli/validate_plan.go: when checkTasks reports nothing, slots own disjoint
    parts of the tree. Go's map iteration order is a free choice in the loops. */
module PlanValidator {
  import opened Paths

  datatype TaskInfo = TaskInfo(heading: string, slot: string, files: seq<string>, line: nat)

  datatype Violation =
    | MissingSlot(line: nat, heading: string)
    | NoComponent(line: nat, file: string, slot: string)
    | SlotMoved(line: nat, slot: string, existing: string, dir: string)
    | Overlap(slot: string, otherSlot: string, dir: string, otherDir: string)
    | OutsideSlot(line: nat, file: string, want: string, slot: string)

  // ----- slot directories -----

  /** The last component equal to name, or -1. */
  function LastIndex(parts: seq<string>, name: string): (i: int)
    ensures -1 <= i < |parts| && (i >= 0 ==> parts[i] == name)
    ensures i < 0 ==> name !in parts
  {
    if parts == [] then -1
    else if parts[|parts| - 1] == name then |parts| - 1
    else LastIndex(parts[..|parts| - 1], name)
  }

  function SlotDir(p: string, slot: string): string {
    var i := LastIndex(Split(p), slot);
    if i < 0 then "" else Join(Split(p)[..i + 1])
  }

  method ComputeSlotDir(p: string, slot: string) returns (dir: string)
    ensures dir == SlotDir(p, slot)
  {
    var parts := Split(p);
    var lastIdx := -1;
    for i := 0 to |parts|
      invariant lastIdx == LastIndex(parts[..i], slot)
    {
      assert parts[..i + 1][..i] == parts[..i];
      if parts[i] == slot { lastIdx := i; }
    }
    assert parts[..|parts|] == parts;
    if lastIdx < 0 { return ""; }
    dir := Join(parts[..lastIdx + 1]);
  }

  predicate DirOverlap(a: string, b: string) {
    a == b || b + "/" <= a + "/" || a + "/" <= b + "/"
  }

  /** A slot directory is a component prefix of the file, ends in the slot's
      name, and is empty only when no component matches. */
  lemma SlotDirShape(p: string, slot: string)
    requires slot != ""
    ensures var i := LastIndex(Split(p), slot);
      if i < 0 then SlotDir(p, slot) == "" && slot !in Split(p)
      else Split(SlotDir(p, slot)) == Split(p)[..i + 1] && Split(p)[i] == slot && SlotDir(p, slot) != ""
  {
    var i := LastIndex(Split(p), slot);
    if i >= 0 {
      SplitPlain(p);
      SplitJoin(Split(p)[..i + 1]);
      assert Split("") == [""];
      assert Split(p)[..i + 1][i] == slot;
    }
  }

  lemma OverlapIsComponents(a: string, b: string)
    ensures DirOverlap(a, b) <==> Split(a) <= Split(b) || Split(b) <= Split(a)
  {
    PrefixIsComponentPrefix(a, b);
    PrefixIsComponentPrefix(b, a);
  }

  // ----- what a clean plan is -----

  function Dir(t: TaskInfo): string {
    if t.files == [] then "" else SlotDir(t.files[0], t.slot)
  }

  ghost predicate Slotted(tasks: seq<TaskInfo>) {
    forall t | t in tasks :: t.slot != ""
  }

  predicate Placed(t: TaskInfo) {
    t.slot != "" && t.files != []
  }

  /** Every task with files lies in a directory of its slot, one per slot. */
  ghost predicate OneDir(tasks: seq<TaskInfo>, dir: TaskInfo -> string) {
    && (forall t | t in tasks && Placed(t) :: dir(t) != "")
    && (forall t, u | t in tasks && u in tasks && Placed(t) && Placed(u) && t.slot == u.slot :: dir(t) == dir(u))
  }

  ghost predicate OneDirPerSlot(tasks: seq<TaskInfo>) {
    OneDir(tasks, Dir)
  }

  ghost predicate DirsApart(tasks: seq<TaskInfo>) {
    forall t, u | t in tasks && u in tasks && Placed(t) && Placed(u) && t.slot != u.slot :: !DirOverlap(Dir(t), Dir(u))
  }

  ghost predicate FilesInside(tasks: seq<TaskInfo>) {
    forall t, f | t in tasks && t.slot != "" && f in t.files :: SlotDir(f, t.slot) == Dir(t)
  }

  ghost predicate CleanPlan(tasks: seq<TaskInfo>) {
    Slotted(tasks) && OneDirPerSlot(tasks) && DirsApart(tasks) && FilesInside(tasks)
  }

  // ----- what a report says -----

  /** A task with files puts the slot in this directory. */
  ghost predicate SlotAt(tasks: seq<TaskInfo>, slot: string, dir: string) {
    exists t | t in tasks :: Placed(t) && t.slot == slot && Dir(t) == dir
  }

  /** The violation is there in the plan, under the line, slot and file it names. */
  ghost predicate IsTrue(tasks: seq<TaskInfo>, v: Violation) {
    match v
    case MissingSlot(line, heading) =>
      exists t | t in tasks :: t.slot == "" && t.line == line && t.heading == heading
    case NoComponent(line, file, slot) =>
      exists t | t in tasks :: t.line == line && t.slot == slot && slot != "" && file in t.files && slot !in Split(file)
    case SlotMoved(line, slot, existing, dir) =>
      && existing != dir && SlotAt(tasks, slot, existing)
      && exists t | t in tasks :: t.line == line && Placed(t) && t.slot == slot && Dir(t) == dir
    case Overlap(slot, otherSlot, dir, otherDir) =>
      slot != otherSlot && SlotAt(tasks, slot, dir) && SlotAt(tasks, otherSlot, otherDir) && DirOverlap(dir, otherDir)
    case OutsideSlot(line, file, want, slot) =>
      && (want == "" || SlotAt(tasks, slot, want))
      && exists t | t in tasks ::
        t.line == line && t.slot == slot && slot != "" && file in t.files && SlotDir(file, slot) != want
  }

  /** Every directory collected is a slot's. */
  ghost predicate Real(tasks: seq<TaskInfo>, dirs: map<string, string>) {
    forall slot | slot in dirs :: SlotAt(tasks, slot, dirs[slot])
  }

  /** What the loop over files may report of a task. */
  lemma OutsideTrue(tasks: seq<TaskInfo>, t: TaskInfo, dirs: map<string, string>, x: Violation)
    requires t in tasks && t.slot != "" && OutsideOf(t, if t.slot in dirs then dirs[t.slot] else "", x)
    ensures Real(tasks, dirs) ==> IsTrue(tasks, x)
  {
  }

  // ----- checkTasks -----

  method CheckSlots(tasks: seq<TaskInfo>) returns (v: seq<Violation>)
    ensures v == [] <==> Slotted(tasks)
    ensures forall x | x in v :: IsTrue(tasks, x)
  {
    v := [];
    for i := 0 to |tasks|
      invariant v == [] <==> Slotted(tasks[..i])
      invariant forall x | x in v :: IsTrue(tasks, x)
    {
      assert tasks[i] in tasks;
      assert tasks[..i + 1] == tasks[..i] + [tasks[i]];
      if tasks[i].slot == "" { v := v + [MissingSlot(tasks[i].line, tasks[i].heading)]; }
    }
    assert tasks[..|tasks|] == tasks;
  }

  /** slotDirs holds exactly the directories of the tasks that have files. */
  ghost predicate Collected(tasks: seq<TaskInfo>, dir: TaskInfo -> string, dirs: map<string, string>) {
    && (forall t | t in tasks && Placed(t) :: t.slot in dirs && dirs[t.slot] == dir(t))
    && (forall s | s in dirs :: s != "" && exists t | t in tasks :: Placed(t) && t.slot == s)
  }

  method CollectDirs(tasks: seq<TaskInfo>) returns (v: seq<Violation>, dirs: map<string, string>)
    ensures v == [] <==> OneDirPerSlot(tasks)
    ensures v == [] ==> Collected(tasks, Dir, dirs)
    ensures Real(tasks, dirs) && forall x | x in v :: IsTrue(tasks, x)
  {
    v, dirs := [], map[];
    for i := 0 to |tasks|
      invariant Collects(tasks[..i], Dir, v == [], dirs)
      invariant Real(tasks, dirs) && forall x | x in v :: IsTrue(tasks, x)
    {
      assert tasks[..i + 1] == tasks[..i] + [tasks[i]];
      var found, after := CollectTask(tasks, tasks[i], dirs);
      CollectStep(tasks[..i], tasks[i], Dir, v == [], dirs, found == [], after);
      v, dirs := v + found, after;
    }
    assert tasks[..|tasks|] == tasks;
  }

  /** The collecting loop so far: nothing reported exactly when there is one directory per
      slot, and then the map has them. */
  ghost predicate Collects(before: seq<TaskInfo>, dir: TaskInfo -> string, none: bool, dirs: map<string, string>) {
    (none <==> OneDir(before, dir)) && (none ==> Collected(before, dir, dirs))
  }

  /** What one task does to the map, and whether it is reported. */
  predicate Collecting(t: TaskInfo, dir: string, dirs: map<string, string>, none: bool, after: map<string, string>) {
    if !Placed(t) then none && after == dirs
    else if dir == "" || (t.slot in dirs && dirs[t.slot] != dir) then !none && after == dirs
    else none && after == dirs[t.slot := dir]
  }

  /** The body of the collecting loop. */
  method CollectTask(tasks: seq<TaskInfo>, t: TaskInfo, dirs: map<string, string>)
    returns (found: seq<Violation>, after: map<string, string>)
    requires t in tasks && Real(tasks, dirs)
    ensures Collecting(t, Dir(t), dirs, found == [], after)
    ensures Real(tasks, after) && forall x | x in found :: IsTrue(tasks, x)
  {
    found, after := [], dirs;
    if t.slot != "" && t.files != [] {
      var dir := ComputeSlotDir(t.files[0], t.slot);
      if dir == "" {
        found := [NoComponent(t.line, t.files[0], t.slot)];
      } else if t.slot in dirs && dirs[t.slot] != dir {
        found := [SlotMoved(t.line, t.slot, dirs[t.slot], dir)];
      } else {
        after := dirs[t.slot := dir];
      }
    }
  }

  lemma CollectStep(before: seq<TaskInfo>, t: TaskInfo, dir: TaskInfo -> string, none: bool, dirs: map<string, string>,
      found: bool, after: map<string, string>)
    requires Collects(before, dir, none, dirs) && Collecting(t, dir(t), dirs, found, after)
    ensures Collects(before + [t], dir, none && found, after)
  {
  }

  /** Owners of the directories stay among the tasks. */
  lemma KeepsOwners(before: seq<TaskInfo>, t: TaskInfo, dir: TaskInfo -> string, dirs: map<string, string>,
      dirs': map<string, string>)
    requires Collected(before, dir, dirs)
    requires forall s | s in dirs' :: s in dirs || (s == t.slot && Placed(t))
    ensures forall s | s in dirs' :: s != "" && exists u | u in before + [t] :: Placed(u) && u.slot == s
  {
    forall s | s in dirs' ensures s != "" && exists u | u in before + [t] :: Placed(u) && u.slot == s {
      if s in dirs {
        var u :| u in before && Placed(u) && u.slot == s;
        assert u in before + [t];
      } else {
        assert t in before + [t];
      }
    }
  }

  /** The overlap loop of checkTasks; the outer and the inner map are walked in
      whatever order comes. */
  method CheckOverlaps(dirs: map<string, string>) returns (v: seq<Violation>)
    ensures v == [] <==> forall s, u | s in dirs && u in dirs && s != u :: !DirOverlap(dirs[s], dirs[u])
    ensures forall x | x in v :: OverlapIn(dirs, x)
  {
    v := [];
    var owners: map<string, string> := map[];
    var todo := dirs.Keys;
    while todo != {}
      invariant todo <= dirs.Keys
      invariant v == [] <==> Apart(dirs, dirs.Keys - todo)
      invariant v == [] ==> Owned(dirs, dirs.Keys - todo, owners)
      invariant (forall d | d in owners :: owners[d] in dirs && dirs[owners[d]] == d) && forall x | x in v ::
        OverlapIn(dirs, x)
    {
      var slot :| slot in todo;
      var found := OverlapsWith(slot, dirs[slot], owners);
      ghost var done := dirs.Keys - todo;
      assert dirs.Keys - (todo - {slot}) == done + {slot};
      v := v + found;
      owners := owners[dirs[slot] := slot];
      todo := todo - {slot};
    }
    assert dirs.Keys - todo == dirs.Keys;
  }

  /** The violation names two slots of the map whose directories overlap. */
  predicate OverlapIn(dirs: map<string, string>, v: Violation) {
    && v.Overlap? && v.slot in dirs && v.otherSlot in dirs && v.slot != v.otherSlot
    && dirs[v.slot] == v.dir && dirs[v.otherSlot] == v.otherDir && DirOverlap(v.dir, v.otherDir)
  }

  ghost predicate Apart(dirs: map<string, string>, slots: set<string>)
    requires slots <= dirs.Keys
  {
    forall s, u | s in slots && u in slots && s != u :: !DirOverlap(dirs[s], dirs[u])
  }

  ghost predicate Owned(dirs: map<string, string>, slots: set<string>, owners: map<string, string>)
    requires slots <= dirs.Keys
  {
    && (forall s | s in slots :: dirs[s] in owners && owners[dirs[s]] == s)
    && (forall d | d in owners :: owners[d] in slots && dirs[owners[d]] == d)
  }

  method OverlapsWith(slot: string, dir: string, owners: map<string, string>) returns (v: seq<Violation>)
    ensures v == [] <==> forall d | d in owners && owners[d] != slot :: !DirOverlap(dir, d)
    ensures forall x | x in v :: OverlapOf(slot, dir, owners, x)
  {
    v := [];
    var todo := owners.Keys;
    while todo != {}
      invariant todo <= owners.Keys
      invariant forall x | x in v :: OverlapOf(slot, dir, owners, x)
      invariant v == [] <==> forall d | d in owners && d !in todo && owners[d] != slot :: !DirOverlap(dir, d)
    {
      var other :| other in todo;
      if owners[other] != slot && DirOverlap(dir, other) {
        v := v + [Overlap(slot, owners[other], dir, other)];
      }
      todo := todo - {other};
    }
  }

  predicate OverlapOf(slot: string, dir: string, owners: map<string, string>, v: Violation) {
    && v.Overlap? && v.slot == slot && v.dir == dir && v.otherDir in owners && owners[v.otherDir] == v.otherSlot
    && slot != v.otherSlot && DirOverlap(dir, v.otherDir)
  }

  method CheckFiles(tasks: seq<TaskInfo>, dirs: map<string, string>) returns (v: seq<Violation>)
    ensures Collected(tasks, Dir, dirs) ==> (v == [] <==> FilesInside(tasks))
    ensures Real(tasks, dirs) ==> forall x | x in v :: IsTrue(tasks, x)
  {
    v := [];
    for i := 0 to |tasks|
      invariant Collected(tasks, Dir, dirs) ==> (v == [] <==> FilesInside(tasks[..i]))
      invariant Real(tasks, dirs) ==> forall x | x in v :: IsTrue(tasks, x)
    {
      var t := tasks[i];
      assert t in tasks;
      assert tasks[..i + 1] == tasks[..i] + [t];
      if t.slot != "" {
        var want := if t.slot in dirs then dirs[t.slot] else "";
        var found := CheckFilesOf(t, want);
        forall x | x in found ensures Real(tasks, dirs) ==> IsTrue(tasks, x) {
          OutsideTrue(tasks, t, dirs, x);
        }
        v := v + found;
      }
    }
    assert tasks[..|tasks|] == tasks;
  }

  predicate OutsideOf(t: TaskInfo, want: string, v: Violation) {
    && v.OutsideSlot? && v.line == t.line && v.want == want && v.slot == t.slot
    && v.file in t.files && SlotDir(v.file, t.slot) != want
  }

  method CheckFilesOf(t: TaskInfo, want: string) returns (v: seq<Violation>)
    ensures v == [] <==> forall f | f in t.files :: SlotDir(f, t.slot) == want
    ensures forall x | x in v :: OutsideOf(t, want, x)
  {
    v := [];
    for j := 0 to |t.files|
      invariant forall x | x in v :: OutsideOf(t, want, x)
      invariant v == [] <==> forall f | f in t.files[..j] :: SlotDir(f, t.slot) == want
    {
      assert t.files[..j + 1] == t.files[..j] + [t.files[j]];
      var got := ComputeSlotDir(t.files[j], t.slot);
      if got != want { v := v + [OutsideSlot(t.line, t.files[j], want, t.slot)]; }
    }
    assert t.files[..|t.files|] == t.files;
  }

  /** checkTasks reports nothing exactly for the clean plans, in whatever order
      Go walks its maps, and whatever it reports is there in the plan. */
  method CheckTasks(tasks: seq<TaskInfo>) returns (violations: seq<Violation>)
    ensures violations == [] <==> CleanPlan(tasks)
    ensures forall x | x in violations :: IsTrue(tasks, x)
  {
    var slots := CheckSlots(tasks);
    var collect, dirs := CollectDirs(tasks);
    var overlaps := CheckOverlaps(dirs);
    var files := CheckFiles(tasks, dirs);
    violations := slots + collect + overlaps + files;
  }

  // ----- soundness -----

  /** In a clean plan, files of different slots lie under directories neither of
      which contains the other, so they are different files. */
  lemma SlotsAreDisjoint(tasks: seq<TaskInfo>, t: TaskInfo, u: TaskInfo, f: string, g: string)
    requires CleanPlan(tasks) && t in tasks && u in tasks && t.slot != u.slot && f in t.files && g in u.files
    ensures var d, e := Split(SlotDir(f, t.slot)), Split(SlotDir(g, u.slot));
      && d <= Split(f) && e <= Split(g)
      && !(d <= e) && !(e <= d)
      && f != g
  {
    SlotDirShape(f, t.slot);
    SlotDirShape(g, u.slot);
    OverlapIsComponents(Dir(t), Dir(u));
  }

  // ----- clean plans, said of the files -----

  /** d is the part of f up to the last component that is the slot's name. */
  predicate IsDirOf(d: seq<string>, f: string, slot: string) {
    d <= Split(f) && d != [] && d[|d| - 1] == slot && slot !in Split(f)[|d|..]
  }

  lemma IsDirOfIsLast(d: seq<string>, f: string, slot: string)
    requires IsDirOf(d, f, slot)
    ensures LastIndex(Split(f), slot) == |d| - 1 && d == Split(f)[..|d|]
  {
    var rest := Split(f)[|d|..];
    assert Split(f) == d + rest;
    LastIndexAppend(d, rest, slot);
  }

  lemma LastIsDirOf(f: string, slot: string)
    requires LastIndex(Split(f), slot) >= 0
    ensures IsDirOf(Split(f)[..LastIndex(Split(f), slot) + 1], f, slot)
  {
    var i := LastIndex(Split(f), slot);
    forall j | i < j < |Split(f)| ensures Split(f)[j] != slot {
      LastIndexIsLast(Split(f), slot, j);
    }
  }

  lemma IsDirIff(d: seq<string>, f: string, slot: string)
    requires slot != ""
    ensures IsDirOf(d, f, slot) <==> SlotDir(f, slot) != "" && d == Split(SlotDir(f, slot))
  {
    SlotDirShape(f, slot);
    if IsDirOf(d, f, slot) {
      IsDirOfIsLast(d, f, slot);
    }
    if SlotDir(f, slot) != "" && d == Split(SlotDir(f, slot)) {
      LastIsDirOf(f, slot);
    }
  }

  /** Files of one slot have a common directory that ends in the slot's name. */
  ghost predicate Together(tasks: seq<TaskInfo>) {
    forall t, u, f, g | t in tasks && u in tasks && t.slot == u.slot && f in t.files && g in u.files ::
      exists d :: IsDirOf(d, f, t.slot) && IsDirOf(d, g, t.slot)
  }

  /** Directories of different slots are not in one another. */
  ghost predicate Separate(tasks: seq<TaskInfo>) {
    forall t, u, f, g, d, e | t in tasks && u in tasks && t.slot != u.slot && f in t.files && g in u.files
        && IsDirOf(d, f, t.slot) && IsDirOf(e, g, u.slot) :: !(d <= e) && !(e <= d)
  }

  lemma CleanIsTogether(tasks: seq<TaskInfo>)
    requires CleanPlan(tasks)
    ensures Together(tasks) && Separate(tasks)
  {
    forall t, u, f, g | t in tasks && u in tasks && t.slot == u.slot && f in t.files && g in u.files
      ensures exists d :: IsDirOf(d, f, t.slot) && IsDirOf(d, g, t.slot)
    {
      assert Placed(t) && Placed(u);
      IsDirIff(Split(Dir(t)), f, t.slot);
      IsDirIff(Split(Dir(t)), g, t.slot);
    }
    forall t, u, f, g, d, e | t in tasks && u in tasks && t.slot != u.slot && f in t.files && g in u.files
      && IsDirOf(d, f, t.slot) && IsDirOf(e, g, u.slot) ensures !(d <= e) && !(e <= d)
    {
      assert Placed(t) && Placed(u);
      IsDirIff(d, f, t.slot);
      IsDirIff(e, g, u.slot);
      OverlapIsComponents(Dir(t), Dir(u));
    }
  }

  lemma SameDir(tasks: seq<TaskInfo>, t: TaskInfo, u: TaskInfo, f: string, g: string)
    requires Slotted(tasks) && Together(tasks) && t in tasks && u in tasks && t.slot == u.slot && f in t.files
      && g in u.files
    ensures SlotDir(f, t.slot) == SlotDir(g, t.slot) != ""
  {
    var d :| IsDirOf(d, f, t.slot) && IsDirOf(d, g, t.slot);
    IsDirIff(d, f, t.slot);
    IsDirIff(d, g, t.slot);
    JoinSplit(SlotDir(f, t.slot));
    JoinSplit(SlotDir(g, t.slot));
  }

  lemma TogetherIsClean(tasks: seq<TaskInfo>)
    requires Slotted(tasks) && Together(tasks) && Separate(tasks)
    ensures CleanPlan(tasks)
  {
    forall t, u | t in tasks && u in tasks && Placed(t) && Placed(u) && t.slot == u.slot
      ensures Dir(t) == Dir(u) != "" {
      assert t.files[0] in t.files && u.files[0] in u.files;
      SameDir(tasks, t, u, t.files[0], u.files[0]);
    }
    forall t, f | t in tasks && t.slot != "" && f in t.files ensures SlotDir(f, t.slot) == Dir(t) {
      assert t.files[0] in t.files;
      SameDir(tasks, t, t, f, t.files[0]);
    }
    forall t, u | t in tasks && u in tasks && Placed(t) && Placed(u) && t.slot != u.slot
      ensures !DirOverlap(Dir(t), Dir(u)) {
      assert t.files[0] in t.files && u.files[0] in u.files;
      SameDir(tasks, t, t, t.files[0], t.files[0]);
      SameDir(tasks, u, u, u.files[0], u.files[0]);
      IsDirIff(Split(Dir(t)), t.files[0], t.slot);
      IsDirIff(Split(Dir(u)), u.files[0], u.slot);
      OverlapIsComponents(Dir(t), Dir(u));
    }
  }

  /** A plan passes exactly when every task has a slot, the files of each slot lie in one
      directory that ends in its name, and no such directory lies in another slot's. */
  lemma CleanPlanIff(tasks: seq<TaskInfo>)
    ensures CleanPlan(tasks) <==> (forall t | t in tasks :: t.slot != "") && Together(tasks) && Separate(tasks)
  {
    if CleanPlan(tasks) {
      CleanIsTogether(tasks);
    }
    if (forall t | t in tasks :: t.slot != "") && Together(tasks) && Separate(tasks) {
      TogetherIsClean(tasks);
    }
  }

  /** After its last index a name does not occur. */
  lemma {:induction false} LastIndexIsLast(parts: seq<string>, name: string, j: nat)
    requires LastIndex(parts, name) < j < |parts|
    ensures parts[j] != name
  {
    if j < |parts| - 1 {
      LastIndexIsLast(parts[..|parts| - 1], name, j);
    }
  }

  lemma {:induction false} LastIndexAppend(dir: seq<string>, rest: seq<string>, name: string)
    requires dir != [] && dir[|dir| - 1] == name && name !in rest
    ensures LastIndex(dir + rest, name) == |dir| - 1
  {
    if rest == [] {
      assert dir + rest == dir;
    } else {
      var n := |rest| - 1;
      assert rest[n] in rest && name !in rest[..n];
      LastIndexAppend(dir, rest[..n], name);
      assert (dir + rest)[..|dir| + n] == dir + rest[..n];
    }
  }
}
