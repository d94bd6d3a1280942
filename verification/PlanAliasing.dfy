/** What the plan validator does not see: it compares components as they are
    spelled, and two spellings can name one file. */
module PlanAliasing {
  import opened Paths
  import opened PlanValidator

  // ----- filepath.Clean -----

  /** A cleaned path: rooted or not, the ".." it starts with, then names. */
  datatype Location = Location(rooted: bool, ups: nat, names: seq<string>)

  /** One more component: "" and "." stay, ".." goes up, a name goes down. */
  function Enter(at: Location, part: string): Location {
    if part == "" || part == "." then at
    else if part != ".." then at.(names := at.names + [part])
    else if at.names != [] then at.(names := at.names[..|at.names| - 1])
    else if at.rooted then at
    else at.(ups := at.ups + 1)
  }

  function Walk(at: Location, parts: seq<string>): Location
    decreases |parts|
  {
    if parts == [] then at else Walk(Enter(at, parts[0]), parts[1..])
  }

  /** The components of a path that begins with a slash. */
  predicate Rooted(parts: seq<string>) {
    |parts| > 1 && parts[0] == ""
  }

  function Clean(p: string): Location {
    Walk(Location(Rooted(Split(p)), 0, []), Split(p))
  }

  /** The components that are not skipped. */
  function Names(parts: seq<string>): seq<string> {
    if parts == [] then []
    else (if parts[0] == "" || parts[0] == "." then [] else [parts[0]]) + Names(parts[1..])
  }

  lemma {:induction false} WalkAppend(at: Location, a: seq<string>, b: seq<string>)
    ensures Walk(at, a + b) == Walk(Walk(at, a), b)
    decreases |a|
  {
    if a == [] {
      assert a + b == b;
    } else {
      assert (a + b)[0] == a[0] && (a + b)[1..] == a[1..] + b;
      WalkAppend(Enter(at, a[0]), a[1..], b);
    }
  }

  /** Without ".." a walk only goes down. */
  lemma {:induction false} WalkDown(at: Location, parts: seq<string>)
    requires ".." !in parts
    ensures Walk(at, parts) == at.(names := at.names + Names(parts))
    decreases |parts|
  {
    if parts == [] {
      assert at.names + [] == at.names;
    } else {
      assert parts[0] in parts;
      WalkDown(Enter(at, parts[0]), parts[1..]);
      var head := if parts[0] == "" || parts[0] == "." then [] else [parts[0]];
      assert Enter(at, parts[0]).names == at.names + head;
      assert (at.names + head) + Names(parts[1..]) == at.names + (head + Names(parts[1..]));
    }
  }

  lemma {:induction false} NamesMember(parts: seq<string>, x: string)
    ensures x in Names(parts) <==> x in parts && x != "" && x != "."
  {
    if parts != [] {
      NamesMember(parts[1..], x);
    }
  }

  lemma {:induction false} NamesOfNames(parts: seq<string>)
    requires "" !in parts && "." !in parts
    ensures Names(parts) == parts
  {
    if parts != [] {
      assert parts[0] in parts;
      NamesOfNames(parts[1..]);
    }
  }

  lemma FromStart(rooted: bool, parts: seq<string>)
    requires ".." !in parts
    ensures Walk(Location(rooted, 0, []), parts) == Location(rooted, 0, Names(parts))
  {
    WalkDown(Location(rooted, 0, []), parts);
    assert [] + Names(parts) == Names(parts);
  }

  lemma {:induction false} NamesAppend(a: seq<string>, b: seq<string>)
    ensures Names(a + b) == Names(a) + Names(b)
    decreases |a|
  {
    if a == [] {
      assert a + b == b;
    } else {
      assert (a + b)[0] == a[0] && (a + b)[1..] == a[1..] + b;
      NamesAppend(a[1..], b);
    }
  }

  /** The same without "..": the directory's names, then the rest's. */
  lemma CleanDown(p: string, dir: seq<string>)
    requires dir != [] && dir[|dir| - 1] != "" && dir <= Split(p) && ".." !in Split(p)
    ensures Clean(p) == Location(Rooted(dir), 0, Names(dir) + Names(Split(p)[|dir|..]))
  {
    assert Split(p) == dir + Split(p)[|dir|..];
    assert Rooted(Split(p)) == Rooted(dir);
    FromStart(Rooted(dir), Split(p));
    NamesAppend(dir, Split(p)[|dir|..]);
  }

  // ----- which directories collide -----

  /** A slot name as the plan grammar has it, and a directory that ends in it. */
  predicate SlotPath(dir: seq<string>, slot: string) {
    && slot != "" && slot != "." && slot != ".." && '/' !in slot
    && dir != [] && Plain(dir) && dir[|dir| - 1] == slot
  }

  /** One directory really lies in the other, and the outer slot's name does not
      come up again on the way down. */
  predicate Collide(d: seq<string>, s: string, e: seq<string>, u: string) {
    Rooted(d) == Rooted(e) && (Covers(d, s, e) || Covers(e, u, d))
  }

  /** d lies on the way to e, and s is not a name between them. */
  predicate Covers(d: seq<string>, s: string, e: seq<string>) {
    Names(d) <= Names(e) && s !in Names(e)[|Names(d)|..]
  }

  /** A clean plan that gives one file to two of its tasks. */
  ghost predicate Shares(tasks: seq<TaskInfo>, t: TaskInfo, w: TaskInfo, f: string, g: string) {
    CleanPlan(tasks) && t in tasks && w in tasks && f in t.files && g in w.files && Clean(f) == Clean(g)
  }

  /** Some clean plan with slot s in d and slot u in e does so; `up` admits "..". */
  ghost predicate CanShare(d: seq<string>, s: string, e: seq<string>, u: string, up: bool) {
    exists tasks, t, w, f, g :: Shares(tasks, t, w, f, g) && t.slot == s && w.slot == u
      && Split(Dir(t)) == d && Split(Dir(w)) == e && (up || (".." !in Split(f) && ".." !in Split(g)))
  }

  /** A file of a clean plan: its slot directory, then components that are not the slot. */
  lemma FileInDir(tasks: seq<TaskInfo>, t: TaskInfo, f: string)
    requires CleanPlan(tasks) && t in tasks && f in t.files
    ensures var d := Split(Dir(t)); d <= Split(f) && d[|d| - 1] == t.slot && t.slot != "" && t.slot !in Split(f)[|d|..]
  {
    assert Placed(t) && SlotDir(f, t.slot) == Dir(t) != "";
    SlotDirShape(f, t.slot);
    var d := Split(Dir(t));
    forall j | |d| <= j < |Split(f)| ensures Split(f)[j] != t.slot {
      LastIndexIsLast(Split(f), t.slot, j);
    }
  }

  /** What a common continuation of two prefixes says about the longer one. */
  lemma Overhang(d: seq<string>, r: seq<string>, e: seq<string>, q: seq<string>, s: string)
    requires d + r == e + q && |d| <= |e| && s !in r
    ensures d <= e && s !in e[|d|..]
  {
    assert d == (d + r)[..|d|] == (e + q)[..|d|] == e[..|d|];
    forall x | x in e[|d|..] ensures x in r {
      var i :| 0 <= i < |e| - |d| && e[|d|..][i] == x;
      assert (e + q)[|d| + i] == x && (d + r)[|d| + i] == r[i];
    }
  }

  /** Two directories continued to one place, neither slot named on the way. */
  lemma SameEndCollides(d: seq<string>, r: seq<string>, s: string, e: seq<string>, q: seq<string>, u: string)
    requires Names(d) + r == Names(e) + q && s !in r && u !in q
    ensures Covers(d, s, e) || Covers(e, u, d)
  {
    if |Names(d)| <= |Names(e)| {
      Overhang(Names(d), r, Names(e), q, s);
    } else {
      Overhang(Names(e), q, Names(d), r, u);
    }
  }

  /** The validator is sound for files on disk, ".." apart, when the slot
      directories do not collide. */
  lemma SlotsShareNoFile(tasks: seq<TaskInfo>, t: TaskInfo, u: TaskInfo, f: string, g: string)
    requires CleanPlan(tasks) && t in tasks && u in tasks && f in t.files && g in u.files
    requires ".." !in Split(f) && ".." !in Split(g)
    requires !Collide(Split(Dir(t)), t.slot, Split(Dir(u)), u.slot)
    ensures Clean(f) != Clean(g)
  {
    var d, e := Split(Dir(t)), Split(Dir(u));
    FileInDir(tasks, t, f);
    FileInDir(tasks, u, g);
    var r, q := Split(f)[|d|..], Split(g)[|e|..];
    NamesMember(r, t.slot);
    NamesMember(q, u.slot);
    CleanDown(f, d);
    CleanDown(g, e);
    if Clean(f) == Clean(g) {
      SameEndCollides(d, Names(r), t.slot, e, Names(q), u.slot);
    }
  }

  // ----- plans that share a file -----

  /** A task with one file: the slot directory and what follows it. */
  function TaskAt(dir: seq<string>, slot: string, rest: seq<string>): TaskInfo
    requires dir != []
  {
    TaskInfo("Task", slot, [Join(dir + rest)], 1)
  }

  lemma TaskAtIs(dir: seq<string>, slot: string, rest: seq<string>)
    requires SlotPath(dir, slot) && Plain(rest) && slot !in rest
    ensures var t := TaskAt(dir, slot, rest);
      Placed(t) && Split(t.files[0]) == dir + rest && Split(Dir(t)) == dir && Dir(t) != ""
  {
    SplitJoin(dir + rest);
    LastIndexAppend(dir, rest, slot);
    SlotDirShape(Join(dir + rest), slot);
    assert (dir + rest)[..|dir|] == dir;
  }

  lemma PairIsClean(t: TaskInfo, u: TaskInfo)
    requires Placed(t) && Placed(u) && t.slot != u.slot && |t.files| == |u.files| == 1
    requires Dir(t) != "" && Dir(u) != "" && !DirOverlap(Dir(t), Dir(u)) && !DirOverlap(Dir(u), Dir(t))
    ensures CleanPlan([t, u])
  {
    var tasks := [t, u];
    assert forall x | x in tasks :: x == t || x == u;
    assert Slotted(tasks) && OneDirPerSlot(tasks) && DirsApart(tasks);
    forall x, f | x in tasks && x.slot != "" && f in x.files ensures SlotDir(f, x.slot) == Dir(x) {
      assert f == x.files[0];
    }
  }

  /** Two directories apart, and a continuation of each to the same place. */
  lemma PairAt(d: seq<string>, s: string, r: seq<string>, e: seq<string>, u: string,
      q: seq<string>) returns (t: TaskInfo, w: TaskInfo)
    requires SlotPath(d, s) && SlotPath(e, u) && s != u && !(d <= e) && !(e <= d)
    requires Plain(r) && Plain(q) && s !in r && u !in q
    requires Walk(Location(Rooted(d), 0, []), d + r) == Walk(Location(Rooted(e), 0, []), e + q)
    ensures t.slot == s && t.files == [Join(d + r)] && Split(t.files[0]) == d + r && Split(Dir(t)) == d
    ensures w.slot == u && w.files == [Join(e + q)] && Split(w.files[0]) == e + q && Split(Dir(w)) == e
    ensures Shares([t, w], t, w, t.files[0], w.files[0])
  {
    t, w := TaskAt(d, s, r), TaskAt(e, u, q);
    TaskAtIs(d, s, r);
    TaskAtIs(e, u, q);
    OverlapIsComponents(Dir(t), Dir(w));
    OverlapIsComponents(Dir(w), Dir(t));
    PairIsClean(t, w);
    assert Rooted(d + r) == Rooted(d) && Rooted(e + q) == Rooted(e);
  }

  lemma PairShares(d: seq<string>, s: string, r: seq<string>, e: seq<string>, u: string, q: seq<string>, up: bool)
    requires SlotPath(d, s) && SlotPath(e, u) && s != u && !(d <= e) && !(e <= d)
    requires Plain(r) && Plain(q) && s !in r && u !in q && (up || (".." !in d + r && ".." !in e + q))
    requires Walk(Location(Rooted(d), 0, []), d + r) == Walk(Location(Rooted(e), 0, []), e + q)
    ensures CanShare(d, s, e, u, up)
  {
    var t, w := PairAt(d, s, r, e, u, q);
    assert Shares([t, w], t, w, t.files[0], w.files[0]);
  }

  lemma {:induction false} NamesArePlain(parts: seq<string>)
    requires Plain(parts)
    ensures Plain(Names(parts))
  {
    if parts != [] {
      NamesArePlain(parts[1..]);
    }
  }

  lemma NamesTail(e: seq<string>, n: nat)
    requires ".." !in e && Plain(e) && n <= |Names(e)|
    ensures var r := Names(e)[n..]; Plain(r) && ".." !in r && Names(r) == r
  {
    var r := Names(e)[n..];
    forall x | x in r ensures x in e && x != "" && x != "." { NamesMember(e, x); }
    NamesArePlain(e);
    NamesOfNames(r);
  }

  /** The way from the outer directory down to the inner one. */
  lemma WayDown(rooted: bool, d: seq<string>, e: seq<string>, r: seq<string>)
    requires ".." !in d && ".." !in e && ".." !in r && Names(e) == Names(d) + r && Names(r) == r
    ensures Walk(Location(rooted, 0, []), d + r) == Walk(Location(rooted, 0, []), e)
  {
    NamesAppend(d, r);
    FromStart(rooted, d + r);
    FromStart(rooted, e);
  }

  lemma DownShares(d: seq<string>, s: string, e: seq<string>, u: string, r: seq<string>)
    requires SlotPath(d, s) && SlotPath(e, u) && s != u && ".." !in d && ".." !in e && !(d <= e) && !(e <= d)
    requires Rooted(d) == Rooted(e) && Names(e) == Names(d) + r
    requires Plain(r) && ".." !in r && Names(r) == r && s !in r
    ensures CanShare(d, s, e, u, false)
  {
    assert e + [] == e;
    WayDown(Rooted(d), d, e, r);
    PairShares(d, s, r, e, u, [], false);
  }

  lemma CoveringShares(d: seq<string>, s: string, e: seq<string>, u: string)
    requires SlotPath(d, s) && SlotPath(e, u) && s != u && ".." !in d && ".." !in e && !(d <= e) && !(e <= d)
    requires Rooted(d) == Rooted(e) && Covers(d, s, e)
    ensures CanShare(d, s, e, u, false)
  {
    NamesTail(e, |Names(d)|);
    PrefixAndRest(Names(d), Names(e));
    DownShares(d, s, e, u, Names(e)[|Names(d)|..]);
  }

  lemma PrefixAndRest(a: seq<string>, b: seq<string>)
    requires a <= b
    ensures b == a + b[|a|..]
  {
  }

  lemma SharingIsSymmetric(d: seq<string>, s: string, e: seq<string>, u: string)
    requires CanShare(e, u, d, s, false)
    ensures CanShare(d, s, e, u, false)
  {
    var tasks, t, w, f, g :| Shares(tasks, t, w, f, g) && t.slot == u && w.slot == s
      && Split(Dir(t)) == e && Split(Dir(w)) == d && ".." !in Split(f) && ".." !in Split(g);
    assert Shares(tasks, w, t, g, f);
  }

  /** Without "..", a clean plan with these slot directories can give one file to
      both slots if and only if the directories collide. */
  lemma CanShareIff(d: seq<string>, s: string, e: seq<string>, u: string)
    requires SlotPath(d, s) && SlotPath(e, u) && s != u && ".." !in d && ".." !in e && !(d <= e) && !(e <= d)
    ensures CanShare(d, s, e, u, false) <==> Collide(d, s, e, u)
  {
    if CanShare(d, s, e, u, false) {
      var tasks, t, w, f, g :| Shares(tasks, t, w, f, g) && t.slot == s && w.slot == u
        && Split(Dir(t)) == d && Split(Dir(w)) == e && ".." !in Split(f) && ".." !in Split(g);
      if !Collide(d, s, e, u) {
        SlotsShareNoFile(tasks, t, w, f, g);
      }
    }
    if Rooted(d) == Rooted(e) && Covers(d, s, e) {
      CoveringShares(d, s, e, u);
    } else if Collide(d, s, e, u) {
      CoveringShares(e, u, d, s);
      SharingIsSymmetric(d, s, e, u);
    }
  }

  // ----- ".." -----

  function Ups(n: nat): seq<string> {
    if n == 0 then [] else [".."] + Ups(n - 1)
  }

  /** Going up far enough empties the names and then counts. */
  lemma {:induction false} WalkUp(at: Location, n: nat)
    requires |at.names| <= n
    ensures Walk(at, Ups(n)) == Location(at.rooted, if at.rooted then at.ups else at.ups + n - |at.names|, [])
    decreases n
  {
    if n > 0 {
      assert Ups(n)[0] == ".." && Ups(n)[1..] == Ups(n - 1);
      WalkUp(Enter(at, ".."), n - 1);
    }
  }

  lemma {:induction false} RootedHasNoUps(at: Location, parts: seq<string>)
    ensures Walk(at, parts).rooted == at.rooted && (at.rooted ==> Walk(at, parts).ups == at.ups)
    decreases |parts|
  {
    if parts != [] {
      RootedHasNoUps(Enter(at, parts[0]), parts[1..]);
    }
  }

  lemma {:induction false} UpsAre(n: nat, slot: string)
    requires slot != ".."
    ensures Plain(Ups(n)) && slot !in Ups(n)
  {
    if n > 0 {
      UpsAre(n - 1, slot);
    }
  }

  /** From d, up by its own depth and k more, then down to one name. */
  lemma UpAndAway(d: seq<string>, k: nat, name: string, slot: string) returns (r: seq<string>)
    requires name != "" && name != "." && name != ".." && '/' !in name && slot != ".." && slot != name
    ensures Plain(r) && slot !in r
    ensures var start := Location(Rooted(d), 0, []);
      Walk(start, d + r) == Location(Rooted(d), if Rooted(d) then 0 else Walk(start, d).ups + k, [name])
  {
    var start := Location(Rooted(d), 0, []);
    var at := Walk(start, d);
    var up := Ups(|at.names| + k);
    r := up + [name];
    UpsAre(|at.names| + k, slot);
    WalkAppend(start, d, r);
    WalkAppend(at, up, [name]);
    RootedHasNoUps(start, d);
    WalkUp(at, |at.names| + k);
    assert Walk(Walk(at, up), [name]) == Walk(Enter(Walk(at, up), name), [name][1..]);
  }

  /** With ".." admitted, any two slot directories can share a file, unless just one
      of them is absolute: the validator then keeps no two slots apart. */
  lemma CanShareWithUpsIff(d: seq<string>, s: string, e: seq<string>, u: string)
    requires SlotPath(d, s) && SlotPath(e, u) && s != u && !(d <= e) && !(e <= d)
    ensures CanShare(d, s, e, u, true) <==> Rooted(d) == Rooted(e)
  {
    if CanShare(d, s, e, u, true) {
      var tasks, t, w, f, g :| Shares(tasks, t, w, f, g) && t.slot == s && w.slot == u && Split(Dir(t)) == d
        && Split(Dir(w)) == e;
      FileInDir(tasks, t, f);
      FileInDir(tasks, w, g);
      RootedHasNoUps(Location(Rooted(Split(f)), 0, []), Split(f));
      RootedHasNoUps(Location(Rooted(Split(g)), 0, []), Split(g));
    }
    if Rooted(d) == Rooted(e) {
      UpsShare(d, s, e, u);
    }
  }

  lemma UpsShare(d: seq<string>, s: string, e: seq<string>, u: string)
    requires SlotPath(d, s) && SlotPath(e, u) && s != u && !(d <= e) && !(e <= d) && Rooted(d) == Rooted(e)
    ensures CanShare(d, s, e, u, true)
  {
    var name := s + u + "x";
    assert |name| > 2 && name != s && name != u;
    var r := UpAndAway(d, Walk(Location(Rooted(e), 0, []), e).ups, name, s);
    var q := UpAndAway(e, Walk(Location(Rooted(d), 0, []), d).ups, name, u);
    PairShares(d, s, r, e, u, q, true);
  }

  // ----- two plans -----

  /** "./x/a/f" for slot x and "x/a/f" for slot a: the directories collide. */
  lemma DotPlanSharesAFile() returns (t: TaskInfo, w: TaskInfo)
    ensures t.slot == "x" && t.files == [Join([".", "x"] + ["a", "f"])]
    ensures w.slot == "a" && w.files == [Join(["x", "a"] + ["f"])]
    ensures Shares([t, w], t, w, t.files[0], w.files[0])
  {
    assert '/' !in "a" && '/' !in "x" && '/' !in "f" && '/' !in ".";
    assert ([".", "x"] + ["a", "f"])[1..] == ["x", "a"] + ["f"];
    assert [".", "x"][0] != ["x", "a"][0];
    t, w := PairAt([".", "x"], "x", ["a", "f"], ["x", "a"], "a", ["f"]);
  }

  /** "a/../x/f" for slot a and "x/f" for slot x: no component is empty or ".". */
  lemma UpPlanSharesAFile() returns (t: TaskInfo, w: TaskInfo)
    ensures t.slot == "a" && t.files == [Join(["a"] + ["..", "x", "f"])]
    ensures w.slot == "x" && w.files == [Join(["x"] + ["f"])]
    ensures Shares([t, w], t, w, t.files[0], w.files[0])
  {
    assert '/' !in "a" && '/' !in "x" && '/' !in "f" && '/' !in "..";
    SameEnd();
    t, w := PairAt(["a"], "a", ["..", "x", "f"], ["x"], "x", ["f"]);
  }

  lemma SameEnd()
    ensures Walk(Location(false, 0, []), ["a"] + ["..", "x", "f"]) == Walk(Location(false, 0, []), ["x"] + ["f"])
  {
    var p := ["a"] + ["..", "x", "f"];
    assert p[1..] == ["..", "x", "f"] && p[1..][1..] == ["x"] + ["f"];
    assert Enter(Enter(Location(false, 0, []), "a"), "..") == Location(false, 0, []);
  }
}
