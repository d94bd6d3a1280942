/** `bones apply` (cli/apply.go): a trunk checkout is copied into the working
    tree, and the last-applied marker decides what is deleted. */
module Apply {
  import opened Sorting

  type Files = map<string, string>

  /** manifestAtRev: the listing of a revision, or an error. */
  datatype Listing = Unknown | Listed(paths: seq<string>)

  type Lookup = string -> Listing

  datatype Plan = Plan(added: seq<string>, modified: seq<string>, deleted: seq<string>)

  /** The working tree and the marker, "" when absent. */
  datatype State = State(tree: Files, marker: string)

  // ----- the plan -----

  predicate New(tree: Files, p: string) { p !in tree }

  predicate Changed(tree: Files, files: Files, p: string) { p in tree && p in files && tree[p] != files[p] }

  predicate Gone(tree: Files, manifest: seq<string>, p: string) { p !in manifest && p in tree }

  function IsNew(tree: Files): string -> bool { (p: string) => New(tree, p) }

  function IsChanged(tree: Files, files: Files): string -> bool { (p: string) => Changed(tree, files, p) }

  function IsGone(tree: Files, manifest: seq<string>): string -> bool { (p: string) => Gone(tree, manifest, p) }

  function Classify(tree: Files, files: Files, manifest: seq<string>, prev: seq<string>): Plan {
    Plan(Filter(manifest, IsNew(tree)), Filter(manifest, IsChanged(tree, files)), Filter(prev, IsGone(tree, manifest)))
  }

  /** A scan of a checkout names exactly its files. */
  ghost predicate Scan(manifest: seq<string>, files: Files) {
    forall p :: p in manifest <==> p in files
  }

  predicate Empty(plan: Plan) {
    plan.added == [] && plan.modified == [] && plan.deleted == []
  }

  /** What the tree should hold: the checkout, and everything else but the paths
      the previous listing names. */
  function Landed(tree: Files, files: Files, prev: seq<string>): Files {
    (map p | p in tree && p !in prev :: tree[p]) + files
  }

  /** classifyDiff. */
  method ClassifyDiff(tree: Files, files: Files, manifest: seq<string>, prev: seq<string>) returns (plan: Plan)
    requires forall p | p in manifest :: p in files
    ensures plan == Classify(tree, files, manifest, prev)
  {
    var added, modified := [], [];
    for i := 0 to |manifest|
      invariant added == Filter(manifest[..i], IsNew(tree))
      invariant modified == Filter(manifest[..i], IsChanged(tree, files))
    {
      var p := manifest[i];
      assert manifest[..i + 1] == manifest[..i] + [p];
      FilterAppend(manifest[..i], [p], IsNew(tree));
      FilterAppend(manifest[..i], [p], IsChanged(tree, files));
      if p !in tree {
        added := added + [p];
      } else if files[p] != tree[p] {
        modified := modified + [p];
      }
    }
    assert manifest[..|manifest|] == manifest;
    var deleted := Deletions(tree, manifest, prev);
    plan := Plan(added, modified, deleted);
  }

  method Deletions(tree: Files, manifest: seq<string>, prev: seq<string>) returns (deleted: seq<string>)
    ensures deleted == Filter(prev, IsGone(tree, manifest))
  {
    deleted := [];
    var current: set<string> := {};
    for i := 0 to |manifest|
      invariant forall p :: p in current <==> p in manifest[..i]
    {
      current := current + {manifest[i]};
    }
    for i := 0 to |prev|
      invariant deleted == Filter(prev[..i], IsGone(tree, manifest))
    {
      assert prev[..i + 1] == prev[..i] + [prev[i]];
      FilterAppend(prev[..i], [prev[i]], IsGone(tree, manifest));
      if prev[i] !in current && prev[i] in tree {
        deleted := deleted + [prev[i]];
      }
    }
    assert prev[..|prev|] == prev;
  }

  /** The plan's lists, by membership. */
  lemma PlanMember(tree: Files, files: Files, manifest: seq<string>, prev: seq<string>, p: string)
    requires Scan(manifest, files)
    ensures var plan := Classify(tree, files, manifest, prev);
      && (p in plan.added <==> p in files && p !in tree)
      && (p in plan.modified <==> p in files && p in tree && tree[p] != files[p])
      && (p in plan.deleted <==> p in prev && p !in files && p in tree)
  {
    FilterMember(manifest, IsNew(tree), p);
    FilterMember(manifest, IsChanged(tree, files), p);
    FilterMember(prev, IsGone(tree, manifest), p);
  }

  /** No path is in two lists, and exactly the paths that differ are in one. */
  lemma PlanTouchesWhatDiffers(tree: Files, files: Files, manifest: seq<string>, prev: seq<string>, p: string)
    requires Scan(manifest, files)
    ensures var plan := Classify(tree, files, manifest, prev); var target := Landed(tree, files, prev);
      && !(p in plan.added && p in plan.modified) && !(p in plan.added && p in plan.deleted)
        && !(p in plan.modified && p in plan.deleted)
      && (p in plan.added || p in plan.modified || p in plan.deleted <==>
          (p in tree) != (p in target) || (p in tree && tree[p] != target[p]))
  {
    PlanMember(tree, files, manifest, prev, p);
  }

  /** The plan is empty exactly when the tree is already as it should be. */
  lemma EmptyIffLanded(tree: Files, files: Files, manifest: seq<string>, prev: seq<string>)
    requires Scan(manifest, files)
    ensures Empty(Classify(tree, files, manifest, prev)) <==> tree == Landed(tree, files, prev)
  {
    var plan := Classify(tree, files, manifest, prev);
    var target := Landed(tree, files, prev);
    forall p ensures (p in plan.added || p in plan.modified || p in plan.deleted) <==>
      ((p in tree) != (p in target) || (p in tree && tree[p] != target[p])) {
      PlanTouchesWhatDiffers(tree, files, manifest, prev, p);
    }
    if tree == target {
      NoMembers(plan.added);
      NoMembers(plan.modified);
      NoMembers(plan.deleted);
    }
  }

  lemma NoMembers(s: seq<string>)
    ensures (forall p :: p !in s) ==> s == []
  {
    if s != [] {
      assert s[0] in s;
    }
  }

  /** Classifying again right after an apply finds nothing, against the old
      listing and against that of the revision just applied. */
  lemma ClassifyAgainIsEmpty(tree: Files, files: Files, manifest: seq<string>, prev: seq<string>)
    requires Scan(manifest, files)
    ensures Empty(Classify(Landed(tree, files, prev), files, manifest, prev))
    ensures Empty(Classify(Landed(tree, files, prev), files, manifest, manifest))
  {
    var now := Landed(tree, files, prev);
    assert Landed(now, files, prev) == now && Landed(now, files, manifest) == now;
    EmptyIffLanded(now, files, manifest, prev);
    EmptyIffLanded(now, files, manifest, manifest);
  }

  // ----- one apply -----

  /** isFossilHexRev. */
  predicate IsHexRev(s: string) {
    |s| == 40 && forall c | c in s :: '0' <= c <= '9' || 'a' <= c <= 'f'
  }

  /** The sixteen digits. */
  function HexDigit(n: nat): char
    requires n < 16
  {
    "0123456789abcdef"[n]
  }

  ghost predicate IsHexDigit(c: char) {
    exists n: nat | n < 16 :: HexDigit(n) == c
  }

  lemma HexDigits(c: char)
    ensures IsHexDigit(c) <==> '0' <= c <= '9' || 'a' <= c <= 'f'
  {
    if '0' <= c <= '9' {
      assert HexDigit(c as int - '0' as int) == c;
    } else if 'a' <= c <= 'f' {
      assert HexDigit(c as int - 'a' as int + 10) == c;
    }
  }

  /** A well-formed revision is forty of these digits, any forty. */
  lemma HexRevIff(s: string)
    ensures IsHexRev(s) <==> |s| == 40 && forall c | c in s :: IsHexDigit(c)
  {
    forall c: char ensures IsHexDigit(c) <==> '0' <= c <= '9' || 'a' <= c <= 'f' {
      HexDigits(c);
    }
  }

  /** loadPrevManifest: nothing without a marker, with a malformed one, or one the
      lookup does not know. */
  function PrevListing(marker: string, lookup: Lookup): seq<string> {
    if marker == "" || !IsHexRev(marker) || lookup(marker).Unknown? then [] else lookup(marker).paths
  }

  /** What one real apply of a revision makes of the state. */
  function Applied(s: State, rev: string, files: Files, lookup: Lookup): State {
    State(Landed(s.tree, files, PrevListing(s.marker, lookup)), rev)
  }

  /** A whole run: a dry run with something to do only blanks a malformed marker. */
  function Ran(s: State, rev: string, files: Files, manifest: seq<string>, lookup: Lookup, dryRun: bool): State {
    if dryRun && !Empty(Classify(s.tree, files, manifest, PrevListing(s.marker, lookup)))
    then s.(marker := if IsHexRev(s.marker) then s.marker else "")
    else Applied(s, rev, files, lookup)
  }

  class Workspace {
    var tree: Files
    var marker: string

    constructor (s: State)
      ensures Value() == s
    {
      tree, marker := s.tree, s.marker;
    }

    function Value(): State
      reads this
    {
      State(tree, marker)
    }

    /** loadPrevManifest, which also blanks a malformed marker. */
    method LoadPrevManifest(lookup: Lookup) returns (prev: seq<string>)
      modifies this
      ensures prev == PrevListing(old(marker), lookup) && tree == old(tree)
      ensures marker == if IsHexRev(old(marker)) then old(marker) else ""
      ensures prev == if IsHexRev(old(marker)) && lookup(old(marker)).Listed? then lookup(old(marker)).paths else []
    {
      if marker == "" { return []; }
      if !IsHexRev(marker) {
        marker := "";
        return [];
      }
      var listing := lookup(marker);
      prev := if listing.Unknown? then [] else listing.paths;
    }

    /** applyPlanToTree: writes, then removals. */
    method ApplyPlan(files: Files, plan: Plan)
      requires forall p | p in plan.added + plan.modified :: p in files
      modifies this
      ensures marker == old(marker)
      ensures forall p :: p in tree <==> p !in plan.deleted && (p in old(tree) || p in plan.added + plan.modified)
      ensures forall p | p in tree :: tree[p] == if p in plan.added + plan.modified then files[p] else old(tree)[p]
    {
      var staging := plan.added + plan.modified;
      ghost var was := tree;
      for i := 0 to |staging|
        invariant marker == old(marker)
        invariant forall p :: p in tree <==> p in was || p in staging[..i]
        invariant forall p | p in tree :: if p in staging[..i] then p in files && tree[p] == files[p]
          else tree[p] == was[p]
      {
        assert staging[..i + 1] == staging[..i] + [staging[i]];
        tree := tree[staging[i] := files[staging[i]]];
      }
      assert staging[..|staging|] == staging;
      Remove(plan.deleted);
    }

    method Remove(paths: seq<string>)
      modifies this
      ensures marker == old(marker) && tree == old(tree) - set p | p in paths
    {
      ghost var was := tree;
      for i := 0 to |paths|
        invariant marker == old(marker) && tree == was - set p | p in paths[..i]
      {
        assert paths[..i + 1] == paths[..i] + [paths[i]];
        tree := tree - {paths[i]};
      }
      assert paths[..|paths|] == paths;
    }

    /** applyFromCheckout: an empty plan moves the marker even in a dry run. */
    method ApplyFromCheckout(rev: string, files: Files, manifest: seq<string>, lookup: Lookup,
        dryRun: bool) returns (plan: Plan)
      requires Scan(manifest, files)
      modifies this
      ensures plan == Classify(old(tree), files, manifest, PrevListing(old(marker), lookup))
      ensures Value() == Ran(old(Value()), rev, files, manifest, lookup, dryRun)
      ensures !dryRun ==> marker == rev && forall p ::
        && (p in tree <==> p in files || (p in old(tree) && p !in PrevListing(old(marker), lookup)))
        && (p in tree ==> tree[p] == if p in files then files[p] else old(tree)[p])
    {
      ghost var was := tree;
      var prev := LoadPrevManifest(lookup);
      plan := ClassifyDiff(tree, files, manifest, prev);
      EmptyIffLanded(was, files, manifest, prev);
      if |plan.added| + |plan.modified| + |plan.deleted| == 0 {
        marker := rev;
        return;
      }
      if dryRun { return; }
      ghost var plan' := plan;
      forall p ensures p in plan'.added + plan'.modified ==> p in files {
        PlanMember(was, files, manifest, prev, p);
      }
      ApplyPlan(files, plan);
      PlanLands(was, files, manifest, prev, tree);
      marker := rev;
    }
  }

  /** Carrying out the plan gives the tree that should be there. */
  lemma PlanLands(was: Files, files: Files, manifest: seq<string>, prev: seq<string>, now: Files)
    requires Scan(manifest, files)
    requires var plan := Classify(was, files, manifest, prev);
      && (forall p :: p in now <==> p !in plan.deleted && (p in was || p in plan.added + plan.modified))
      && forall p | p in now :: if p in plan.added + plan.modified then p in files && now[p] == files[p]
        else now[p] == was[p]
    ensures now == Landed(was, files, prev)
  {
    var target := Landed(was, files, prev);
    forall p ensures (p in now <==> p in target) && (p in now ==> now[p] == target[p]) {
      PlanMember(was, files, manifest, prev, p);
    }
  }

  // ----- runs of applies -----

  /** The files of every trunk revision. */
  type Repo = string -> Files

  /** The state after the first n of a run of real applies. */
  function After(s: State, repo: Repo, lookup: Lookup, revs: seq<string>, n: nat): State
    requires n <= |revs|
  {
    if n == 0 then s else Applied(After(s, repo, lookup, revs, n - 1), revs[n - 1], repo(revs[n - 1]), lookup)
  }

  /** The listing that apply number i deletes by. */
  function ListingAt(s: State, lookup: Lookup, revs: seq<string>, i: nat): seq<string>
    requires i < |revs|
  {
    PrevListing(if i == 0 then s.marker else revs[i - 1], lookup)
  }

  /** p was in the tree at the start (j is -1), or apply number j wrote it. */
  ghost predicate Origin(s: State, repo: Repo, revs: seq<string>, j: int, p: string)
    requires -1 <= j < |revs|
  {
    if j < 0 then p in s.tree else p in repo(revs[j])
  }

  /** Apply number i deletes p. */
  predicate Drops(s: State, repo: Repo, lookup: Lookup, revs: seq<string>, i: nat, p: string)
    requires i < |revs|
  {
    p in ListingAt(s, lookup, revs, i) && p !in repo(revs[i])
  }

  /** No apply after number j, and before n, deletes p. */
  ghost predicate Spared(s: State, repo: Repo, lookup: Lookup, revs: seq<string>, j: int, n: nat, p: string)
    requires -1 <= j < n <= |revs|
  {
    forall i | j < i < n :: !Drops(s, repo, lookup, revs, i, p)
  }

  ghost predicate Kept(s: State, repo: Repo, lookup: Lookup, revs: seq<string>, j: int, n: nat, p: string)
    requires -1 <= j < n <= |revs|
  {
    Origin(s, repo, revs, j, p) && Spared(s, repo, lookup, revs, j, n, p)
  }

  /** Where the bytes of p come from: the last apply that wrote it, or -1. */
  function LastWriter(repo: Repo, revs: seq<string>, n: nat, p: string): (j: int)
    requires n <= |revs|
    ensures -1 <= j < n && (j >= 0 ==> p in repo(revs[j])) && forall i | j < i < n :: p !in repo(revs[i])
  {
    if n == 0 then -1 else if p in repo(revs[n - 1]) then n - 1 else LastWriter(repo, revs, n - 1, p)
  }

  /** What one more apply means for p. */
  lemma AfterOne(s: State, repo: Repo, lookup: Lookup, revs: seq<string>, n: nat, p: string)
    requires 1 <= n <= |revs| && (n > 1 ==> After(s, repo, lookup, revs, n - 1).marker == revs[n - 2])
    ensures var was := After(s, repo, lookup, revs, n - 1).tree; var now := After(s, repo, lookup, revs, n);
      && now.marker == revs[n - 1]
      && (p in now.tree <==> p in repo(revs[n - 1]) || (p in was && !Drops(s, repo, lookup, revs, n - 1, p)))
      && (p in now.tree ==> now.tree[p] == if p in repo(revs[n - 1]) then repo(revs[n - 1])[p] else was[p])
  {
  }

  /** The same step, on what Kept says. */
  lemma KeptOne(s: State, repo: Repo, lookup: Lookup, revs: seq<string>, n: nat, p: string)
    requires 1 < n <= |revs|
    ensures Kept(s, repo, lookup, revs, LastWriter(repo, revs, n, p), n, p) <==>
      || p in repo(revs[n - 1])
      || (Kept(s, repo, lookup, revs, LastWriter(repo, revs, n - 1, p), n - 1, p)
          && !Drops(s, repo, lookup, revs, n - 1, p))
  {
    if p !in repo(revs[n - 1]) {
      var j := LastWriter(repo, revs, n - 1, p);
      assert LastWriter(repo, revs, n, p) == j;
      assert Spared(s, repo, lookup, revs, j, n, p) <==>
        Spared(s, repo, lookup, revs, j, n - 1, p) && !Drops(s, repo, lookup, revs, n - 1, p);
    }
  }

  /** Any run of applies, with any lookup: p is in the tree exactly when the last
      apply that wrote it, or the start if none did, had it and no later apply
      deletes it; and its bytes are that version's. */
  lemma {:induction false} TreeAfter(s: State, repo: Repo, lookup: Lookup, revs: seq<string>, n: nat, p: string)
    requires 1 <= n <= |revs|
    ensures var now := After(s, repo, lookup, revs, n); var j := LastWriter(repo, revs, n, p);
      && now.marker == revs[n - 1]
      && (p in now.tree <==> Kept(s, repo, lookup, revs, j, n, p))
      && (p in now.tree ==> now.tree[p] == if j < 0 then s.tree[p] else repo(revs[j])[p])
  {
    if n == 1 {
      assert After(s, repo, lookup, revs, 0) == s;
      AfterOne(s, repo, lookup, revs, 1, p);
    } else {
      TreeAfter(s, repo, lookup, revs, n - 1, p);
      AfterOne(s, repo, lookup, revs, n, p);
      KeptOne(s, repo, lookup, revs, n, p);
    }
  }

  /** The lookup lists exactly the files of a revision. */
  ghost predicate Exact(repo: Repo, lookup: Lookup, rev: string) {
    IsHexRev(rev) && lookup(rev).Listed? && forall p :: p in lookup(rev).paths <==> p in repo(rev)
  }

  ghost predicate Named(repo: Repo, revs: seq<string>, n: nat, p: string)
    requires n <= |revs|
  {
    exists i | 0 <= i < n :: p in repo(revs[i])
  }

  /** Convergence: with exact listings of the revisions applied, the tree is the last
      revision and the original files that neither the first listing nor any applied
      revision names. */
  lemma TreeIsTheLastRevision(s: State, repo: Repo, lookup: Lookup, revs: seq<string>, n: nat, p: string)
    requires 1 <= n <= |revs| && forall i | 0 <= i < n - 1 :: Exact(repo, lookup, revs[i])
    ensures var now := After(s, repo, lookup, revs, n); var last := repo(revs[n - 1]);
      && now.marker == revs[n - 1]
      && (p in now.tree <==>
          p in last || (p in s.tree && p !in PrevListing(s.marker, lookup) && !Named(repo, revs, n, p)))
      && (p in now.tree ==> now.tree[p] == if p in last then last[p] else s.tree[p])
  {
    TreeAfter(s, repo, lookup, revs, n, p);
    var j := LastWriter(repo, revs, n, p);
    if 0 <= j < n - 1 {
      assert Exact(repo, lookup, revs[j]) && Drops(s, repo, lookup, revs, j + 1, p);
    } else if j < 0 {
      forall i | 0 < i < n ensures !Drops(s, repo, lookup, revs, i, p) {
        assert Exact(repo, lookup, revs[i - 1]);
      }
      assert Drops(s, repo, lookup, revs, 0, p) <==> p in PrevListing(s.marker, lookup);
    }
  }

  /** With listings that come back empty, or not at all, nothing is ever deleted: the
      tree is all that was there and all that any applied revision has. */
  lemma EmptyListingsDeleteNothing(s: State, repo: Repo, lookup: Lookup, revs: seq<string>, n: nat, p: string)
    requires 1 <= n <= |revs| && forall i | 0 <= i < n :: ListingAt(s, lookup, revs, i) == []
    ensures p in After(s, repo, lookup, revs, n).tree <==> p in s.tree || Named(repo, revs, n, p)
  {
    TreeAfter(s, repo, lookup, revs, n, p);
  }

  /** One apply with any lookup leaves the tree an exact lookup would if and only
      if it lists every stale file that is there, and no other file that is there. */
  lemma LandsIffListsTheStale(tree: Files, files: Files, applied: Files, exact: seq<string>, prev: seq<string>)
    requires forall p :: p in exact <==> p in applied
    ensures Landed(tree, files, prev) == Landed(tree, files, exact) <==>
      forall p | p in tree && p !in files :: p in prev <==> p in applied
  {
    var now, ideal := Landed(tree, files, prev), Landed(tree, files, exact);
    if now == ideal {
      forall p | p in tree && p !in files ensures p in prev <==> p in applied {
        assert p in now <==> p in ideal;
      }
    }
  }

  /** A file of the tree that no applied revision names stays, with its bytes, if and
      only if none of the listings used names it. */
  lemma StaleFileStaysIff(s: State, repo: Repo, lookup: Lookup, revs: seq<string>, n: nat, p: string)
    requires 1 <= n <= |revs| && p in s.tree && !Named(repo, revs, n, p)
    ensures var now := After(s, repo, lookup, revs, n).tree;
      && (p in now <==> p !in PrevListing(s.marker, lookup) && forall i | 0 <= i < n - 1 ::
          p !in PrevListing(revs[i], lookup))
      && (p in now ==> now[p] == s.tree[p])
  {
    TreeAfter(s, repo, lookup, revs, n, p);
    forall i | 0 <= i < n ensures Drops(s, repo, lookup, revs, i, p) <==> p in ListingAt(s, lookup, revs, i) { }
    assert ListingAt(s, lookup, revs, 0) == PrevListing(s.marker, lookup);
    assert forall i | 0 <= i < n - 1 :: ListingAt(s, lookup, revs, i + 1) == PrevListing(revs[i], lookup);
    if forall i | 0 <= i < n - 1 :: p !in PrevListing(revs[i], lookup) {
      forall i | 0 < i < n ensures p !in ListingAt(s, lookup, revs, i) {
        assert p !in PrevListing(revs[i - 1], lookup);
      }
    }
  }

  /** Forty times one digit. */
  function Rev(c: char): (s: string)
    requires '0' <= c <= '9' || 'a' <= c <= 'f'
    ensures IsHexRev(s) && s[0] == c
  {
    seq(40, i => c)
  }

  /** Two revisions, the second without the first one's file, and a lookup that
      comes back empty: the file stays. */
  lemma EmptyListingStrandsAFile() returns (repo: Repo, lookup: Lookup, revs: seq<string>, p: string)
    ensures |revs| == 2 && IsHexRev(revs[0]) && IsHexRev(revs[1]) && lookup(revs[0]) == Listed([])
    ensures p in repo(revs[0]) && p !in repo(revs[1])
    ensures p in After(State(map[], ""), repo, lookup, revs, 2).tree
  {
    p := "stale.txt";
    revs := [Rev('a'), Rev('b')];
    repo := (rev: string) => if rev != "" && rev[0] == 'a' then map["stale.txt" := "x"] else map[];
    lookup := (rev: string) => Listed([]);
    var first := After(State(map[], ""), repo, lookup, revs, 1);
    assert first == Applied(State(map[], ""), revs[0], repo(revs[0]), lookup) by {
      assert After(State(map[], ""), repo, lookup, revs, 0) == State(map[], "");
    }
    assert p in first.tree && p !in PrevListing(first.marker, lookup);
  }

  /** A dry run leaves the workspace as it was if and only if the marker already
      names the revision, or is sound while there is something to do. */
  lemma DryRunChangesNothingIff(s: State, rev: string, files: Files, manifest: seq<string>, lookup: Lookup)
    requires Scan(manifest, files)
    ensures var upToDate := s.tree == Landed(s.tree, files, PrevListing(s.marker, lookup));
      Ran(s, rev, files, manifest, lookup, true) == s <==>
        if upToDate then s.marker == rev else s.marker == "" || IsHexRev(s.marker)
  {
    EmptyIffLanded(s.tree, files, manifest, PrevListing(s.marker, lookup));
  }

  /** A dry run on an up-to-date tree without a marker writes one. */
  lemma DryRunMovesTheMarker(rev: string, lookup: Lookup)
    requires rev != ""
    ensures Ran(State(map["f" := "x"], ""), rev, map["f" := "x"], ["f"], lookup, true).marker == rev
  {
    var files := map["f" := "x"];
    assert Landed(files, files, PrevListing("", lookup)) == files;
    assert "f" == ["f"][0];
    EmptyIffLanded(files, files, ["f"], PrevListing("", lookup));
  }
}
