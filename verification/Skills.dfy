/** The sticky skill manifest of `bones up` and `bones down`
    (cli/skills.go), over whole histories of binaries and user edits. */
module Skills {
  type Bytes = string

  /** A path under .claude/skills/: the skill directory and the file inside it. */
  datatype Path = Path(skill: string, file: string)

  /** A SHA-256 digest, taken to be injective. */
  datatype Digest = Digest(of: Bytes)

  /** One bones binary: the files it embeds and the skills it calls its own. */
  datatype Binary = Binary(bundle: map<Path, Bytes>, owned: seq<string>)

  datatype Manifest = NoManifest | Manifest(hashes: map<Path, Digest>)

  datatype Disk = Disk(files: map<Path, Bytes>, manifest: Manifest)

  datatype Step = Up(binary: Binary) | Down(binary: Binary) | Edit(path: Path, bytes: Bytes) | Delete(path: Path)

  // ----- one command -----

  /** writeBonesSkills: only missing files are written. */
  function Materialized(b: Binary, files: map<Path, Bytes>): map<Path, Bytes> {
    b.bundle + files
  }

  function Previous(m: Manifest): map<Path, Digest> {
    if m.Manifest? then m.hashes else map[]
  }

  predicate Embedded(b: Binary, p: Path, bytes: Bytes) {
    p in b.bundle && b.bundle[p] == bytes
  }

  /** walkSkillFile keeps a previous hash, or stamps a file that is the embedded one. */
  predicate Stamped(b: Binary, files: map<Path, Bytes>, previous: map<Path, Digest>, p: Path) {
    p in files && p.skill in b.owned && (p in previous || Embedded(b, p, files[p]))
  }

  function Stamp(files: map<Path, Bytes>, previous: map<Path, Digest>, p: Path): Digest
    requires p in files
  {
    if p in previous then previous[p] else Digest(files[p])
  }

  /** buildSkillFileHashes. */
  function Hashes(b: Binary, files: map<Path, Bytes>, previous: map<Path, Digest>): map<Path, Digest> {
    map p | p in files && Stamped(b, files, previous, p) :: Stamp(files, previous, p)
  }

  /** The part of them in one skill directory. */
  ghost function HashesOf(b: Binary, name: string, files: map<Path, Bytes>,
      previous: map<Path, Digest>): map<Path, Digest> {
    map p | p in files && p.skill == name && Stamped(b, files, previous, p) :: Stamp(files, previous, p)
  }

  /** How far the walk of one directory is when the paths of todo are still to come. */
  ghost function StampsOf(b: Binary, name: string, files: map<Path, Bytes>, previous: map<Path, Digest>,
      before: map<Path, Digest>, todo: set<Path>): map<Path, Digest> {
    before + (HashesOf(b, name, files, previous) - todo)
  }

  lemma StampEnds(b: Binary, name: string, files: map<Path, Bytes>, previous: map<Path, Digest>,
      before: map<Path, Digest>)
    ensures StampsOf(b, name, files, previous, before, {}) == before + HashesOf(b, name, files, previous)
  {
  }

  lemma StampStep(b: Binary, name: string, files: map<Path, Bytes>, previous: map<Path, Digest>,
      before: map<Path, Digest>, dir: set<Path>, p: Path)
    requires p in dir && p in files && p.skill == name && name in b.owned
    ensures var was := StampsOf(b, name, files, previous, before, dir);
      StampsOf(b, name, files, previous, before, dir - {p}) ==
        if p in previous then was[p := previous[p]]
        else if Embedded(b, p, files[p]) then was[p := Digest(files[p])]
        else was
  {
  }

  /** A file on disk that is not the one the binary embeds. */
  predicate Differs(b: Binary, files: map<Path, Bytes>, p: Path) {
    p in b.bundle && p in files && files[p] != b.bundle[p]
  }

  /** How far writeBonesSkills is when the paths of todo have not been looked at: the
      files, the paths written, and the paths found to differ. */
  datatype Progress = Progress(files: map<Path, Bytes>, written: set<Path>, modified: set<Path>)

  ghost function ProgressOf(b: Binary, was: map<Path, Bytes>, todo: set<Path>): Progress {
    Progress(
      Materialized(b, was) - (todo - was.Keys),
      b.bundle.Keys - was.Keys - todo,
      (set p | p in b.bundle && Differs(b, was, p)) - todo)
  }

  lemma ProgressEnds(b: Binary, was: map<Path, Bytes>)
    ensures ProgressOf(b, was, {}) ==
      Progress(Materialized(b, was), b.bundle.Keys - was.Keys, set p | p in b.bundle && Differs(b, was, p))
  {
  }

  lemma ProgressStep(b: Binary, was: map<Path, Bytes>, todo: set<Path>, p: Path)
    requires p in todo && todo <= b.bundle.Keys
    ensures var now := ProgressOf(b, was, todo);
      && (p in now.files <==> p in was) && (p in was ==> now.files[p] == was[p])
      && ProgressOf(b, was, todo - {p}) ==
         if p !in was then Progress(now.files[p := b.bundle[p]], now.written + {p}, now.modified)
         else if was[p] != b.bundle[p] then now.(modified := now.modified + {p})
         else now
  {
  }

  function AfterUp(b: Binary, d: Disk): Disk {
    var files := Materialized(b, d.files);
    Disk(files, Manifest(Hashes(b, files, Previous(d.manifest))))
  }

  /** What removeOneBonesSkill takes as the bytes bones wrote at p. */
  predicate Claimed(b: Binary, d: Disk, p: Path) {
    if d.manifest.Manifest? then p in d.manifest.hashes else p in b.bundle
  }

  function ClaimedDigest(b: Binary, d: Disk, p: Path): Digest
    requires Claimed(b, d, p)
  {
    if d.manifest.Manifest? then d.manifest.hashes[p] else Digest(b.bundle[p])
  }

  predicate Removes(b: Binary, d: Disk, p: Path) {
    p in d.files && p.skill in b.owned && Claimed(b, d, p) && ClaimedDigest(b, d, p) == Digest(d.files[p])
  }

  /** Kept and reported: bones claims it, but its bytes have diverged. */
  predicate Warns(b: Binary, d: Disk, p: Path) {
    p in d.files && p.skill in b.owned && Claimed(b, d, p) && ClaimedDigest(b, d, p) != Digest(d.files[p])
  }

  function AfterDown(b: Binary, d: Disk): Disk {
    Disk(map p | p in d.files && !Removes(b, d, p) :: d.files[p], NoManifest)
  }

  function Apply(step: Step, d: Disk): Disk {
    match step
    case Up(b) => AfterUp(b, d)
    case Down(b) => AfterDown(b, d)
    case Edit(p, bytes) => d.(files := d.files[p := bytes])
    case Delete(p) => d.(files := d.files - {p})
  }

  /** The disk after the first n steps of a history. */
  function After(d: Disk, h: seq<Step>, n: nat): Disk
    requires n <= |h|
  {
    if n == 0 then d else Apply(h[n - 1], After(d, h, n - 1))
  }

  // ----- safety -----

  /** No up changes a file that exists, and every file it adds is its own. */
  lemma UpKeepsEveryFile(b: Binary, d: Disk, p: Path)
    ensures p in d.files ==> p in AfterUp(b, d).files && AfterUp(b, d).files[p] == d.files[p]
    ensures p in AfterUp(b, d).files && p !in d.files ==> Embedded(b, p, AfterUp(b, d).files[p])
    ensures p in b.bundle ==> p in AfterUp(b, d).files
  {
  }

  /** Some up among the first n carried these bytes for p and owned its skill. */
  ghost predicate Shipped(h: seq<Step>, n: nat, p: Path, bytes: Bytes)
    requires n <= |h|
  {
    exists k | 0 <= k < n :: h[k].Up? && p.skill in h[k].binary.owned && Embedded(h[k].binary, p, bytes)
  }

  /** Every manifest hash is that of a version some earlier up shipped. */
  lemma {:induction false} EveryHashWasShipped(d: Disk, h: seq<Step>, n: nat, p: Path)
    requires n <= |h| && d.manifest == NoManifest
    ensures p in Previous(After(d, h, n).manifest) ==> Shipped(h, n, p, Previous(After(d, h, n).manifest)[p].of)
  {
    if n > 0 {
      EveryHashWasShipped(d, h, n - 1, p);
    }
  }

  /** A down removes a file only when its bytes are a version that a binary of the
      history carried, changes no other file and forgets the manifest. */
  lemma DownRemovesOnlyWhatWasShipped(d: Disk, h: seq<Step>, n: nat, b: Binary, p: Path)
    requires n <= |h| && d.manifest == NoManifest
    ensures var was := After(d, h, n).files; var now := AfterDown(b, After(d, h, n)).files;
      && (p in now ==> p in was && now[p] == was[p])
      && (p in was && p !in now ==>
          Shipped(h, n, p, was[p]) || (After(d, h, n).manifest.NoManifest? && Embedded(b, p, was[p])))
  {
    EveryHashWasShipped(d, h, n, p);
  }

  /** The decision on a file of an owned skill, written out: with a manifest the hash in
      it decides, without one the embedded bytes; a file of no owned skill is left. */
  lemma DownDecides(b: Binary, d: Disk, p: Path)
    requires p in d.files
    ensures p.skill !in b.owned ==> p in AfterDown(b, d).files
    ensures p.skill in b.owned && d.manifest.Manifest? ==>
      (p !in AfterDown(b, d).files <==> p in d.manifest.hashes && d.manifest.hashes[p].of == d.files[p])
    ensures p.skill in b.owned && d.manifest.NoManifest? ==>
      (p !in AfterDown(b, d).files <==> p in b.bundle && b.bundle[p] == d.files[p])
    ensures AfterDown(b, d).manifest == NoManifest
  {
  }

  /** And which files are reported as kept: those bones claims with other bytes. */
  lemma DownReports(b: Binary, d: Disk, p: Path)
    requires p in d.files
    ensures d.manifest.Manifest? ==>
      (Warns(b, d, p) <==> p.skill in b.owned && p in d.manifest.hashes && d.manifest.hashes[p].of != d.files[p])
    ensures d.manifest.NoManifest? ==>
      (Warns(b, d, p) <==> p.skill in b.owned && p in b.bundle && b.bundle[p] != d.files[p])
  {
  }

  /** What up stamps: the previous hash of a file that has one, the file itself when it is
      the embedded one, and nothing else. */
  lemma UpStamps(b: Binary, d: Disk, p: Path)
    ensures var z := AfterUp(b, d); var was := Previous(d.manifest);
      && z.manifest.Manifest?
      && (p in z.manifest.hashes <==>
          p in z.files && p.skill in b.owned && (p in was || (p in b.bundle && b.bundle[p] == z.files[p])))
      && (p in z.manifest.hashes ==> z.manifest.hashes[p] == if p in was then was[p] else Digest(z.files[p]))
  {
  }

  // ----- completeness -----

  /** The user deletes nothing in the first n steps. */
  ghost predicate NoDeletes(h: seq<Step>, n: nat)
    requires n <= |h|
  {
    forall j | 0 <= j < n :: !h[j].Delete?
  }

  /** Without deletes the manifest names only files that exist. */
  lemma {:induction false} NoOrphans(d: Disk, h: seq<Step>, n: nat, p: Path)
    requires n <= |h| && d.manifest == NoManifest && NoDeletes(h, n)
    ensures p in Previous(After(d, h, n).manifest) ==> p in After(d, h, n).files
  {
    if n > 0 {
      NoOrphans(d, h, n - 1, p);
    }
  }

  /** Step i is an up that writes p, and no later step is a down or touches p. */
  ghost predicate WroteAndLeft(d: Disk, h: seq<Step>, i: nat, p: Path) {
    && i < |h|
    && h[i].Up? && p in h[i].binary.bundle && p !in After(d, h, i).files
    && LeftAlone(h, i + 1, p)
  }

  predicate Touches(step: Step, p: Path) {
    (step.Edit? || step.Delete?) && step.path == p
  }

  predicate Disowns(step: Step, p: Path) {
    step.Up? && p.skill !in step.binary.owned
  }

  predicate Ships(step: Step, p: Path, bytes: Bytes) {
    step.Up? && p.skill in step.binary.owned && Embedded(step.binary, p, bytes)
  }

  /** A manifest entry for p left over from before the user deleted the file. */
  ghost predicate Stale(d: Disk, h: seq<Step>, i: nat, p: Path, bytes: Bytes)
    requires i <= |h|
  {
    var m := Previous(After(d, h, i).manifest);
    p in m && m[p] != Digest(bytes)
  }

  ghost predicate NoneDisowns(h: seq<Step>, from: nat, to: nat, p: Path)
    requires to <= |h|
  {
    forall j | from <= j < to :: !Disowns(h[j], p)
  }

  /** Some up k ships the bytes, no up after it disowns the skill, and a stale
      entry has been forgotten before it. */
  ghost predicate OwnedSince(h: seq<Step>, i: nat, n: nat, p: Path, bytes: Bytes, stale: bool)
    requires n <= |h|
  {
    exists k | i <= k < n ::
      Ships(h[k], p, bytes) && NoneDisowns(h, k, n, p) && (stale ==> !NoneDisowns(h, i, k, p))
  }

  /** What the manifest says of a file from the up that wrote it on. */
  ghost function Expected(h: seq<Step>, i: nat, n: nat, p: Path, bytes: Bytes, stale: bool,
      prior: map<Path, Digest>): map<Path, Digest>
    requires n <= |h| && (stale ==> p in prior)
  {
    if stale && NoneDisowns(h, i, n, p) then map[p := prior[p]]
    else if OwnedSince(h, i, n, p, bytes, stale) then map[p := Digest(bytes)]
    else map[]
  }

  function Entry(m: map<Path, Digest>, p: Path): map<Path, Digest> {
    if p in m then map[p := m[p]] else map[]
  }

  /** p holds these bytes and the manifest says this of it. */
  ghost predicate Tracks(d: Disk, p: Path, bytes: Bytes, entry: map<Path, Digest>) {
    p in d.files && d.files[p] == bytes && d.manifest.Manifest? && Entry(d.manifest.hashes, p) == entry
  }

  /** The entry after one more step that leaves p alone. */
  ghost function NextEntry(step: Step, p: Path, bytes: Bytes, was: map<Path, Digest>): map<Path, Digest> {
    if !step.Up? then was
    else if Disowns(step, p) then map[]
    else if p in was then was
    else if Embedded(step.binary, p, bytes) then map[p := Digest(bytes)]
    else map[]
  }

  lemma ExpectedStep(h: seq<Step>, i: nat, n: nat, p: Path, bytes: Bytes, stale: bool, prior: map<Path, Digest>)
    requires i <= n < |h| && (stale ==> p in prior)
    ensures Expected(h, i, n + 1, p, bytes, stale, prior) ==
      NextEntry(h[n], p, bytes, Expected(h, i, n, p, bytes, stale, prior))
  {
  }

  /** The steps from i on leave p alone. */
  ghost predicate LeftAlone(h: seq<Step>, i: nat, p: Path) {
    forall j | i <= j < |h| :: !h[j].Down? && !Touches(h[j], p)
  }

  lemma {:induction false} EntryFrom(d: Disk, h: seq<Step>, i: nat, n: nat, p: Path, bytes: Bytes, stale: bool,
      prior: map<Path, Digest>)
    requires i < n <= |h| && LeftAlone(h, i + 1, p) && (stale ==> p in prior)
    requires Tracks(After(d, h, i + 1), p, bytes, Expected(h, i, i + 1, p, bytes, stale, prior))
    ensures Tracks(After(d, h, n), p, bytes, Expected(h, i, n, p, bytes, stale, prior))
  {
    if n > i + 1 {
      EntryFrom(d, h, i, n - 1, p, bytes, stale, prior);
      ExpectedStep(h, i, n - 1, p, bytes, stale, prior);
      EntryNext(d, h, n, p, bytes, Expected(h, i, n - 1, p, bytes, stale, prior),
          Expected(h, i, n, p, bytes, stale, prior));
    }
  }

  /** What the manifest says of p from the up that wrote it on. */
  lemma EntryOf(d: Disk, h: seq<Step>, i: nat, n: nat, p: Path)
    requires WroteAndLeft(d, h, i, p) && i < n <= |h|
    ensures var bytes := h[i].binary.bundle[p];
      Tracks(After(d, h, n), p, bytes,
          Expected(h, i, n, p, bytes, Stale(d, h, i, p, bytes), Previous(After(d, h, i).manifest)))
  {
    var bytes := h[i].binary.bundle[p];
    var stale := Stale(d, h, i, p, bytes);
    EntryFrom(d, h, i, n, p, bytes, stale, Previous(After(d, h, i).manifest));
  }

  lemma EntryNext(d: Disk, h: seq<Step>, n: nat, p: Path, bytes: Bytes, was: map<Path, Digest>, now: map<Path, Digest>)
    requires 0 < n <= |h| && Tracks(After(d, h, n - 1), p, bytes, was) && !h[n - 1].Down? && !Touches(h[n - 1], p)
    requires now == NextEntry(h[n - 1], p, bytes, was)
    ensures Tracks(After(d, h, n), p, bytes, now)
  {
  }

  /** The exact condition: after an up wrote p and nobody touched it, a down
      removes it if and only if it owns the skill and the ownership survived every
      up in between. */
  lemma DownRemovesIff(d: Disk, h: seq<Step>, i: nat, b: Binary, p: Path)
    requires WroteAndLeft(d, h, i, p)
    ensures var bytes := h[i].binary.bundle[p];
      p !in AfterDown(b, After(d, h, |h|)).files <==>
        p.skill in b.owned && OwnedSince(h, i, |h|, p, bytes, Stale(d, h, i, p, bytes))
  {
    var bytes := h[i].binary.bundle[p];
    var stale := Stale(d, h, i, p, bytes);
    var now := After(d, h, |h|);
    EntryOf(d, h, i, |h|, p);
    assert p in now.manifest.hashes <==> Entry(now.manifest.hashes, p) != map[];
    assert p in now.manifest.hashes ==> Entry(now.manifest.hashes, p)[p] == now.manifest.hashes[p];
    if stale && NoneDisowns(h, i, |h|, p) {
      assert !OwnedSince(h, i, |h|, p, bytes, stale) by {
        forall k | i <= k < |h| ensures NoneDisowns(h, i, k, p) { }
      }
    }
  }

  /** The promise: when the user deletes nothing and no binary from the writing up
      on disowns the skill, the down removes the file whatever it embeds. */
  lemma DownRemovesWhatUpWrote(d: Disk, h: seq<Step>, i: nat, b: Binary, p: Path)
    requires d.manifest == NoManifest && WroteAndLeft(d, h, i, p) && NoDeletes(h, i)
    requires NoneDisowns(h, i, |h|, p) && p.skill in b.owned
    ensures p !in AfterDown(b, After(d, h, |h|)).files
  {
    NoOrphans(d, h, i, p);
    DownRemovesIff(d, h, i, b, p);
    assert Ships(h[i], p, h[i].binary.bundle[p]);
  }

  /** Not whatever the binary: one that dropped the skill leaves the file. */
  lemma DroppedSkillIsLeft() returns (d: Disk, h: seq<Step>, b: Binary, p: Path)
    ensures d.manifest == NoManifest && WroteAndLeft(d, h, 0, p) && NoDeletes(h, |h|)
    ensures p in AfterDown(b, After(d, h, |h|)).files
  {
    p := Path("uninstall", "SKILL.md");
    d := Disk(map[], NoManifest);
    h := [Up(Binary(map[p := "1"], ["uninstall"]))];
    b := Binary(map[], []);
    assert After(d, h, 0) == d;
    DownRemovesIff(d, h, 0, b, p);
  }

  /** Nor when a newer up restored a file that the user had deleted. */
  lemma RestoredFileIsLeft() returns (d: Disk, h: seq<Step>, i: nat, b: Binary, p: Path)
    ensures d.manifest == NoManifest && WroteAndLeft(d, h, i, p)
    ensures NoneDisowns(h, 0, |h|, p) && p.skill in b.owned
    ensures p in AfterDown(b, After(d, h, |h|)).files
  {
    p := Path("uninstall", "SKILL.md");
    d := Disk(map[], NoManifest);
    var older := Binary(map[p := "1"], ["uninstall"]);
    b := Binary(map[p := "2"], ["uninstall"]);
    h, i := [Up(older), Delete(p), Up(b)], 2;
    RestoredIsStale(d, older, b, p);
    DownRemovesIff(d, h, i, b, p);
    assert NoneDisowns(h, 2, 2, p);
  }

  lemma RestoredIsStale(d: Disk, older: Binary, newer: Binary, p: Path)
    requires d == Disk(map[], NoManifest) && p.skill in older.owned
    requires p in older.bundle && p in newer.bundle && older.bundle[p] != newer.bundle[p]
    ensures var g := [Up(older), Delete(p), Up(newer)];
      p !in After(d, g, 2).files && Stale(d, g, 2, p, newer.bundle[p])
  {
    var g := [Up(older), Delete(p), Up(newer)];
    assert After(d, g, 0) == d;
    assert After(d, g, 1) == AfterUp(older, d);
    assert p in After(d, g, 1).manifest.hashes;
    assert After(d, g, 2) == Apply(Delete(p), After(d, g, 1));
  }

  ghost function Dir(d: Disk, name: string): set<Path> {
    set p | p in d.files && p.skill == name
  }

  /** The files, and the reports, once the paths of a set have been looked at. */
  ghost function KeptOf(b: Binary, d: Disk, seen: set<Path>): map<Path, Bytes> {
    map p | p in d.files && !(p in seen && Removes(b, d, p)) :: d.files[p]
  }

  ghost function WarnedOf(b: Binary, d: Disk, seen: set<Path>): set<Path> {
    set p | p in seen && Warns(b, d, p)
  }

  /** How far the removal of a directory is when the paths of todo have not been
      looked at. */
  datatype Sweep = Sweep(files: map<Path, Bytes>, preserved: set<Path>)

  ghost function SweepOf(b: Binary, d: Disk, all: set<Path>, todo: set<Path>): Sweep {
    Sweep(KeptOf(b, d, all - todo), WarnedOf(b, d, all - todo))
  }

  lemma SweepStep(b: Binary, d: Disk, all: set<Path>, todo: set<Path>, p: Path)
    requires p in todo && todo <= all && p in d.files
    ensures var now := SweepOf(b, d, all, todo);
      && p in now.files && now.files[p] == d.files[p]
      && SweepOf(b, d, all, todo - {p}) ==
         Sweep(if Removes(b, d, p) then now.files - {p} else now.files, if Warns(b, d, p) then now.preserved + {p}
             else now.preserved)
  {
    assert all - (todo - {p}) == (all - todo) + {p};
  }

  /** The walks of cli/skills.go, in place; a walk visits files in any order. */
  class Workspace {
    var files: map<Path, Bytes>
    var manifest: Manifest

    constructor (d: Disk)
      ensures State() == d
    {
      files, manifest := d.files, d.manifest;
    }

    function State(): Disk
      reads this
    {
      Disk(files, manifest)
    }

    /** materializeSkillFile: an existing file is left, and reported if it differs. */
    method MaterializeFile(p: Path, want: Bytes) returns (wrote: bool, differs: bool)
      modifies this
      ensures manifest == old(manifest)
      ensures files == if p in old(files) then old(files) else old(files)[p := want]
      ensures wrote == (p !in old(files)) && differs == (p in old(files) && old(files)[p] != want)
    {
      wrote, differs := p !in files, p in files && files[p] != want;
      if wrote {
        files := files[p := want];
      }
    }

    /** writeBonesSkills; the answer lists what was written and what differs. */
    method WriteSkills(b: Binary) returns (written: set<Path>, modified: set<Path>)
      modifies this
      ensures files == Materialized(b, old(files)) && manifest == old(manifest)
      ensures written == b.bundle.Keys - old(files).Keys
      ensures modified == set p | p in b.bundle && Differs(b, old(files), p)
    {
      written, modified := {}, {};
      ghost var was := files;
      var todo := b.bundle.Keys;
      while todo != {}
        invariant todo <= b.bundle.Keys && manifest == old(manifest)
        invariant Progress(files, written, modified) == ProgressOf(b, was, todo)
        decreases |todo|
      {
        var p :| p in todo;
        ProgressStep(b, was, todo, p);
        todo := todo - {p};
        var wrote, differs := MaterializeFile(p, b.bundle[p]);
        if wrote { written := written + {p}; }
        if differs { modified := modified + {p}; }
      }
      ProgressEnds(b, was);
    }

    /** The walk of one skill directory, adding to out. */
    method StampDir(b: Binary, name: string, previous: map<Path, Digest>,
        before: map<Path, Digest>) returns (out: map<Path, Digest>)
      requires name in b.owned
      ensures out == before + HashesOf(b, name, files, previous)
    {
      out := before;
      var dir := set p | p in files && p.skill == name;
      while dir != {}
        invariant forall p | p in dir :: p in files && p.skill == name
        invariant out == StampsOf(b, name, files, previous, before, dir)
        decreases |dir|
      {
        var p :| p in dir;
        StampStep(b, name, files, previous, before, dir, p);
        dir := dir - {p};
        if p in previous {
          out := out[p := previous[p]];
        } else if Embedded(b, p, files[p]) {
          out := out[p := Digest(files[p])];
        }
      }
      StampEnds(b, name, files, previous, before);
    }

    /** buildSkillFileHashes over the owned skills. */
    method BuildHashes(b: Binary, previous: map<Path, Digest>) returns (out: map<Path, Digest>)
      ensures out == Hashes(b, files, previous)
    {
      out := map[];
      for i := 0 to |b.owned|
        invariant forall p :: p in out <==> p.skill in b.owned[..i] && p in Hashes(b, files, previous)
        invariant forall p | p in out :: out[p] == Hashes(b, files, previous)[p]
      {
        out := StampDir(b, b.owned[i], previous, out);
      }
    }

    /** The skill part of bones up. */
    method Up(b: Binary)
      modifies this
      ensures State() == AfterUp(b, old(State()))
    {
      var _, _ := WriteSkills(b);
      var hashes := BuildHashes(b, Previous(manifest));
      manifest := Manifest(hashes);
    }

    /** The decision on one file. */
    method RemoveFile(b: Binary, p: Path) returns (warns: bool)
      requires p in files && p.skill in b.owned
      modifies this
      ensures manifest == old(manifest) && warns == Warns(b, old(State()), p)
      ensures files == if Removes(b, old(State()), p) then old(files) - {p} else old(files)
    {
      if !Claimed(b, State(), p) { return false; }
      if ClaimedDigest(b, State(), p) != Digest(files[p]) { return true; }
      files := files - {p};
      warns := false;
    }

    /** removeOneBonesSkill. */
    method RemoveOneSkill(b: Binary, name: string) returns (preserved: set<Path>)
      requires name in b.owned
      modifies this
      ensures manifest == old(manifest) && files == KeptOf(b, old(State()), Dir(old(State()), name))
      ensures preserved == WarnedOf(b, old(State()), Dir(old(State()), name))
    {
      preserved := {};
      ghost var was := State();
      var dir := set p | p in files && p.skill == name;
      ghost var all := dir;
      while dir != {}
        invariant dir <= all && all == Dir(was, name) && manifest == was.manifest
        invariant Sweep(files, preserved) == SweepOf(b, was, all, dir)
        decreases |dir|
      {
        var p :| p in dir;
        SweepStep(b, was, all, dir, p);
        dir := dir - {p};
        var warns := RemoveFile(b, p);
        if warns { preserved := preserved + {p}; }
      }
    }

    /** removeBonesSkills. */
    method Down(b: Binary) returns (preserved: set<Path>)
      modifies this
      ensures State() == AfterDown(b, old(State()))
      ensures preserved == set p | p in old(files) && Warns(b, old(State()), p)
    {
      preserved := {};
      ghost var was := State();
      for i := 0 to |b.owned|
        invariant manifest == was.manifest
        invariant files == KeptOf(b, was, Dirs(was, b.owned[..i]))
          && preserved == WarnedOf(b, was, Dirs(was, b.owned[..i]))
      {
        NextDir(b, was, State(), b.owned[..i], b.owned[i]);
        assert b.owned[..i + 1] == b.owned[..i] + [b.owned[i]];
        var more := RemoveOneSkill(b, b.owned[i]);
        preserved := preserved + more;
      }
      assert b.owned[..|b.owned|] == b.owned;
      manifest := NoManifest;
    }
  }

  ghost function Dirs(d: Disk, names: seq<string>): set<Path> {
    set p | p in d.files && p.skill in names
  }

  /** One more directory, on the disk the directories before it have left. */
  lemma NextDir(b: Binary, was: Disk, now: Disk, names: seq<string>, name: string)
    requires now == Disk(KeptOf(b, was, Dirs(was, names)), was.manifest)
    ensures KeptOf(b, now, Dir(now, name)) == KeptOf(b, was, Dirs(was, names + [name]))
    ensures WarnedOf(b, was, Dirs(was, names)) + WarnedOf(b, now, Dir(now, name)) ==
      WarnedOf(b, was, Dirs(was, names + [name]))
  {
    assert forall p | p in now.files ::
      (Removes(b, now, p) <==> Removes(b, was, p)) && (Warns(b, now, p) <==> Warns(b, was, p));
    assert forall p: Path :: p.skill in names + [name] <==> p.skill in names || p.skill == name;
  }
}
