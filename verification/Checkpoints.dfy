/** backend/checkpoints/repli_fichiers.py: a checkpoint by hashed copy, for workspaces without git. */
module Checkpoints {
  import opened Results
  import opened Collections

  newtype Byte = x: int | 0 <= x < 256
  type Bytes = seq<Byte>

  /** A relative path, part by part. */
  type Path = seq<string>

  /** The files of a directory tree, and its directories other than the root. */
  datatype Tree = Tree(files: map<Path, Bytes>, dirs: set<Path>)

  function Parents(p: Path): (r: set<Path>) {
    set k | 0 < k < |p| :: p[..k]
  }

  predicate WellFormed(t: Tree) {
    && [] !in t.files && t.files.Keys !! t.dirs
    && (forall p :: p in t.files ==> Parents(p) <= t.dirs)
    && (forall p :: p in t.dirs ==> Parents(p) <= t.dirs)
  }

  lemma ParentsNest(p: Path, d: Path)
    requires d in Parents(p)
    ensures Parents(d) <= Parents(p) && d != [] && |d| < |p|
  {
    forall e | e in Parents(d) ensures e in Parents(p) {
      var k :| 0 < k < |d| && e == d[..k];
      assert d[..k] == p[..k];
    }
  }

  lemma ParentsOfInside(p: Path, name: string)
    requires p != []
    ensures Parents(p + [name]) <= Parents(p) + {p}
  {
    forall e | e in Parents(p + [name]) ensures e in Parents(p) + {p} {
      var k :| 0 < k < |p + [name]| && e == (p + [name])[..k];
      assert e == p[..k];
      assert k == |p| ==> e == p;
    }
  }

  // ---- What is tracked ----

  function IgnoredParts(): (r: set<string>) {
    {".git", "__pycache__", ".venv", "venv", "node_modules", ".pytest_cache", ".mypy_cache", ".ruff_cache", ".next",
     "dist", "build", ".idea", ".vscode", ".hermes"}
  }

  predicate Ignored(p: Path) {
    exists part :: part in p && part in IgnoredParts()
  }

  /** A path is ignored when any of its parts, at whatever depth, bears one of fourteen names. */
  lemma IgnoredAtAnyDepth(p: Path)
    ensures (exists i :: 0 <= i < |p| &&
               p[i] in {".git", "__pycache__", ".venv", "venv", "node_modules", ".pytest_cache", ".mypy_cache",
                        ".ruff_cache", ".next", "dist", "build", ".idea", ".vscode", ".hermes"}) <==> Ignored(p)
  {
    if i :| 0 <= i < |p| && p[i] in IgnoredParts() {
      assert p[i] in p;
    }
  }

  function Tracked(t: Tree): (r: set<Path>) {
    set p | p in t.files && !Ignored(p)
  }

  // ---- The specification of the four operations ----

  type Manifest = map<Path, string>

  /** What a restoration would do. */
  datatype Gap = Gap(rewrite: set<Path>, recreate: set<Path>, remove: set<Path>)

  const NO_GAP := Gap({}, {}, {})

  function ManifestOf(t: Tree, hash: Bytes -> string): (r: Manifest) {
    map p | p in Tracked(t) :: hash(t.files[p])
  }

  function GapOf(t: Tree, manifest: Manifest, hash: Bytes -> string): (r: Gap) {
    Gap(set p | p in manifest && p in Tracked(t) && hash(t.files[p]) != manifest[p],
        set p | p in manifest && p !in Tracked(t),
        set p | p in Tracked(t) && p !in manifest)
  }

  /** The manifest's entries whose copy is missing or has changed. */
  function Damaged(content: Tree, manifest: Manifest, hash: Bytes -> string): (r: set<Path>) {
    set p | p in manifest && (p !in content.files || hash(content.files[p]) != manifest[p])
  }

  /** Some directory above p is a file, or p itself is a directory. */
  predicate Clash(t: Tree, p: Path) {
    Blocked(t, p) || p in t.dirs
  }

  predicate Blocked(t: Tree, p: Path) {
    exists d :: d in Parents(p) && d in t.files
  }

  function AllParents(ps: set<Path>): (r: set<Path>) {
    set p, d | p in ps && d in Parents(p) :: d
  }

  /** The files of `from` at the given paths, put over those of t. */
  function Overlaid(t: Tree, from: map<Path, Bytes>, ps: set<Path>): (r: Tree)
    requires ps <= from.Keys
  {
    Tree(map p | p in t.files.Keys + ps :: if p in ps then from[p] else t.files[p], t.dirs + AllParents(ps))
  }

  function Removed(t: Tree, ps: set<Path>): (r: Tree) {
    Tree(t.files - ps, t.dirs)
  }

  function RestoredTree(t: Tree, from: map<Path, Bytes>, gap: Gap): (r: Tree)
    requires gap.rewrite + gap.recreate <= from.Keys
  {
    Removed(Overlaid(t, from, gap.rewrite + gap.recreate), gap.remove)
  }

  /** Where copy2 puts a file whose target p is a directory. */
  function Inside(p: Path): (q: Path)
    requires p != []
  {
    p + [p[|p| - 1]]
  }

  // ---- A directory on disk ----

  class Directory {
    var files: map<Path, Bytes>
    var dirs: set<Path>

    function Value(): (r: Tree)
      reads this
    {
      Tree(files, dirs)
    }

    constructor ()
      ensures Value() == Tree(map[], {})
    {
      files, dirs := map[], {};
    }

    /** mkdir of the parents, then copy2. Copying onto a directory puts the file inside it, under its own name. */
    method CopyFile(p: Path, bytes: Bytes) returns (ok: bool)
      requires WellFormed(Value()) && p != []
      modifies this
      ensures WellFormed(Value())
      ensures ok <==> !Blocked(old(Value()), p) && (p in old(dirs) ==> Inside(p) !in old(dirs))
      ensures ok && p in old(dirs) ==>
        files == old(files)[p + [p[|p| - 1]] := bytes] && dirs == old(dirs) + Parents(p)
      ensures !Clash(old(Value()), p) ==>
        ok && files == old(files)[p := bytes] && dirs == old(dirs) + Parents(p)
      ensures Grown(old(Value()), Value())
      ensures !Ignored(p) ==> SameIgnored(old(Value()), Value())
    {
      if exists d :: d in Parents(p) && d in files {
        return false;
      }
      forall d | d in Parents(p) ensures Parents(d) <= Parents(p) && d != p {
        ParentsNest(p, d);
      }
      dirs := dirs + Parents(p);
      if p !in dirs {
        files := files[p := bytes];
        return true;
      }
      ParentsOfInside(p, p[|p| - 1]);
      assert Inside(p) !in Parents(p) by {
        assert forall d :: d in Parents(p) ==> |d| < |p|;
      }
      if Inside(p) in dirs {
        return false;
      }
      files := files[Inside(p) := bytes];
      return true;
    }

    /** Any edit at all. */
    method Become(t: Tree)
      modifies this
      ensures Value() == t
    {
      files, dirs := t.files, t.dirs;
    }

    method RemoveFiles(which: set<Path>)
      requires WellFormed(Value())
      modifies this
      ensures WellFormed(Value()) && Value() == Removed(old(Value()), which)
    {
      var rest := which;
      ghost var done: set<Path> := {};
      assert files - {} == files;
      while rest != {}
        invariant done + rest == which && done !! rest
        invariant files == old(files) - done && dirs == old(dirs)
        decreases |rest|
      {
        var p :| p in rest;
        MoveOver(done, rest, p);
        assert old(files) - (done + {p}) == old(files) - done - {p};
        files := files - {p};
        rest, done := rest - {p}, done + {p};
      }
      assert done == which;
    }

    /** The copying loop, in any order; it stops at the first error. */
    method CopyFiles(from: map<Path, Bytes>, which: set<Path>) returns (ok: bool)
      requires WellFormed(Value()) && which <= from.Keys && [] !in which
      requires forall p :: p in which ==> !Ignored(p)
      modifies this
      ensures WellFormed(Value()) && SameIgnored(old(Value()), Value())
      ensures NoClash(old(Value()), which) ==> ok && Value() == Overlaid(old(Value()), from, which)
      ensures !(forall p :: p in which ==> !Clash(old(Value()), p)) ==> !ok || exists p :: p in which && p !in files
    {
      ghost var t := Value();
      ghost var clear := NoClash(t, which);
      var rest := which;
      ghost var done: set<Path> := {};
      assert Overlaid(t, from, {}) == t;
      while rest != {}
        invariant done + rest == which && done !! rest
        invariant WellFormed(Value()) && SameIgnored(t, Value()) && Grown(t, Value())
        invariant clear ==> Value() == Overlaid(t, from, done)
        invariant forall p :: p in done ==> !Blocked(t, p)
        decreases |rest|
      {
        var p :| p in rest;
        ghost var before := Value();
        if clear {
          StillNoClash(t, from, which, done, p);
          OverlaidNext(t, from, done, p);
        }
        var copied := CopyFile(p, from[p]);
        SameIgnoredTransitive(t, before, Value());
        if !copied {
          return false;
        }
        BlockedPersists(t, before, p);
        MoveOver(done, rest, p);
        rest, done := rest - {p}, done + {p};
      }
      assert done == which;
      ClashShows(t, Value(), which);
      return true;
    }
  }

  // ---- Measuring ----

  ghost function TotalSize(files: map<Path, Bytes>, ps: set<Path>): (r: nat)
    requires ps <= files.Keys
    ensures ps == {} ==> r == 0
  {
    if ps == {} then 0 else
      var p :| p in ps;
      |files[p]| + TotalSize(files, ps - {p})
  }

  lemma {:induction false} TotalSizeWithout(files: map<Path, Bytes>, ps: set<Path>, p: Path)
    requires ps <= files.Keys && p in ps
    ensures TotalSize(files, ps) == |files[p]| + TotalSize(files, ps - {p})
    decreases |ps|
  {
    var q :| q in ps && TotalSize(files, ps) == |files[q]| + TotalSize(files, ps - {q});
    if q != p {
      TotalSizeWithout(files, ps - {q}, p);
      TotalSizeWithout(files, ps - {p}, q);
      assert ps - {q} - {p} == ps - {p} - {q};
    }
  }

  method Measure(files: map<Path, Bytes>, which: set<Path>) returns (total: nat)
    requires which <= files.Keys
    ensures total == TotalSize(files, which)
  {
    total := 0;
    var rest := which;
    while rest != {}
      invariant rest <= which && total + TotalSize(files, rest) == TotalSize(files, which)
      decreases |rest|
    {
      var p :| p in rest;
      TotalSizeWithout(files, rest, p);
      total := total + |files[p]|;
      rest := rest - {p};
    }
  }

  // ---- The checkpoint ----

  datatype CheckpointError = TooBig | Corrupted | FileSystem

  class Checkpoint {
    const content: Directory
    var manifest: Option<Manifest>

    constructor ()
      ensures Valid() && manifest == None && content.Value() == Tree(map[], {}) && fresh(content)
    {
      content := new Directory();
      manifest := None;
    }

    /** Nothing else writes manifests, so they never list an ignored file. */
    ghost predicate Valid()
      reads this, content
    {
      WellFormed(content.Value()) && (manifest.Some? ==> forall p :: p in manifest.value ==> !Ignored(p))
    }

    ghost predicate Intact(hash: Bytes -> string)
      reads this, content
    {
      manifest.Some? && Damaged(content.Value(), manifest.value, hash) == {}
    }

    /** A fresh checkpoint always succeeds below the limit; an error leaves the old manifest in place. The copy is good
        exactly when no path clashes with what the destination already holds. */
    method Take(workspace: Directory, limit: Option<nat>, hash: Bytes -> string)
      returns (r: Result<Manifest, CheckpointError>)
      requires Valid() && WellFormed(workspace.Value()) && workspace != content
      modifies this, content
      ensures Valid()
      ensures r == Err(TooBig) <==>
        limit.Some? && TotalSize(workspace.files, Tracked(workspace.Value())) > limit.value
      ensures r == Err(TooBig) ==> content.Value() == old(content.Value())
      ensures r.Err? ==> manifest == old(manifest)
      ensures r.Ok? ==> r.value == ManifestOf(workspace.Value(), hash) && manifest == Some(r.value)
      ensures r.Ok? ==> forall p :: p in r.value <==> p in workspace.files && !Ignored(p)
      ensures r.Ok? ==> forall p :: p in r.value ==> r.value[p] == hash(workspace.files[p])
      ensures r != Err(TooBig) && (forall p :: p in Tracked(workspace.Value()) ==> !Clash(old(content.Value()), p)) ==>
        && r.Ok?
        && content.Value() == Overlaid(old(content.Value()), workspace.files, Tracked(workspace.Value()))
      ensures r != Err(TooBig) ==>
        (r.Ok? && Intact(hash) <==> forall p :: p in Tracked(workspace.Value()) ==> !Clash(old(content.Value()), p))
    {
      var which := Tracked(workspace.Value());
      if limit.Some? {
        var total := Measure(workspace.files, which);
        if total > limit.value {
          return Err(TooBig);
        }
      }
      TrackedApart(workspace.Value());
      ghost var before := content.Value();
      var ok := content.CopyFiles(workspace.files, which);
      if !ok {
        return Err(FileSystem);
      }
      manifest := Some(ManifestOf(workspace.Value(), hash));
      CopyIsIntactIff(before, content.Value(), workspace.Value(), hash);
      return Ok(manifest.value);
    }

    method Verify(hash: Bytes -> string) returns (r: Result<set<Path>, CheckpointError>)
      requires Valid()
      ensures r == if manifest.None? then Err(Corrupted) else Ok(Damaged(content.Value(), manifest.value, hash))
    {
      if manifest.None? {
        return Err(Corrupted);
      }
      var damaged := FindDamaged(content.files, manifest.value, hash);
      assert damaged == Damaged(content.Value(), manifest.value, hash);
      return Ok(damaged);
    }

    /** Checks the copy before it writes anything. */
    method Restore(workspace: Directory, hash: Bytes -> string) returns (r: Result<Gap, CheckpointError>)
      requires Valid() && WellFormed(workspace.Value()) && workspace != content
      modifies workspace
      ensures r == Err(Corrupted) <==> !Intact(hash)
      ensures r.Ok? ==> manifest.Some? && r.value == GapOf(old(workspace.Value()), manifest.value, hash)
      ensures r.Ok? ==> forall p :: p in r.value.rewrite <==>
        p in manifest.value && p in old(workspace.files) && hash(old(workspace.files)[p]) != manifest.value[p]
      ensures r.Ok? ==> forall p :: p in r.value.recreate <==> p in manifest.value && p !in old(workspace.files)
      ensures r.Ok? ==> forall p :: p in r.value.remove <==>
        p in old(workspace.files) && !Ignored(p) && p !in manifest.value
      ensures !Intact(hash) ==> workspace.Value() == old(workspace.Value())
      ensures WellFormed(workspace.Value()) && SameIgnored(old(workspace.Value()), workspace.Value())
      ensures Intact(hash) ==>
        (r.Ok? && GapOf(workspace.Value(), manifest.value, hash) == NO_GAP <==>
           forall p :: p in manifest.value ==> !Clash(old(workspace.Value()), p))
      ensures Intact(hash) && (forall p :: p in manifest.value ==> !Clash(old(workspace.Value()), p)) ==>
        var gap := GapOf(old(workspace.Value()), manifest.value, hash);
        && gap.rewrite + gap.recreate <= content.files.Keys
        && workspace.Value() == RestoredTree(old(workspace.Value()), content.files, gap)
    {
      var damaged := Verify(hash);
      if damaged.Err? || damaged.value != {} {
        return Err(Corrupted);
      }
      var gap := GapOf(workspace.Value(), manifest.value, hash);
      GapTells(workspace.Value(), manifest.value, hash);
      ghost var t := workspace.Value();
      GapNeedsNoClash(t, content.Value(), manifest.value, hash);
      var ok := workspace.CopyFiles(content.files, gap.rewrite + gap.recreate);
      if !ok {
        return Err(FileSystem);
      }
      ghost var copied := workspace.Value();
      workspace.RemoveFiles(gap.remove);
      if forall p :: p in manifest.value ==> !Clash(t, p) {
        NoGapAfterwards(t, content.Value(), manifest.value, hash);
      } else {
        MissingIsGap(copied, manifest.value, hash, gap);
      }
      return Ok(gap);
    }
  }

  /** What a difference lists: files whose content has changed, files that are gone, and files that are new. */
  lemma GapTells(t: Tree, manifest: Manifest, hash: Bytes -> string)
    requires forall p :: p in manifest ==> !Ignored(p)
    ensures var gap := GapOf(t, manifest, hash);
            forall p ::
              && (p in gap.rewrite <==> p in manifest && p in t.files && hash(t.files[p]) != manifest[p])
              && (p in gap.recreate <==> p in manifest && p !in t.files)
              && (p in gap.remove <==> p in t.files && !Ignored(p) && p !in manifest)
  {
  }

  /** A copy that could not be laid over its destination does not match its manifest. */
  lemma CopyIsIntactIff(before: Tree, after: Tree, workspace: Tree, hash: Bytes -> string)
    requires (forall p :: p in Tracked(workspace) ==> !Clash(before, p)) ==>
      after == Overlaid(before, workspace.files, Tracked(workspace))
    requires (forall p :: p in Tracked(workspace) ==> !Clash(before, p)) ||
      exists p :: p in Tracked(workspace) && p !in after.files
    ensures Damaged(after, ManifestOf(workspace, hash), hash) == {} <==>
      forall p :: p in Tracked(workspace) ==> !Clash(before, p)
  {
    if p :| p in Tracked(workspace) && p !in after.files {
      assert p in Damaged(after, ManifestOf(workspace, hash), hash);
    }
  }

  method FindDamaged(content: map<Path, Bytes>, manifest: Manifest, hash: Bytes -> string) returns (damaged: set<Path>)
    ensures forall p :: p in damaged <==> p in manifest && (p !in content || hash(content[p]) != manifest[p])
  {
    damaged := {};
    var rest := manifest.Keys;
    while rest != {}
      invariant rest <= manifest.Keys
      invariant forall p :: p in damaged <==>
        p in manifest && p !in rest && (p !in content || hash(content[p]) != manifest[p])
      decreases |rest|
    {
      var p :| p in rest;
      if p !in content || hash(content[p]) != manifest[p] {
        damaged := damaged + {p};
      }
      rest := rest - {p};
    }
  }

  /** With an intact copy, only clashes between the manifest and the workspace can stand in the way. */
  lemma GapNeedsNoClash(t: Tree, content: Tree, manifest: Manifest, hash: Bytes -> string)
    requires WellFormed(t) && WellFormed(content) && Damaged(content, manifest, hash) == {}
    ensures manifest.Keys <= content.files.Keys && [] !in manifest
    ensures var which := GapOf(t, manifest, hash).rewrite + GapOf(t, manifest, hash).recreate;
            && ((forall p :: p in which ==> !Clash(t, p)) <==> (forall p :: p in manifest ==> !Clash(t, p)))
            && ((forall p :: p in manifest ==> !Clash(t, p)) <==> NoClash(t, which))
  {
    forall p | p in manifest ensures p in content.files {
      assert p !in content.files ==> p in Damaged(content, manifest, hash);
    }
    TrackedApart(content);
    forall p | p in t.files ensures !Clash(t, p) {
    }
  }

  lemma NoGapAfterwards(t: Tree, content: Tree, manifest: Manifest, hash: Bytes -> string)
    requires Damaged(content, manifest, hash) == {} && manifest.Keys <= content.files.Keys
    requires forall p :: p in manifest ==> !Ignored(p)
    ensures var gap := GapOf(t, manifest, hash);
            GapOf(RestoredTree(t, content.files, gap), manifest, hash) == NO_GAP
  {
    forall p | p in manifest ensures hash(content.files[p]) == manifest[p] {
      assert hash(content.files[p]) != manifest[p] ==> p in Damaged(content, manifest, hash);
    }
  }

  lemma MissingIsGap(t: Tree, manifest: Manifest, hash: Bytes -> string, gap: Gap)
    requires exists p :: p in manifest && p !in t.files
    ensures GapOf(Removed(t, gap.remove), manifest, hash) != NO_GAP
  {
    var p :| p in manifest && p !in t.files;
    assert p in GapOf(Removed(t, gap.remove), manifest, hash).recreate;
  }

  // ---- The round trip ----

  ghost predicate Injective(hash: Bytes -> string) {
    forall a, b :: hash(a) == hash(b) ==> a == b
  }

  /** Every tracked file has its old content again, no other tracked file is left, and ignored files are as the edits
      left them. */
  predicate IsBack(before: Tree, edited: Tree, after: Tree) {
    && Tracked(after) == Tracked(before)
    && (forall p :: p in Tracked(before) ==> after.files[p] == before.files[p])
    && SameIgnored(edited, after)
  }

  /** With an injective hash, no difference to the manifest means that every tracked file is back, and conversely. */
  lemma NoGapIffBack(before: Tree, edited: Tree, after: Tree, hash: Bytes -> string)
    requires Injective(hash) && SameIgnored(edited, after)
    ensures GapOf(after, ManifestOf(before, hash), hash) == NO_GAP <==> IsBack(before, edited, after)
  {
    var gap := GapOf(after, ManifestOf(before, hash), hash);
    if gap == NO_GAP {
      forall p ensures p in Tracked(after) <==> p in Tracked(before) {
        assert p !in gap.recreate && p !in gap.remove;
      }
      forall p | p in Tracked(before) ensures after.files[p] == before.files[p] {
        assert p !in gap.rewrite;
      }
    }
  }

  /** Against the snapshot: with an injective hash, what is rewritten was edited, what is recreated was deleted, and
      what is removed was added. */
  lemma GapIsTheEdit(before: Tree, edited: Tree, hash: Bytes -> string)
    requires Injective(hash)
    ensures var gap := GapOf(edited, ManifestOf(before, hash), hash);
            forall p ::
              && (p in gap.rewrite <==>
                    !Ignored(p) && p in before.files && p in edited.files && edited.files[p] != before.files[p])
              && (p in gap.recreate <==> !Ignored(p) && p in before.files && p !in edited.files)
              && (p in gap.remove <==> !Ignored(p) && p in edited.files && p !in before.files)
  {
    forall p | p in Tracked(before) ensures ManifestOf(before, hash)[p] == hash(before.files[p]) {
    }
  }

  lemma FreshCopyIsIntact(before: Tree, hash: Bytes -> string)
    ensures Damaged(Overlaid(Tree(map[], {}), before.files, Tracked(before)), ManifestOf(before, hash), hash) == {}
  {
  }

  /** Take, then any edits, then restore: with an injective hash the workspace is back exactly when no file of the
      snapshot meets a directory in its place, or a file in the place of a directory above it. */
  method RoundTrip(workspace: Directory, edited: Tree, hash: Bytes -> string) returns (r: Result<Gap, CheckpointError>)
    requires WellFormed(workspace.Value()) && WellFormed(edited) && Injective(hash)
    modifies workspace
    ensures r.Ok? && IsBack(old(workspace.Value()), edited, workspace.Value()) <==>
            forall p :: p in Tracked(old(workspace.Value())) ==> !Clash(edited, p)
    ensures SameIgnored(edited, workspace.Value())
    ensures r.Ok? ==> forall p :: p in r.value.rewrite <==>
      !Ignored(p) && p in old(workspace.files) && p in edited.files && edited.files[p] != old(workspace.files)[p]
    ensures r.Ok? ==> forall p :: p in r.value.recreate <==>
      !Ignored(p) && p in old(workspace.files) && p !in edited.files
    ensures r.Ok? ==> forall p :: p in r.value.remove <==>
      !Ignored(p) && p in edited.files && p !in old(workspace.files)
  {
    ghost var before := workspace.Value();
    var checkpoint := new Checkpoint();
    var taken := checkpoint.Take(workspace, None, hash);
    assert forall p :: p in Tracked(before) ==> !Clash(Tree(map[], {}), p);
    workspace.Become(edited);
    FreshCopyIsIntact(before, hash);
    r := checkpoint.Restore(workspace, hash);
    NoGapIffBack(before, edited, workspace.Value(), hash);
    GapIsTheEdit(before, edited, hash);
  }

  /** The files of a tree do not lie above one another. */
  lemma TrackedApart(t: Tree)
    requires WellFormed(t)
    ensures forall p, q :: p in t.files && q in t.files ==> p !in Parents(q)
  {
  }

  // ---- Clashes ----

  /** Copying these files meets no obstacle: not in the tree, and not among themselves. */
  predicate NoClash(t: Tree, ps: set<Path>) {
    && (forall p :: p in ps ==> !Clash(t, p))
    && (forall p, q :: p in ps && q in ps ==> p !in Parents(q))
  }

  predicate SameIgnored(t: Tree, t': Tree) {
    && (forall p :: p in t'.files && Ignored(p) ==> p in t.files && t'.files[p] == t.files[p])
    && (forall p :: p in t.files && Ignored(p) ==> p in t'.files)
  }

  /** No file and no directory has gone. */
  predicate Grown(t: Tree, t': Tree) {
    t.files.Keys <= t'.files.Keys && t.dirs <= t'.dirs
  }

  lemma SameIgnoredTransitive(t: Tree, t': Tree, t'': Tree)
    requires SameIgnored(t, t') && SameIgnored(t', t'')
    ensures SameIgnored(t, t'')
  {
  }

  lemma BlockedPersists(t: Tree, t': Tree, p: Path)
    requires Grown(t, t')
    ensures Blocked(t, p) ==> Blocked(t', p)
  {
  }

  /** A path that is a directory does not become a file. */
  lemma ClashShows(t: Tree, t': Tree, ps: set<Path>)
    requires Grown(t, t') && WellFormed(t') && forall p :: p in ps ==> !Blocked(t, p)
    ensures (forall p :: p in ps ==> !Clash(t, p)) || exists p :: p in ps && p !in t'.files
  {
    if p :| p in ps && p in t.dirs {
      assert p !in t'.files;
    }
  }

  lemma StillNoClash(t: Tree, from: map<Path, Bytes>, ps: set<Path>, done: set<Path>, p: Path)
    requires NoClash(t, ps) && done <= ps <= from.Keys && p in ps
    ensures !Clash(Overlaid(t, from, done), p)
  {
  }

  lemma OverlaidNext(t: Tree, from: map<Path, Bytes>, done: set<Path>, p: Path)
    requires done <= from.Keys && p in from
    ensures var now := Overlaid(t, from, done);
            Overlaid(t, from, done + {p}) == Tree(now.files[p := from[p]], now.dirs + Parents(p))
  {
    assert AllParents(done + {p}) == AllParents(done) + Parents(p);
  }
}
