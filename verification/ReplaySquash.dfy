/**
 Replaying the commits beyond the baseline as a series against applying their
 net diff in one go (copyflow/apply.go). A commit is its tree; a patch records,
 for every path that changes, the content before and after.
 */
module ReplaySquash {
  import opened Results

  type Tree = map<string, string>

  function At(t: Tree, path: string): Option<string> {
    if path in t then Some(t[path]) else None
  }

  datatype Change = Change(before: Option<string>, after: Option<string>)

  type Patch = map<string, Change>

  // git diff between two trees.
  function Diff(a: Tree, b: Tree): Patch {
    map p | p in a.Keys + b.Keys && At(a, p) != At(b, p) :: Change(At(a, p), At(b, p))
  }

  // git apply: every changed path must hold what the patch expects.
  predicate Fits(patch: Patch, t: Tree) {
    forall p :: p in patch ==> At(t, p) == patch[p].before
  }

  function After(patch: Patch, t: Tree, p: string): Option<string> {
    if p in patch then patch[p].after else At(t, p)
  }

  function Patched(patch: Patch, t: Tree): Tree {
    map p | p in t.Keys + patch.Keys && After(patch, t, p).Some? :: After(patch, t, p).value
  }

  lemma PatchedAt(patch: Patch, t: Tree, p: string)
    ensures At(Patched(patch, t), p) == After(patch, t, p)
  {
  }

  lemma TreesEqual(a: Tree, b: Tree)
    requires forall p :: At(a, p) == At(b, p)
    ensures a == b
  {
    forall p
      ensures (p in a <==> p in b) && (p in a ==> a[p] == b[p])
    {
      assert At(a, p) == At(b, p);
    }
  }

  lemma DiffEmptyIff(a: Tree, b: Tree)
    ensures Diff(a, b) == map[] <==> a == b
  {
    if Diff(a, b) == map[] {
      forall p
        ensures At(a, p) == At(b, p)
      {
        assert p !in Diff(a, b);
      }
      TreesEqual(a, b);
    }
  }

  // ---------- the two ways to apply ----------

  datatype Applied = Applied(host: Tree, baseline: nat)

  // patches[i] is the patch of the commit that leads from tree i to tree i+1.
  ghost predicate PatchesOf(patches: seq<Patch>, trees: seq<Tree>) {
    && |patches| + 1 == |trees|
    && forall i {:trigger patches[i]} :: 0 <= i < |patches| ==> patches[i] == Diff(trees[i], trees[i + 1])
  }

  // Some commit of the range has something to apply.
  predicate SomePatch(patches: seq<Patch>, from: nat, head: nat)
    requires from <= head <= |patches|
  {
    exists i :: from <= i < head && patches[i] != map[]
  }

  // The patch files of a range: one per commit, oldest first, empty ones skipped.
  function Files(patches: seq<Patch>, from: nat, head: nat): seq<Patch>
    requires from <= head <= |patches|
    decreases head - from
  {
    if from == head then []
    else (if patches[from] == map[] then [] else [patches[from]]) + Files(patches, from + 1, head)
  }

  // git am on a list of patches; None when one does not fit.
  function AmAll(files: seq<Patch>, host: Tree): Option<Tree> {
    if files == [] then Some(host)
    else if !Fits(files[0], host) then None
    else AmAll(files[1..], Patched(files[0], host))
  }

  lemma AmOne(first: Patch, rest: seq<Patch>, host: Tree)
    ensures AmAll([first] + rest, host)
         == if Fits(first, host) then AmAll(rest, Patched(first, host)) else None
  {
    assert ([first] + rest)[1..] == rest;
  }

  // The host after the commits that follow position `from` are replayed.
  function Replayed(patches: seq<Patch>, from: nat, head: nat, host: Tree): Option<Tree>
    requires from <= head <= |patches|
  {
    AmAll(Files(patches, from, head), host)
  }

  lemma ReplayUnfolds(patches: seq<Patch>, from: nat, head: nat, host: Tree)
    requires from < head <= |patches|
    ensures Replayed(patches, from, head, host)
         == if patches[from] == map[] then Replayed(patches, from + 1, head, host)
            else if Fits(patches[from], host) then Replayed(patches, from + 1, head, Patched(patches[from], host))
            else None
  {
    var rest := Files(patches, from + 1, head);
    if patches[from] == map[] {
      assert [] + rest == rest;
    } else {
      AmOne(patches[from], rest, host);
    }
  }

  lemma FilesStep(built: seq<Patch>, patches: seq<Patch>, from: nat, head: nat)
    requires from < head <= |patches|
    ensures (if patches[from] == map[] then built else built + [patches[from]]) + Files(patches, from + 1, head)
         == built + Files(patches, from, head)
  {
    var rest := Files(patches, from + 1, head);
    assert built + ([patches[from]] + rest) == built + [patches[from]] + rest;
    assert [] + rest == rest;
  }

  lemma {:induction false} FilesEmptyIff(patches: seq<Patch>, from: nat, head: nat)
    requires from <= head <= |patches|
    ensures Files(patches, from, head) == [] <==> !SomePatch(patches, from, head)
    decreases head - from
  {
    if from < head {
      FilesEmptyIff(patches, from + 1, head);
    }
  }

  // GenerateFormatPatch, given each commit's patch.
  method GenerateFormatPatch(patches: seq<Patch>, baseline: nat) returns (files: seq<Patch>)
    requires baseline <= |patches|
    ensures files == Files(patches, baseline, |patches|)
  {
    files := [];
    for i := baseline to |patches|
      invariant files + Files(patches, i, |patches|) == Files(patches, baseline, |patches|)
    {
      FilesStep(files, patches, i, |patches|);
      if patches[i] == map[] {
        continue;
      }
      files := files + [patches[i]];
    }
  }

  method ApplyFormatPatch(files: seq<Patch>, host: Tree) returns (r: Option<Tree>)
    ensures r == AmAll(files, host)
  {
    var tree := host;
    assert files[0..] == files;
    for k := 0 to |files|
      invariant AmAll(files[k..], tree) == AmAll(files, host)
    {
      assert files[k..][1..] == files[k + 1..];
      if !Fits(files[k], tree) {
        return None;
      }
      tree := Patched(files[k], tree);
    }
    return Some(tree);
  }

  // What a series apply leaves, given each commit's patch: git am applies the patch
  // files in order or not at all, and the baseline advances to HEAD unless there
  // was no file.
  function SeriesOutcome(patches: seq<Patch>, baseline: nat, host: Tree): Option<Applied>
    requires baseline <= |patches|
  {
    match AmAll(Files(patches, baseline, |patches|), host)
    case None => None
    case Some(tree) => Some(Applied(tree, if SomePatch(patches, baseline, |patches|) then |patches| else baseline))
  }

  // ApplySeries without refs or paths. A dry run lists the commits and stops.
  method ApplySeries(patches: seq<Patch>, baseline: nat, host: Tree, dryRun: bool) returns (r: Option<Applied>)
    requires baseline <= |patches|
    ensures dryRun ==> r == Some(Applied(host, baseline))
    ensures !dryRun ==> r == SeriesOutcome(patches, baseline, host)
  {
    if dryRun {
      return Some(Applied(host, baseline));
    }
    var files := GenerateFormatPatch(patches, baseline);
    FilesEmptyIff(patches, baseline, |patches|);
    if |files| == 0 {
      return Some(Applied(host, baseline));
    }
    var tree := ApplyFormatPatch(files, host);
    return if tree.None? then None else Some(Applied(tree.value, |patches|));
  }

  // ApplyAll without paths or uncommitted edits: one net diff; an empty one is
  // nothing to apply and does not advance the baseline. A dry run stops after the
  // check that the patch fits, so it fails exactly when the real one does.
  method ApplyAll(trees: seq<Tree>, baseline: nat, host: Tree, dryRun: bool) returns (r: Option<Applied>)
    requires baseline < |trees|
    ensures !dryRun ==> r == Squash(trees, baseline, |trees| - 1, host)
    ensures dryRun ==> r == if Squash(trees, baseline, |trees| - 1, host).None? then None
                            else Some(Applied(host, baseline))
  {
    var patch := Diff(trees[baseline], trees[|trees| - 1]);
    if patch == map[] {
      return Some(Applied(host, baseline));
    }
    if !Fits(patch, host) {
      return None;
    }
    if dryRun {
      return Some(Applied(host, baseline));
    }
    return Some(Applied(Patched(patch, host), |trees| - 1));
  }

  function Squash(trees: seq<Tree>, baseline: nat, head: nat, host: Tree): Option<Applied>
    requires baseline <= head < |trees|
  {
    var patch := Diff(trees[baseline], trees[head]);
    if patch == map[] then Some(Applied(host, baseline))
    else if Fits(patch, host) then Some(Applied(Patched(patch, host), head))
    else None
  }

  // ---------- they agree ----------

  // The commit after position i changes path p.
  predicate Changes(trees: seq<Tree>, i: nat, p: string)
    requires i + 1 < |trees|
  {
    At(trees[i], p) != At(trees[i + 1], p)
  }

  // A path some commit in the range changes.
  ghost predicate Touched(trees: seq<Tree>, from: nat, head: nat, p: string)
    requires from <= head < |trees|
  {
    exists i :: from <= i < head && Changes(trees, i, p)
  }

  // The host may carry its own edits, but not in paths the range touches.
  ghost predicate Clean(trees: seq<Tree>, from: nat, head: nat, host: Tree)
    requires from <= head < |trees|
  {
    forall p :: Touched(trees, from, head, p) ==> At(host, p) == At(trees[from], p)
  }

  lemma {:induction false} UntouchedIsUnchanged(trees: seq<Tree>, from: nat, head: nat, p: string)
    requires from <= head < |trees| && !Touched(trees, from, head, p)
    ensures At(trees[from], p) == At(trees[head], p)
    decreases head
  {
    if from < head {
      assert !Changes(trees, head - 1, p);
      UntouchedIsUnchanged(trees, from, head - 1, p);
    }
  }

  lemma TouchedSplits(trees: seq<Tree>, from: nat, head: nat, p: string)
    requires from < head < |trees|
    ensures Touched(trees, from, head, p) <==> Changes(trees, from, p) || Touched(trees, from + 1, head, p)
  {
  }

  // The host once the patch between two trees has been applied, if not empty.
  function OneApplied(a: Tree, b: Tree, host: Tree): Tree {
    if Diff(a, b) == map[] then host else Patched(Diff(a, b), host)
  }

  lemma OneAppliedAt(a: Tree, b: Tree, host: Tree, p: string)
    ensures At(OneApplied(a, b, host), p) == if At(a, p) != At(b, p) then At(b, p) else At(host, p)
  {
    PatchedAt(Diff(a, b), host, p);
    assert p in Diff(a, b) <==> At(a, p) != At(b, p);
  }

  lemma FirstPatchFits(trees: seq<Tree>, from: nat, head: nat, host: Tree)
    requires from < head < |trees| && Clean(trees, from, head, host)
    ensures Fits(Diff(trees[from], trees[from + 1]), host)
    ensures Clean(trees, from + 1, head, OneApplied(trees[from], trees[from + 1], host))
  {
    forall p
      ensures Changes(trees, from, p) ==> At(host, p) == At(trees[from], p)
      ensures Touched(trees, from + 1, head, p) ==>
                At(OneApplied(trees[from], trees[from + 1], host), p) == At(trees[from + 1], p)
    {
      TouchedSplits(trees, from, head, p);
      OneAppliedAt(trees[from], trees[from + 1], host, p);
    }
  }

  lemma ReplayStep(trees: seq<Tree>, patches: seq<Patch>, from: nat, head: nat, host: Tree, p: string)
    returns (next: Tree)
    requires PatchesOf(patches, trees) && from < head < |trees| && Clean(trees, from, head, host)
    ensures Replayed(patches, from, head, host) == Replayed(patches, from + 1, head, next)
    ensures Clean(trees, from + 1, head, next)
    ensures At(next, p) == if Changes(trees, from, p) then At(trees[from + 1], p) else At(host, p)
  {
    next := OneApplied(trees[from], trees[from + 1], host);
    FirstPatchFits(trees, from, head, host);
    ReplayUnfolds(patches, from, head, host);
    OneAppliedAt(trees[from], trees[from + 1], host, p);
  }

  // What path p holds after the range: HEAD's content if touched, else the host's.
  ghost function Expected(trees: seq<Tree>, from: nat, head: nat, host: Tree, p: string): Option<string>
    requires from <= head < |trees|
  {
    if Touched(trees, from, head, p) then At(trees[head], p) else At(host, p)
  }

  lemma ExpectedStep(trees: seq<Tree>, from: nat, head: nat, host: Tree, next: Tree, p: string)
    requires from < head < |trees|
    requires At(next, p) == if Changes(trees, from, p) then At(trees[from + 1], p) else At(host, p)
    ensures Expected(trees, from, head, host, p) == Expected(trees, from + 1, head, next, p)
  {
    TouchedSplits(trees, from, head, p);
    if !Touched(trees, from + 1, head, p) {
      UntouchedIsUnchanged(trees, from + 1, head, p);
    }
  }

  lemma {:induction false} ReplayResult(trees: seq<Tree>, patches: seq<Patch>, from: nat, head: nat, host: Tree,
                                        p: string) returns (r: Tree)
    requires PatchesOf(patches, trees) && from <= head < |trees| && Clean(trees, from, head, host)
    ensures Replayed(patches, from, head, host) == Some(r)
    ensures At(r, p) == Expected(trees, from, head, host, p)
    decreases head - from
  {
    if from == head {
      r := host;
    } else {
      var next := ReplayStep(trees, patches, from, head, host, p);
      r := ReplayResult(trees, patches, from + 1, head, next, p);
      ExpectedStep(trees, from, head, host, next, p);
    }
  }

  lemma SquashResult(trees: seq<Tree>, from: nat, head: nat, host: Tree, p: string)
    requires from <= head < |trees| && Clean(trees, from, head, host)
    ensures Squash(trees, from, head, host).Some?
    ensures At(Squash(trees, from, head, host).value.host, p) == Expected(trees, from, head, host, p)
  {
    var patch := Diff(trees[from], trees[head]);
    forall q | q in patch
      ensures At(host, q) == patch[q].before && Touched(trees, from, head, q)
    {
      if !Touched(trees, from, head, q) {
        UntouchedIsUnchanged(trees, from, head, q);
      }
    }
    PatchedAt(patch, host, p);
    if Touched(trees, from, head, p) && p !in patch {
      assert At(trees[from], p) == At(trees[head], p);
    }
  }

  // Replaying the series and applying the net diff give the same host tree, and
  // when the host was at the baseline that tree is HEAD's.
  lemma ReplayEqualsSquash(trees: seq<Tree>, patches: seq<Patch>, from: nat, host: Tree)
    requires PatchesOf(patches, trees) && from <= |patches| && Clean(trees, from, |patches|, host)
    ensures var series, squash := SeriesOutcome(patches, from, host), Squash(trees, from, |patches|, host);
            && series.Some? && squash.Some?
            && series.value.host == squash.value.host
            && (host == trees[from] ==> series.value.host == trees[|patches|])
  {
    var head := |patches|;
    SquashResult(trees, from, head, host, "");
    var a := ReplayResult(trees, patches, from, head, host, "");
    var b := Squash(trees, from, head, host).value.host;
    forall p
      ensures At(a, p) == At(b, p)
      ensures host == trees[from] ==> At(a, p) == At(trees[head], p)
    {
      var r := ReplayResult(trees, patches, from, head, host, p);
      SquashResult(trees, from, head, host, p);
      if !Touched(trees, from, head, p) {
        UntouchedIsUnchanged(trees, from, head, p);
      }
    }
    TreesEqual(a, b);
    if host == trees[from] {
      TreesEqual(a, trees[head]);
    }
  }

  lemma {:induction false} NoPatchSameTree(trees: seq<Tree>, patches: seq<Patch>, from: nat, head: nat)
    requires PatchesOf(patches, trees) && from <= head <= |patches| && !SomePatch(patches, from, head)
    ensures trees[from] == trees[head]
    decreases head
  {
    if from < head {
      NoPatchSameTree(trees, patches, from, head - 1);
      assert patches[head - 1] == map[];
      DiffEmptyIff(trees[head - 1], trees[head]);
    }
  }

  // Both ways leave the same baseline exactly when the commits do not cancel out:
  // with changes that undo each other the series advances to HEAD, while the net
  // diff is empty and leaves the baseline where it was.
  lemma BaselinesAgreeIff(trees: seq<Tree>, patches: seq<Patch>, from: nat, host: Tree)
    requires PatchesOf(patches, trees) && from <= |patches| && Clean(trees, from, |patches|, host)
    ensures var series, squash := SeriesOutcome(patches, from, host), Squash(trees, from, |patches|, host);
            && series.Some? && squash.Some?
            && (series.value.baseline == squash.value.baseline
                <==> !(trees[from] == trees[|patches|] && SomePatch(patches, from, |patches|)))
  {
    var head := |patches|;
    var r := ReplayResult(trees, patches, from, head, host, "");
    SquashResult(trees, from, head, host, "");
    DiffEmptyIff(trees[from], trees[head]);
    if !SomePatch(patches, from, head) {
      NoPatchSameTree(trees, patches, from, head);
    }
  }

  // A commit and its revert: same tree either way, different baselines.
  lemma RevertedWorkSplitsBaselines(base: Tree, changed: Tree)
    requires base != changed
    ensures var trees := [base, changed, base];
            var patches := [Diff(base, changed), Diff(changed, base)];
            && PatchesOf(patches, trees)
            && SeriesOutcome(patches, 0, base) == Some(Applied(base, 2))
            && Squash(trees, 0, 2, base) == Some(Applied(base, 0))
  {
    var trees := [base, changed, base];
    var patches := [Diff(base, changed), Diff(changed, base)];
    DiffEmptyIff(base, changed);
    DiffEmptyIff(base, base);
    assert patches[0] != map[];
    ReplayEqualsSquash(trees, patches, 0, base);
  }

  // ---------- exactly when they succeed ----------

  // The net diff applies exactly when the host holds the baseline's content in every
  // path it changes; then those paths hold HEAD's content and no other path changes.
  lemma SquashSucceedsIff(trees: seq<Tree>, from: nat, head: nat, host: Tree)
    requires from <= head < |trees|
    ensures Squash(trees, from, head, host).Some?
       <==> forall p :: At(trees[from], p) != At(trees[head], p) ==> At(host, p) == At(trees[from], p)
    ensures Squash(trees, from, head, host).Some? ==>
              forall p :: At(Squash(trees, from, head, host).value.host, p)
                       == if At(trees[from], p) != At(trees[head], p) then At(trees[head], p) else At(host, p)
  {
    var patch := Diff(trees[from], trees[head]);
    forall p
      ensures p in patch <==> At(trees[from], p) != At(trees[head], p)
      ensures At(Patched(patch, host), p) == After(patch, host, p)
    {
      PatchedAt(patch, host, p);
    }
  }

  lemma FitsIff(a: Tree, b: Tree, host: Tree)
    ensures Fits(Diff(a, b), host) <==> forall p :: At(a, p) != At(b, p) ==> At(host, p) == At(a, p)
  {
    forall p
      ensures p in Diff(a, b) <==> At(a, p) != At(b, p)
    {
    }
  }

  // A host that is clean for the first patch, and after it for the rest, is clean.
  lemma CleanBack(trees: seq<Tree>, from: nat, head: nat, host: Tree)
    requires from < head < |trees| && Fits(Diff(trees[from], trees[from + 1]), host)
    requires Clean(trees, from + 1, head, OneApplied(trees[from], trees[from + 1], host))
    ensures Clean(trees, from, head, host)
  {
    FitsIff(trees[from], trees[from + 1], host);
    forall p | Touched(trees, from, head, p)
      ensures At(host, p) == At(trees[from], p)
    {
      TouchedSplits(trees, from, head, p);
      OneAppliedAt(trees[from], trees[from + 1], host, p);
    }
  }

  lemma {:induction false} ReplayedIsClean(trees: seq<Tree>, patches: seq<Patch>, from: nat, head: nat, host: Tree)
    requires PatchesOf(patches, trees) && from <= head < |trees| && Replayed(patches, from, head, host).Some?
    ensures Clean(trees, from, head, host)
    decreases head - from
  {
    if from < head {
      ReplayUnfolds(patches, from, head, host);
      assert patches[from] == Diff(trees[from], trees[from + 1]);
      ReplayedIsClean(trees, patches, from + 1, head, OneApplied(trees[from], trees[from + 1], host));
      CleanBack(trees, from, head, host);
    }
  }

  // The series applies exactly when the host holds the baseline's content in every path
  // some commit of it touches; a host edit in any other path is no obstacle, and one in
  // any of these is refused.
  lemma SeriesSucceedsIff(trees: seq<Tree>, patches: seq<Patch>, from: nat, host: Tree)
    requires PatchesOf(patches, trees) && from <= |patches|
    ensures SeriesOutcome(patches, from, host).Some? <==> Clean(trees, from, |patches|, host)
  {
    if SeriesOutcome(patches, from, host).Some? {
      ReplayedIsClean(trees, patches, from, |patches|, host);
    }
    if Clean(trees, from, |patches|, host) {
      var r := ReplayResult(trees, patches, from, |patches|, host, "");
    }
  }

  // So whatever the series accepts the net diff accepts, and not the other way round: a
  // change that a later commit undoes is none in the net diff.
  lemma SquashAcceptsMore(trees: seq<Tree>, patches: seq<Patch>, from: nat, host: Tree)
    requires PatchesOf(patches, trees) && from <= |patches| && SeriesOutcome(patches, from, host).Some?
    ensures Squash(trees, from, |patches|, host).Some?
  {
    SeriesSucceedsIff(trees, patches, from, host);
    ReplayEqualsSquash(trees, patches, from, host);
  }

  // A host edit in a path the range touches is never overwritten: both ways refuse it.
  lemma HostEditIsKept(base: string, theirs: string, mine: string)
    requires base != theirs && mine != base
    ensures var trees: seq<Tree> := [map["f" := base], map["f" := theirs]];
            var patches := [Diff(trees[0], trees[1])];
            SeriesOutcome(patches, 0, map["f" := mine]) == None && Squash(trees, 0, 1, map["f" := mine]) == None
  {
    var trees: seq<Tree> := [map["f" := base], map["f" := theirs]];
    var patches := [Diff(trees[0], trees[1])];
    var host: Tree := map["f" := mine];
    assert At(trees[0], "f") != At(trees[1], "f") && At(host, "f") != At(trees[0], "f");
    SquashSucceedsIff(trees, 0, 1, host);
    assert Changes(trees, 0, "f") && Touched(trees, 0, 1, "f");
    SeriesSucceedsIff(trees, patches, 0, host);
  }
}
