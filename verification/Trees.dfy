/** Repository trees and the per-path three-way merge that `git merge` performs on them. */
module Trees {
  import opened Wrappers

  /** Index of a commit in the object store. */
  type CommitId = nat

  /** Paths the governance scripts tell apart: review receipts, train manifests and everything else. */
  datatype Path =
    | Receipt(pr: int)
    | ManifestFile(slug: string)
    | File(name: string)

  /** The content of a review receipt; `approves` is an intact, green receipt with the disposition APPROVE. */
  datatype ReviewValue = ReviewValue(pr: int, baseCommit: CommitId, reviewedHead: CommitId, author: string,
        reviewer: string, approves: bool, exactPaths: set<Path>)

  /** An independent GitHub review that stands. */
  datatype Endorsement = Endorsement(state: string, reviewer: string)

  datatype Review =
    | ByGithub(endorsement: Endorsement, exactPaths: set<Path>)
    | ByReceipt(value: ReviewValue)

  function ReviewPaths(r: Review): set<Path> {
    match r
    case ByGithub(_, paths) => paths
    case ByReceipt(value) => value.exactPaths
  }

  datatype AttestedCandidate =
    AttestedCandidate(number: int, baseCommit: CommitId, head: CommitId, review: Option<Review>)

  datatype Manifest = Manifest(baseCommit: CommitId, trainBranch: string, candidates: seq<AttestedCandidate>)

  /** File content; a manifest is content that decodes to the attested train, a receipt to a review. */
  datatype Blob = Bytes(content: string) | Attestation(manifest: Manifest) | ReviewFile(value: ReviewValue)

  type Tree = map<Path, Blob>

  datatype Entry = Absent | Present(blob: Blob)

  function At(t: Tree, p: Path): Entry {
    if p in t then Present(t[p]) else Absent
  }

  lemma TreesEqual(a: Tree, b: Tree)
    requires forall p :: At(a, p) == At(b, p)
    ensures a == b
  {
    forall p ensures p in a <==> p in b
    {
      assert At(a, p) == At(b, p);
    }
    forall p | p in a ensures a[p] == b[p]
    {
      assert At(a, p) == At(b, p);
    }
  }

  /** `git diff --name-only a b`. */
  function ChangedPaths(a: Tree, b: Tree): (r: set<Path>)
    ensures forall p :: p in r <==> At(a, p) != At(b, p)
  {
    set p | p in a.Keys + b.Keys && At(a, p) != At(b, p)
  }

  datatype MergeResult = Clean(tree: Tree) | Conflicted

  predicate EntryConflicts(base: Entry, ours: Entry, theirs: Entry) {
    ours != theirs && ours != base && theirs != base
  }

  /** The side that changed since the merge base wins. */
  function MergeEntry(base: Entry, ours: Entry, theirs: Entry): Entry {
    if ours == base then theirs else ours
  }

  function MergeTrees(base: Tree, ours: Tree, theirs: Tree): (r: MergeResult)
    ensures r.Conflicted? <==> exists p :: EntryConflicts(At(base, p), At(ours, p), At(theirs, p))
    ensures r.Clean? ==> forall p :: At(r.tree, p) == MergeEntry(At(base, p), At(ours, p), At(theirs, p))
  {
    if exists p :: p in base.Keys + ours.Keys + theirs.Keys
        && EntryConflicts(At(base, p), At(ours, p), At(theirs, p)) then
      var p :| EntryConflicts(At(base, p), At(ours, p), At(theirs, p));
      Conflicted
    else
      assert forall p :: EntryConflicts(At(base, p), At(ours, p), At(theirs, p)) ==>
          p in base.Keys + ours.Keys + theirs.Keys;
      Clean(map p | p in ours.Keys + theirs.Keys && MergeEntry(At(base, p), At(ours, p), At(theirs, p)).Present?
              :: MergeEntry(At(base, p), At(ours, p), At(theirs, p)).blob)
  }

  /** One merge of a train: the tree of the merge base that git picks, and the tree of the merged head. */
  datatype Step = Step(mergeBase: Tree, head: Tree)

  function Heads(steps: seq<Step>): (r: seq<Tree>)
    ensures |r| == |steps|
    ensures forall i :: 0 <= i < |steps| ==> r[i] == steps[i].head
  {
    seq(|steps|, i requires 0 <= i < |steps| => steps[i].head)
  }

  /** Merge every head in order onto `base`. */
  function MergeAll(base: Tree, steps: seq<Step>): MergeResult
    decreases |steps|
  {
    if steps == [] then
      Clean(base)
    else
      var last := steps[|steps| - 1];
      match MergeAll(base, steps[..|steps| - 1])
      case Conflicted => Conflicted
      case Clean(t) => MergeTrees(last.mergeBase, t, last.head)
  }

  predicate Touches(base: Tree, head: Tree, p: Path) {
    At(head, p) != At(base, p)
  }

  ghost predicate TouchedByAny(base: Tree, heads: seq<Tree>, p: Path) {
    exists i :: 0 <= i < |heads| && Touches(base, heads[i], p)
  }

  /** What a train is meant to hold at `p`: the entry of a head that changed it, or the entry of the base. */
  ghost predicate IsOverlayEntry(base: Tree, heads: seq<Tree>, p: Path, e: Entry) {
    && (forall i :: 0 <= i < |heads| && Touches(base, heads[i], p) ==> e == At(heads[i], p))
    && (!TouchedByAny(base, heads, p) ==> e == At(base, p))
  }

  ghost predicate IsOverlay(base: Tree, heads: seq<Tree>, t: Tree) {
    forall p :: IsOverlayEntry(base, heads, p, At(t, p))
  }

  /** No path is changed by two heads. */
  ghost predicate PathDisjoint(base: Tree, heads: seq<Tree>) {
    forall i, j, p ::
      (0 <= i < |heads| && 0 <= j < |heads| && Touches(base, heads[i], p) && Touches(base, heads[j], p)) ==> i == j
  }

  /** If heads `0..i` change `p`, then merge base `i` agrees with the train base there. */
  ghost predicate NeutralStep(base: Tree, steps: seq<Step>, i: nat, p: Path)
    requires i < |steps|
  {
    TouchedByAny(base, Heads(steps[..i + 1]), p) ==> At(steps[i].mergeBase, p) == At(base, p)
  }

  ghost predicate NeutralAt(base: Tree, steps: seq<Step>, p: Path) {
    forall i :: 0 <= i < |steps| ==> NeutralStep(base, steps, i, p)
  }

  ghost predicate NeutralMergeBases(base: Tree, steps: seq<Step>) {
    forall p :: NeutralAt(base, steps, p)
  }

  lemma HeadsSnoc(steps: seq<Step>)
    requires steps != []
    ensures Heads(steps) == Heads(steps[..|steps| - 1]) + [steps[|steps| - 1].head]
  {
  }

  lemma TouchedSnoc(base: Tree, heads: seq<Tree>, h: Tree, p: Path)
    ensures TouchedByAny(base, heads + [h], p) <==> TouchedByAny(base, heads, p) || Touches(base, h, p)
  {
    if TouchedByAny(base, heads, p) {
      var i :| 0 <= i < |heads| && Touches(base, heads[i], p);
      assert Touches(base, (heads + [h])[i], p);
    }
    assert (heads + [h])[|heads|] == h;
  }

  /** The overlay entry of one more path-disjoint head. */
  lemma OverlaySnoc(base: Tree, heads: seq<Tree>, h: Tree, p: Path, e: Entry)
    requires PathDisjoint(base, heads + [h])
    ensures PathDisjoint(base, heads)
    ensures Touches(base, h, p) ==> !TouchedByAny(base, heads, p)
    ensures IsOverlayEntry(base, heads + [h], p, e) <==>
              if Touches(base, h, p) then e == At(h, p) else IsOverlayEntry(base, heads, p, e)
  {
    var all := heads + [h];
    assert forall i :: 0 <= i < |heads| ==> all[i] == heads[i];
    assert all[|heads|] == h;
    TouchedSnoc(base, heads, h, p);
  }

  /** Merging one more head keeps the overlay at `p` exactly when the merge base is neutral there. */
  lemma OverlayStep(base: Tree, heads: seq<Tree>, h: Tree, p: Path, x: Entry, ours: Entry)
    requires PathDisjoint(base, heads + [h])
    requires IsOverlayEntry(base, heads, p, ours)
    ensures
      (!EntryConflicts(x, ours, At(h, p)) && IsOverlayEntry(base, heads + [h], p, MergeEntry(x, ours, At(h, p))))
      <==> (TouchedByAny(base, heads + [h], p) ==> x == At(base, p))
  {
    TouchedSnoc(base, heads, h, p);
    OverlaySnoc(base, heads, h, p, MergeEntry(x, ours, At(h, p)));
  }

  /** Whatever the merge bases, a path ends up with the base entry or with its overlay entry. */
  lemma {:induction false} MergedEntryAlternatives(base: Tree, steps: seq<Step>, p: Path)
    requires PathDisjoint(base, Heads(steps))
    requires MergeAll(base, steps).Clean?
    ensures
      var e := At(MergeAll(base, steps).tree, p);
      e == At(base, p) || IsOverlayEntry(base, Heads(steps), p, e)
    decreases |steps|
  {
    if steps != [] {
      var last, before := steps[|steps| - 1], steps[..|steps| - 1];
      HeadsSnoc(steps);
      OverlaySnoc(base, Heads(before), last.head, p, At(MergeAll(base, steps).tree, p));
      MergedEntryAlternatives(base, before, p);
    }
  }

  /** A wrong entry is never repaired by a later merge: an overlay has an overlay as prefix. */
  lemma OverlayPrefix(base: Tree, steps: seq<Step>, p: Path)
    requires steps != [] && PathDisjoint(base, Heads(steps))
    requires MergeAll(base, steps).Clean? && IsOverlayEntry(base, Heads(steps), p, At(MergeAll(base, steps).tree, p))
    ensures
      var before := steps[..|steps| - 1];
      IsOverlayEntry(base, Heads(before), p, At(MergeAll(base, before).tree, p))
  {
    var last, before := steps[|steps| - 1], steps[..|steps| - 1];
    HeadsSnoc(steps);
    OverlaySnoc(base, Heads(before), last.head, p, At(MergeAll(base, steps).tree, p));
    MergedEntryAlternatives(base, before, p);
  }

  lemma NeutralSnoc(base: Tree, steps: seq<Step>, p: Path)
    requires steps != []
    ensures
      var n := |steps| - 1;
      NeutralAt(base, steps, p) <==>
      && NeutralAt(base, steps[..n], p)
      && (TouchedByAny(base, Heads(steps), p) ==> At(steps[n].mergeBase, p) == At(base, p))
  {
    var n := |steps| - 1;
    assert steps[..n + 1] == steps;
    forall i | 0 <= i < n ensures NeutralStep(base, steps[..n], i, p) <==> NeutralStep(base, steps, i, p)
    {
      assert steps[..n][..i + 1] == steps[..i + 1];
    }
    assert NeutralStep(base, steps, n, p) <==>
        (TouchedByAny(base, Heads(steps), p) ==> At(steps[n].mergeBase, p) == At(base, p));
  }

  /**
   * A clean merge of path-disjoint heads has the overlay entry at `p` exactly when the merge bases are neutral there.
   */
  lemma {:induction false} MergedEntryIsOverlayIff(base: Tree, steps: seq<Step>, p: Path)
    requires PathDisjoint(base, Heads(steps)) && MergeAll(base, steps).Clean?
    ensures IsOverlayEntry(base, Heads(steps), p, At(MergeAll(base, steps).tree, p)) <==> NeutralAt(base, steps, p)
    decreases |steps|
  {
    if steps != [] {
      var last, before := steps[|steps| - 1], steps[..|steps| - 1];
      var ours := At(MergeAll(base, before).tree, p);
      HeadsSnoc(steps);
      OverlaySnoc(base, Heads(before), last.head, p, ours);
      NeutralSnoc(base, steps, p);
      MergedEntryIsOverlayIff(base, before, p);
      if IsOverlayEntry(base, Heads(steps), p, At(MergeAll(base, steps).tree, p)) {
        OverlayPrefix(base, steps, p);
      }
      if IsOverlayEntry(base, Heads(before), p, ours) {
        OverlayStep(base, Heads(before), last.head, p, At(last.mergeBase, p), ours);
      }
    }
  }

  /** Path-disjoint heads over neutral merge bases never conflict. */
  lemma {:induction false} NeutralMergesAreClean(base: Tree, steps: seq<Step>)
    requires PathDisjoint(base, Heads(steps)) && NeutralMergeBases(base, steps)
    ensures MergeAll(base, steps).Clean?
    decreases |steps|
  {
    if steps != [] {
      var last, before := steps[|steps| - 1], steps[..|steps| - 1];
      HeadsSnoc(steps);
      OverlaySnoc(base, Heads(before), last.head, File(""), Absent);
      forall p ensures NeutralAt(base, before, p)
          && (TouchedByAny(base, Heads(steps), p) ==> At(last.mergeBase, p) == At(base, p))
      {
        assert NeutralAt(base, steps, p);
        NeutralSnoc(base, steps, p);
      }
      NeutralMergesAreClean(base, before);
      forall p ensures !EntryConflicts(At(last.mergeBase, p), At(MergeAll(base, before).tree, p), At(last.head, p))
      {
        MergedEntryIsOverlayIff(base, before, p);
        OverlayStep(base, Heads(before), last.head, p, At(last.mergeBase, p), At(MergeAll(base, before).tree, p));
      }
    }
  }

  /**
   * Path-disjoint heads merge cleanly to the base overlaid with every change exactly when the merge bases are neutral.
   */
  lemma MergeAllIsOverlayIff(base: Tree, steps: seq<Step>)
    requires PathDisjoint(base, Heads(steps))
    ensures
      (MergeAll(base, steps).Clean? && IsOverlay(base, Heads(steps), MergeAll(base, steps).tree))
      <==> NeutralMergeBases(base, steps)
  {
    if NeutralMergeBases(base, steps) {
      NeutralMergesAreClean(base, steps);
    }
    if MergeAll(base, steps).Clean? {
      forall p
        ensures IsOverlayEntry(base, Heads(steps), p, At(MergeAll(base, steps).tree, p)) <==> NeutralAt(base, steps, p)
      {
        MergedEntryIsOverlayIff(base, steps, p);
      }
    }
  }

  /** A conflict is final. */
  lemma {:induction false} CleanPrefix(base: Tree, steps: seq<Step>, n: nat)
    requires n <= |steps| && MergeAll(base, steps).Clean?
    ensures MergeAll(base, steps[..n]).Clean?
    decreases |steps|
  {
    if n < |steps| {
      assert steps[..|steps| - 1][..n] == steps[..n];
      CleanPrefix(base, steps[..|steps| - 1], n);
    } else {
      assert steps[..n] == steps;
    }
  }

  /** The overlay is one tree, whatever the order of the heads. */
  lemma OverlayOrderIndependent(base: Tree, heads: seq<Tree>, reordered: seq<Tree>, t: Tree, u: Tree)
    requires forall h :: h in heads <==> h in reordered
    requires IsOverlay(base, heads, t) && IsOverlay(base, reordered, u)
    ensures t == u
  {
    forall p ensures At(t, p) == At(u, p)
    {
      assert IsOverlayEntry(base, heads, p, At(t, p)) && IsOverlayEntry(base, reordered, p, At(u, p));
      if TouchedByAny(base, heads, p) {
        var i :| 0 <= i < |heads| && Touches(base, heads[i], p);
        assert heads[i] in reordered;
        var j :| 0 <= j < |reordered| && reordered[j] == heads[i];
      }
      if TouchedByAny(base, reordered, p) {
        var j :| 0 <= j < |reordered| && Touches(base, reordered[j], p);
        assert reordered[j] in heads;
      }
    }
    TreesEqual(t, u);
  }
}
