/** What a prepared or accepted train guarantees about the branch it is merged into. */
module TrainTheorems {
  import opened Wrappers
  import opened Trees
  import opened GitStore
  import opened TrainChain
  import opened MergeTrain
  import opened Sequences

  function TreesOf(s: Store, ids: seq<CommitId>): (r: seq<Tree>)
    requires forall i :: 0 <= i < |ids| ==> ids[i] < |s|
    ensures |r| == |ids| && forall i :: 0 <= i < |ids| ==> r[i] == s[ids[i]].tree
  {
    seq(|ids|, i requires 0 <= i < |ids| => s[ids[i]].tree)
  }

  lemma TrainBasesStable(s: Store, s': Store, base: CommitId, heads: seq<CommitId>, h: CommitId)
    requires s <= s' && Known(s, base, heads) && h < |s|
    ensures TrainBases(s, base, heads, h) == TrainBases(s', base, heads, h)
  {
    forall a: CommitId, c: CommitId | c < |s| ensures IsAncestor(s, a, c) <==> IsAncestor(s', a, c)
    {
      AncestryStable(s, s', a, c);
    }
    forall a: CommitId ensures IsShared(s, base, heads, h, a) <==> IsShared(s', base, heads, h, a)
    {
    }
    forall a: CommitId | IsShared(s, base, heads, h, a) ensures a < |s|
    {
      AncestorBound(s, a, h);
    }
    forall a: CommitId ensures a in TrainBases(s, base, heads, h) <==> a in TrainBases(s', base, heads, h)
    {
    }
  }

  lemma TrainTreeStable(s: Store, s': Store, virtual: VirtualBase, base: CommitId, heads: seq<CommitId>)
    requires s <= s' && Known(s, base, heads)
    ensures TrainTree(s, virtual, base, heads) == TrainTree(s', virtual, base, heads)
  {
    forall i | 0 <= i < |heads|
      ensures TrainBases(s, base, heads[..i], heads[i]) == TrainBases(s', base, heads[..i], heads[i])
    {
      TrainBasesStable(s, s', base, heads[..i], heads[i]);
    }
    if Related(s, base, heads) {
      forall i | 0 <= i < |heads|
        ensures TrainStep(s, virtual, base, heads, i) == TrainStep(s', virtual, base, heads, i)
      {
        MergeBaseStable(s, s', virtual, TrainBases(s, base, heads[..i], heads[i]));
      }
      assert TrainSteps(s, virtual, base, heads) == TrainSteps(s', virtual, base, heads);
    }
  }

  /** Both verifiers accept what `prepare` built. */
  lemma PreparedTrainIsAccepted(
      s: Store, virtual: VirtualBase, s': Store, base: CommitId, prs: seq<PullRequest>, m: Manifest, head: CommitId)
    requires Known(s, base, HeadsOf(prs))
    requires IsPreparedTrain(s, virtual, s', base, prs, m, head)
    ensures HasExactHistory(s', m, head)
    ensures HasExactTree(s', virtual, m, head, ManifestPath(m.trainBranch))
    ensures At(s'[head].tree, ManifestPath(m.trainBranch)) == Present(Attestation(m))
  {
    assert AttestedHeads(m) == HeadsOf(prs);
    TrainTreeStable(s, s', virtual, base, HeadsOf(prs));
    var t := TrainTree(s, virtual, base, HeadsOf(prs)).tree;
    var path := ManifestPath(m.trainBranch);
    assert forall p :: p != path ==> At(t, p) == At(s'[head].tree, p);
    if At(t, path) == At(s'[head].tree, path) {
      TreesEqual(t, s'[head].tree);
    }
    assert ChangedPaths(t, s'[head].tree) == {path};
  }

  /**
   * Off the manifest path, an accepted train holds what its path-disjoint candidates promise exactly where the merge
   * bases are neutral.
   */
  lemma AcceptedEntryIsOverlayIff(s: Store, virtual: VirtualBase, m: Manifest, head: CommitId, path: Path, p: Path)
    requires head < |s| && HasExactTree(s, virtual, m, head, path) && p != path
    requires PathDisjoint(s[m.baseCommit].tree, TreesOf(s, AttestedHeads(m)))
    ensures
      IsOverlayEntry(s[m.baseCommit].tree, TreesOf(s, AttestedHeads(m)), p, At(s[head].tree, p)) <==>
      NeutralAt(s[m.baseCommit].tree, TrainSteps(s, virtual, m.baseCommit, AttestedHeads(m)), p)
  {
    var steps := TrainSteps(s, virtual, m.baseCommit, AttestedHeads(m));
    assert Heads(steps) == TreesOf(s, AttestedHeads(m));
    MergedEntryIsOverlayIff(s[m.baseCommit].tree, steps, p);
    assert p !in ChangedPaths(TrainTree(s, virtual, m.baseCommit, AttestedHeads(m)).tree, s[head].tree);
  }

  /** Independent, path-disjoint candidates never conflict, and the train is the base overlaid with their changes. */
  lemma IndependentTrainIsOverlay(s: Store, virtual: VirtualBase, base: CommitId, heads: seq<CommitId>)
    requires Rooted(s, base, heads) && Independent(s, base, heads)
    requires PathDisjoint(s[base].tree, TreesOf(s, heads))
    ensures TrainTree(s, virtual, base, heads).Clean?
    ensures IsOverlay(s[base].tree, TreesOf(s, heads), TrainTree(s, virtual, base, heads).tree)
  {
    RootedIsRelated(s, base, heads);
    var steps := TrainSteps(s, virtual, base, heads);
    assert Heads(steps) == TreesOf(s, heads);
    forall i | 0 <= i < |heads| ensures steps[i].mergeBase == s[base].tree
    {
      IndependentBases(s, base, heads, i);
    }
    forall p, i | 0 <= i < |steps| ensures NeutralStep(s[base].tree, steps, i, p)
    {
    }
    MergeAllIsOverlayIff(s[base].tree, steps);
  }

  /** The tree of a train of independent, path-disjoint candidates does not depend on their order. */
  lemma TrainOrderIndependent(s: Store, virtual: VirtualBase, base: CommitId, heads: seq<CommitId>, perm: seq<nat>)
    requires Rooted(s, base, heads) && Independent(s, base, heads)
    requires PathDisjoint(s[base].tree, TreesOf(s, heads))
    requires IsReordering(perm, |heads|)
    ensures TrainTree(s, virtual, base, heads).Clean?
    ensures TrainTree(s, virtual, base, Reorder(heads, perm)) == TrainTree(s, virtual, base, heads)
  {
    var reordered := Reorder(heads, perm);
    forall i | 0 <= i < |reordered| ensures reordered[i] < |s| && IsAncestor(s, base, reordered[i])
    {
      assert reordered[i] == heads[perm[i]];
    }
    forall i, j, a: CommitId | 0 <= i < j < |reordered| && IsAncestor(s, a, reordered[i])
        && IsAncestor(s, a, reordered[j])
      ensures IsAncestor(s, a, base)
    {
      assert reordered[i] == heads[perm[i]] && reordered[j] == heads[perm[j]];
      assert perm[i] < perm[j] || perm[j] < perm[i];
    }
    assert forall i :: 0 <= i < |perm| ==> TreesOf(s, reordered)[i] == TreesOf(s, heads)[perm[i]];
    forall h ensures h in TreesOf(s, heads) <==> h in TreesOf(s, reordered)
    {
      if h in TreesOf(s, heads) {
        var k :| 0 <= k < |heads| && TreesOf(s, heads)[k] == h;
        assert k in perm;
        var i :| 0 <= i < |perm| && perm[i] == k;
        assert TreesOf(s, reordered)[i] == h;
      }
    }
    IndependentTrainIsOverlay(s, virtual, base, heads);
    IndependentTrainIsOverlay(s, virtual, base, reordered);
    OverlayOrderIndependent(s[base].tree, TreesOf(s, heads), TreesOf(s, reordered),
                            TrainTree(s, virtual, base, heads).tree, TrainTree(s, virtual, base, reordered).tree);
  }

  /** No candidate has changed the receipt of another receipt-reviewed candidate. */
  predicate NoForeignReceipts(s: Store, base: CommitId, prs: seq<PullRequest>)
    requires Known(s, base, HeadsOf(prs)) && Reviewed(s, base, prs)
  {
    forall i, j :: 0 <= i < |prs| && 0 <= j < |prs| && i != j && !prs[j].ordinary ==>
      Receipt(prs[j].number) !in Envelope(s, base, prs[i]).value
  }

  /** A reviewed head changes its envelope and, for a receipt review, the receipt. */
  lemma WholeDiff(s: Store, base: CommitId, pr: PullRequest, p: Path)
    requires base < |s| && pr.head < |s| && Envelope(s, base, pr).Some?
    ensures
      var envelope, own := Envelope(s, base, pr).value, !pr.ordinary && p == Receipt(pr.number);
      && (Touches(s[base].tree, s[pr.head].tree, p) ==> p in envelope || own)
      && (!own && p in envelope ==> Touches(s[base].tree, s[pr.head].tree, p))
      && (own && p !in envelope ==> Touches(s[base].tree, s[pr.head].tree, p))
  {
    if !pr.ordinary {
      var reviewed := s[pr.head].parents[0];
      assert p in ChangedPaths(s[reviewed].tree, s[pr.head].tree) <==> p == Receipt(pr.number);
    }
  }

  /**
   * The overlap check, which never sees receipts, makes the whole diffs path-disjoint exactly when receipts stay with
   * their owners.
   */
  lemma WholeDiffsDisjointIff(s: Store, base: CommitId, prs: seq<PullRequest>)
    requires Known(s, base, HeadsOf(prs)) && DistinctNumbers(prs)
    requires Reviewed(s, base, prs) && DisjointEnvelopes(s, base, prs)
    ensures PathDisjoint(s[base].tree, TreesOf(s, HeadsOf(prs))) <==> NoForeignReceipts(s, base, prs)
  {
    var b, trees := s[base].tree, TreesOf(s, HeadsOf(prs));
    forall i | 0 <= i < |prs| ensures prs[i].head < |s| && trees[i] == s[prs[i].head].tree
        && Envelope(s, base, prs[i]).Some?
    {
      assert HeadsOf(prs)[i] == prs[i].head;
    }
    if NoForeignReceipts(s, base, prs) {
      forall i, j, p | 0 <= i < |trees| && 0 <= j < |trees| && Touches(b, trees[i], p) && Touches(b, trees[j], p)
          ensures i == j
      {
        WholeDiff(s, base, prs[i], p);
        WholeDiff(s, base, prs[j], p);
      }
    }
    if PathDisjoint(b, trees) {
      forall i, j | 0 <= i < |prs| && 0 <= j < |prs| && i != j && !prs[j].ordinary
        ensures Receipt(prs[j].number) !in Envelope(s, base, prs[i]).value
      {
        var p := Receipt(prs[j].number);
        WholeDiff(s, base, prs[i], p);
        WholeDiff(s, base, prs[j], p);
        assert i < j ==> Envelope(s, base, prs[i]).value !! Envelope(s, base, prs[j]).value;
        assert j < i ==> Envelope(s, base, prs[j]).value !! Envelope(s, base, prs[i]).value;
      }
    }
  }

  /**
   * Checked candidates that leave each other's receipts alone merge to the overlay exactly when the merge bases are
   * neutral.
   */
  lemma PreparedOverlayIff(s: Store, virtual: VirtualBase, base: CommitId, prs: seq<PullRequest>)
    requires Known(s, base, HeadsOf(prs)) && Preparable(s, base, prs) && NoForeignReceipts(s, base, prs)
    ensures Related(s, base, HeadsOf(prs))
    ensures
      var heads, merged := HeadsOf(prs), TrainTree(s, virtual, base, HeadsOf(prs));
      (merged.Clean? && IsOverlay(s[base].tree, TreesOf(s, heads), merged.tree)) <==>
      NeutralMergeBases(s[base].tree, TrainSteps(s, virtual, base, heads))
  {
    PreparableIsRooted(s, base, prs);
    WholeDiffsDisjointIff(s, base, prs);
    var steps := TrainSteps(s, virtual, base, HeadsOf(prs));
    assert Heads(steps) == TreesOf(s, HeadsOf(prs));
    MergeAllIsOverlayIff(s[base].tree, steps);
  }

  /** Checked candidates that share no commit and leave each other's receipts alone never conflict. */
  lemma IndependentPreparation(s: Store, virtual: VirtualBase, base: CommitId, prs: seq<PullRequest>)
    requires Known(s, base, HeadsOf(prs)) && Preparable(s, base, prs)
    requires Independent(s, base, HeadsOf(prs)) && NoForeignReceipts(s, base, prs)
    ensures TrainTree(s, virtual, base, HeadsOf(prs)).Clean?
    ensures IsOverlay(s[base].tree, TreesOf(s, HeadsOf(prs)), TrainTree(s, virtual, base, HeadsOf(prs)).tree)
  {
    PreparableIsRooted(s, base, prs);
    WholeDiffsDisjointIff(s, base, prs);
    IndependentTrainIsOverlay(s, virtual, base, HeadsOf(prs));
  }

  /** What `prepare` builds of them is, off the manifest path, the base overlaid with every candidate's changes. */
  lemma PreparedTrainIsOverlay(
      s: Store, virtual: VirtualBase, s': Store, base: CommitId, prs: seq<PullRequest>, m: Manifest, head: CommitId,
          p: Path)
    requires Known(s, base, HeadsOf(prs)) && Preparable(s, base, prs)
    requires Independent(s, base, HeadsOf(prs)) && NoForeignReceipts(s, base, prs)
    requires IsPreparedTrain(s, virtual, s', base, prs, m, head) && p != ManifestPath(m.trainBranch)
    ensures IsOverlayEntry(s[base].tree, TreesOf(s, HeadsOf(prs)), p, At(s'[head].tree, p))
  {
    IndependentPreparation(s, virtual, base, prs);
    assert At(s'[head].tree, p) == At(TrainTree(s, virtual, base, HeadsOf(prs)).tree, p);
  }

  lemma OneParentAncestors(s: Store, c: CommitId, a: CommitId)
    requires c < |s| && |s[c].parents| == 1
    ensures IsAncestor(s, a, c) <==> a == c || IsAncestor(s, a, s[c].parents[0])
  {
    assert s[c].parents[0] == s[c].parents[0];
  }

  /**
   * Two candidates that share a commit beyond the base. The shared commit adds `a`; the first candidate keeps it
   * and adds `b`; the second one reverts it and adds `c`. Neither contains the other.
   */
  function SharedCommitStore(): (s: Store)
    ensures |s| == 4
  {
    [ Commit([], map[], None),
      Commit([0], map[File("a") := Bytes("x")], None),
      Commit([1], map[File("a") := Bytes("x"), File("b") := Bytes("y")], None),
      Commit([1], map[File("c") := Bytes("z")], None) ]
  }

  function SharedCommitCandidates(): seq<PullRequest> {
    [ PullRequest(1, 0, 2, true, true, Some(Endorsement("APPROVED", "r"))),
      PullRequest(2, 0, 3, true, true, Some(Endorsement("APPROVED", "r"))) ]
  }

  lemma SharedCommitAncestry(a: CommitId)
    ensures
      var s := SharedCommitStore();
      && (IsAncestor(s, a, 0) <==> a == 0) && (IsAncestor(s, a, 1) <==> a <= 1)
      && (IsAncestor(s, a, 2) <==> a <= 2) && (IsAncestor(s, a, 3) <==> a <= 1 || a == 3)
  {
    var s := SharedCommitStore();
    OneParentAncestors(s, 1, a);
    OneParentAncestors(s, 2, a);
    OneParentAncestors(s, 3, a);
  }

  lemma SharedCommitEnvelopes()
    ensures
      var s, prs := SharedCommitStore(), SharedCommitCandidates();
      && Envelope(s, 0, prs[0]) == Some({File("a"), File("b")})
      && Envelope(s, 0, prs[1]) == Some({File("c")})
  {
    var s, prs := SharedCommitStore(), SharedCommitCandidates();
    SharedCommitAncestry(0);
    assert ChangedPaths(s[0].tree, s[2].tree) == {File("a"), File("b")};
    assert ChangedPaths(s[0].tree, s[3].tree) == {File("c")};
  }

  lemma SharedCommitFirstBase()
    ensures TrainBases(SharedCommitStore(), 0, [], 2) == {0}
  {
    var s := SharedCommitStore();
    forall a: CommitId ensures (IsAncestor(s, a, 0) <==> a == 0) && (IsAncestor(s, a, 2) <==> a <= 2)
    {
      SharedCommitAncestry(a);
    }
    assert IsBestShared(s, 0, [], 2, 0);
  }

  lemma SharedCommitShares(a: CommitId)
    ensures IsShared(SharedCommitStore(), 0, [2], 3, a) <==> a <= 1
  {
    var s := SharedCommitStore();
    SharedCommitAncestry(a);
    assert Reaches(s, 0, [2], a) <==> a <= 2 by { assert [2][0] == 2; }
  }

  lemma SharedCommitSecondBase()
    ensures TrainBases(SharedCommitStore(), 0, [2], 3) == {1}
  {
    var s := SharedCommitStore();
    forall a: CommitId ensures (IsShared(s, 0, [2], 3, a) <==> a <= 1) && (IsAncestor(s, a, 1) <==> a <= 1)
        && (IsAncestor(s, a, 0) <==> a == 0)
    {
      SharedCommitShares(a);
      SharedCommitAncestry(a);
    }
    assert IsBestShared(s, 0, [2], 3, 1);
  }

  lemma SharedCommitListed()
    ensures HeadsOf(SharedCommitCandidates()) == [2, 3]
    ensures AreEnvelopes(SharedCommitStore(), 0, SharedCommitCandidates(), [{File("a"), File("b")}, {File("c")}])
  {
    SharedCommitEnvelopes();
    SharedCommitAncestry(2);
    SharedCommitAncestry(3);
    assert HeadsOf(SharedCommitCandidates()) == [2, 3];
  }

  lemma SharedCommitReviewed()
    ensures HeadsOf(SharedCommitCandidates()) == [2, 3]
        && PathsReviewed(SharedCommitStore(), 0, SharedCommitCandidates())
  {
    var envelopes := [{File("a"), File("b")}, {File("c")}];
    assert PairwiseDisjoint(envelopes);
    SharedCommitListed();
    DisjointDecided(SharedCommitStore(), 0, SharedCommitCandidates(), envelopes);
  }

  lemma SharedCommitIsPreparable()
    ensures HeadsOf(SharedCommitCandidates()) == [2, 3] && Preparable(SharedCommitStore(), 0, SharedCommitCandidates())
  {
    var s, prs := SharedCommitStore(), SharedCommitCandidates();
    SharedCommitReviewed();
    SharedCommitAncestry(2);
    SharedCommitAncestry(3);
    assert Unstacked(s, 0, prs);
    PairIsReady(0, prs);
  }

  lemma SharedCommitTree(virtual: VirtualBase)
    ensures TrainTree(SharedCommitStore(), virtual, 0, [2, 3]) ==
        Clean(map[File("b") := Bytes("y"), File("c") := Bytes("z")])
  {
    var s := SharedCommitStore();
    SharedCommitFirstBase();
    SharedCommitSecondBase();
    PairTree(s, virtual, 0, 2, 3, 1);
    MergedIs(s[1].tree, s[2].tree, s[3].tree, map[File("b") := Bytes("y"), File("c") := Bytes("z")]);
  }

  /**
   * `prepare` accepts these candidates and merges them cleanly, but the train has silently lost file `a` of the first
   * one.
   */
  lemma SharedCommitLosesChange(virtual: VirtualBase)
    ensures
      var s, prs := SharedCommitStore(), SharedCommitCandidates();
      && HeadsOf(prs) == [2, 3] && Preparable(s, 0, prs)
      && TrainTree(s, virtual, 0, [2, 3]) == Clean(map[File("b") := Bytes("y"), File("c") := Bytes("z")])
      && At(s[2].tree, File("a")) == Present(Bytes("x")) && At(s[0].tree, File("a")) == Absent
  {
    SharedCommitIsPreparable();
    SharedCommitTree(virtual);
  }

  lemma PairEnvelopes(s: Store, base: CommitId, prs: seq<PullRequest>, first: set<Path>, second: set<Path>)
    requires |prs| == 2 && Known(s, base, HeadsOf(prs))
    requires HasEnvelope(s, base, prs[0], first) && HasEnvelope(s, base, prs[1], second)
    ensures AreEnvelopes(s, base, prs, [first, second])
  {
    var both := [first, second];
    forall i | 0 <= i < 2 ensures HasEnvelope(s, base, prs[i], both[i])
    {
      if i == 0 {
        assert both[0] == first;
      } else {
        assert both[1] == second;
      }
    }
  }

  lemma PairIsReady(base: CommitId, prs: seq<PullRequest>)
    requires |prs| == 2 && prs[0].number != prs[1].number
    requires prs[0].number > 0 && prs[1].number > 0 && prs[0].ready && prs[1].ready && prs[0].baseCommit == base
        && prs[1].baseCommit == base
    ensures DistinctNumbers(prs) && AllReady(base, prs)
  {
  }

  lemma SingleTree(s: Store, virtual: VirtualBase, base: CommitId, h: CommitId)
    requires base < |s| && h < |s| && TrainBases(s, base, [], h) == {base}
    ensures TrainTree(s, virtual, base, [h]) == Clean(s[h].tree)
  {
    assert TrainTree(s, virtual, base, []) == Clean(s[base].tree);
    TrainTreeSnoc(s, virtual, base, [], h, s[base].tree);
    MergedIs(s[base].tree, s[base].tree, s[h].tree, s[h].tree);
    assert [] + [h] == [h];
  }

  lemma PairTree(s: Store, virtual: VirtualBase, base: CommitId, h: CommitId, k: CommitId, m: CommitId)
    requires base < |s| && h < |s| && k < |s| && m < |s|
    requires TrainBases(s, base, [], h) == {base} && TrainBases(s, base, [h], k) == {m}
    ensures TrainTree(s, virtual, base, [h, k]) == MergeTrees(s[m].tree, s[h].tree, s[k].tree)
  {
    SingleTree(s, virtual, base, h);
    assert [h] + [k] == [h, k];
    TrainTreeSnoc(s, virtual, base, [h], k, s[h].tree);
  }

  lemma MergedIs(base: Tree, ours: Tree, theirs: Tree, t: Tree)
    requires forall p :: !EntryConflicts(At(base, p), At(ours, p), At(theirs, p))
    requires forall p :: At(t, p) == MergeEntry(At(base, p), At(ours, p), At(theirs, p))
    ensures MergeTrees(base, ours, theirs) == Clean(t)
  {
    TreesEqual(MergeTrees(base, ours, theirs).tree, t);
  }

  /** An approving receipt. */
  function Approval(pr: int, reviewedHead: CommitId, exactPaths: set<Path>): Blob {
    ReviewFile(ReviewValue(pr, 0, reviewedHead, "author", "reviewer", true, exactPaths))
  }

  /** The first receipt-reviewed candidate also wrote the second one's receipt. */
  function ForeignReceiptStore(): (s: Store)
    ensures |s| == 5
  {
    [ Commit([], map[], None),
      Commit([0], map[Receipt(2) := Bytes("x")], None),
      Commit([1], map[Receipt(2) := Bytes("x"), Receipt(1) := Approval(1, 1, {Receipt(2)})], None),
      Commit([0], map[File("b") := Bytes("y")], None),
      Commit([3], map[File("b") := Bytes("y"), Receipt(2) := Approval(2, 3, {File("b")})], None) ]
  }

  function ForeignReceiptCandidates(): seq<PullRequest> {
    [PullRequest(1, 0, 2, true, false, None), PullRequest(2, 0, 4, true, false, None)]
  }

  lemma ForeignReceiptAncestry(a: CommitId)
    ensures
      var s := ForeignReceiptStore();
      && (IsAncestor(s, a, 0) <==> a == 0) && (IsAncestor(s, a, 1) <==> a <= 1)
      && (IsAncestor(s, a, 2) <==> a <= 2) && (IsAncestor(s, a, 3) <==> a == 0 || a == 3)
      && (IsAncestor(s, a, 4) <==> a == 0 || a == 3 || a == 4)
  {
    var s := ForeignReceiptStore();
    OneParentAncestors(s, 1, a);
    OneParentAncestors(s, 2, a);
    OneParentAncestors(s, 3, a);
    OneParentAncestors(s, 4, a);
  }

  lemma ForeignReceiptFirstEnvelope()
    ensures HasEnvelope(ForeignReceiptStore(), 0, ForeignReceiptCandidates()[0], {Receipt(2)})
  {
    var s := ForeignReceiptStore();
    ForeignReceiptNew();
    ForeignReceiptAncestry(0);
    assert Receipt(2) in ChangedPaths(s[0].tree, s[2].tree);
    assert ChangedPaths(s[1].tree, s[2].tree) == {Receipt(1)};
    assert ChangedPaths(s[0].tree, s[1].tree) == {Receipt(2)};
  }

  lemma ForeignReceiptSecondEnvelope()
    ensures HasEnvelope(ForeignReceiptStore(), 0, ForeignReceiptCandidates()[1], {File("b")})
  {
    var s := ForeignReceiptStore();
    ForeignReceiptNew();
    ForeignReceiptAncestry(0);
    assert File("b") in ChangedPaths(s[0].tree, s[4].tree);
    assert ChangedPaths(s[3].tree, s[4].tree) == {Receipt(2)};
    assert ChangedPaths(s[0].tree, s[3].tree) == {File("b")};
  }

  lemma ForeignReceiptIndependent()
    ensures Rooted(ForeignReceiptStore(), 0, [2, 4]) && Independent(ForeignReceiptStore(), 0, [2, 4])
  {
    var s := ForeignReceiptStore();
    ForeignReceiptAncestry(0);
    forall a: CommitId ensures IsAncestor(s, a, 2) && IsAncestor(s, a, 4) ==> IsAncestor(s, a, 0)
    {
      ForeignReceiptAncestry(a);
    }
  }

  lemma ForeignReceiptHeads()
    ensures HeadsOf(ForeignReceiptCandidates()) == [2, 4]
  {
  }

  lemma ForeignReceiptNew()
    ensures !IsAncestor(ForeignReceiptStore(), 2, 0) && !IsAncestor(ForeignReceiptStore(), 4, 0)
  {
    ForeignReceiptAncestry(2);
    ForeignReceiptAncestry(4);
  }

  lemma ForeignReceiptListed()
    ensures HeadsOf(ForeignReceiptCandidates()) == [2, 4]
    ensures AreEnvelopes(ForeignReceiptStore(), 0, ForeignReceiptCandidates(), [{Receipt(2)}, {File("b")}])
  {
    ForeignReceiptHeads();
    ForeignReceiptFirstEnvelope();
    ForeignReceiptSecondEnvelope();
    PairEnvelopes(ForeignReceiptStore(), 0, ForeignReceiptCandidates(), {Receipt(2)}, {File("b")});
  }

  lemma ForeignReceiptReviewed()
    ensures HeadsOf(ForeignReceiptCandidates()) == [2, 4]
        && PathsReviewed(ForeignReceiptStore(), 0, ForeignReceiptCandidates())
  {
    var envelopes := [{Receipt(2)}, {File("b")}];
    assert PairwiseDisjoint(envelopes);
    ForeignReceiptListed();
    DisjointDecided(ForeignReceiptStore(), 0, ForeignReceiptCandidates(), envelopes);
  }

  lemma ForeignReceiptIsPreparable()
    ensures HeadsOf(ForeignReceiptCandidates()) == [2, 4]
        && Preparable(ForeignReceiptStore(), 0, ForeignReceiptCandidates())
  {
    var s, prs := ForeignReceiptStore(), ForeignReceiptCandidates();
    ForeignReceiptReviewed();
    ForeignReceiptAncestry(2);
    ForeignReceiptAncestry(4);
    assert Unstacked(s, 0, prs);
    PairIsReady(0, prs);
  }

  lemma ForeignReceiptTree(virtual: VirtualBase)
    ensures TrainTree(ForeignReceiptStore(), virtual, 0, [2, 4]).Conflicted?
  {
    var s := ForeignReceiptStore();
    ForeignReceiptIndependent();
    var heads: seq<CommitId> := [2, 4];
    IndependentBases(s, 0, heads, 0);
    IndependentBases(s, 0, heads, 1);
    assert heads[..0] == [] && heads[..1] == [2];
    PairTree(s, virtual, 0, 2, 4, 0);
    assert EntryConflicts(At(s[0].tree, Receipt(2)), At(s[2].tree, Receipt(2)), At(s[4].tree, Receipt(2)));
  }

  /** `prepare` accepts these candidates, whose envelopes are disjoint, and only the merge itself fails. */
  lemma ForeignReceiptConflicts(virtual: VirtualBase)
    ensures
      var s, prs := ForeignReceiptStore(), ForeignReceiptCandidates();
      && HeadsOf(prs) == [2, 4] && Preparable(s, 0, prs)
      && Independent(s, 0, [2, 4]) && TrainTree(s, virtual, 0, [2, 4]).Conflicted?
  {
    ForeignReceiptIsPreparable();
    ForeignReceiptIndependent();
    ForeignReceiptTree(virtual);
  }
}
