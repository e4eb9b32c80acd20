/** Chains of two-parent merge commits on top of a base, and the trees they carry. */
module TrainChain {
  import opened Wrappers
  import opened Trees
  import opened GitStore

  /** `chain` starts at `base`, and link `i + 1` merges `heads[i]` into link `i`. */
  ghost predicate IsTrain(s: Store, chain: seq<CommitId>, base: CommitId, heads: seq<CommitId>) {
    && |chain| == |heads| + 1
    && chain[0] == base
    && (forall i :: 0 <= i < |chain| ==> chain[i] < |s|)
    && forall i :: 0 <= i < |heads| ==> s[chain[i + 1]].parents == [chain[i], heads[i]]
  }

  predicate Known(s: Store, base: CommitId, heads: seq<CommitId>) {
    base < |s| && forall i :: 0 <= i < |heads| ==> heads[i] < |s|
  }

  /** Every link above the base is a commit created after the store `s` was read. */
  ghost predicate IsFreshTrain(s: Store, s': Store, chain: seq<CommitId>, base: CommitId, heads: seq<CommitId>) {
    && s <= s' && Known(s, base, heads)
    && IsTrain(s', chain, base, heads)
    && forall i :: 1 <= i < |chain| ==> |s| <= chain[i]
  }

  /** What a train over `base` and `heads` contains of the old store. */
  predicate Reaches(s: Store, base: CommitId, heads: seq<CommitId>, a: CommitId)
    requires Known(s, base, heads)
  {
    IsAncestor(s, a, base) || exists i :: 0 <= i < |heads| && IsAncestor(s, a, heads[i])
  }

  lemma {:induction false} TrainReaches(s: Store, s': Store, chain: seq<CommitId>, base: CommitId, heads: seq<CommitId>,
        a: CommitId)
    requires IsFreshTrain(s, s', chain, base, heads) && a < |s|
    ensures IsAncestor(s', a, chain[|heads|]) <==> Reaches(s, base, heads, a)
    decreases |heads|
  {
    var n := |heads|;
    if n == 0 {
      AncestryStable(s, s', a, base);
    } else {
      assert IsFreshTrain(s, s', chain[..n], base, heads[..n - 1]);
      TrainReaches(s, s', chain[..n], base, heads[..n - 1], a);
      AncestryStable(s, s', a, heads[n - 1]);
      var ps := s'[chain[n]].parents;
      assert ps == [chain[n - 1], heads[n - 1]];
      assert IsAncestor(s', a, chain[n]) <==> IsAncestor(s', a, ps[0]) || IsAncestor(s', a, ps[1]);
      ReachesSnoc(s, base, heads, a);
    }
  }

  lemma ReachesSnoc(s: Store, base: CommitId, heads: seq<CommitId>, a: CommitId)
    requires heads != [] && Known(s, base, heads)
    ensures Reaches(s, base, heads, a) <==>
        Reaches(s, base, heads[..|heads| - 1], a) || IsAncestor(s, a, heads[|heads| - 1])
  {
    var n := |heads| - 1;
    if Reaches(s, base, heads[..n], a) && !IsAncestor(s, a, base) {
      var i :| 0 <= i < n && IsAncestor(s, a, heads[..n][i]);
      assert IsAncestor(s, a, heads[i]);
    }
  }

  /** A commit a train over `heads` shares with the next head `h`. */
  predicate IsShared(s: Store, base: CommitId, heads: seq<CommitId>, h: CommitId, a: CommitId)
    requires Known(s, base, heads) && h < |s|
  {
    IsAncestor(s, a, h) && Reaches(s, base, heads, a)
  }

  predicate IsBestShared(s: Store, base: CommitId, heads: seq<CommitId>, h: CommitId, a: CommitId)
    requires Known(s, base, heads) && h < |s|
  {
    && IsShared(s, base, heads, h, a)
    && forall k :: 0 <= k < |s| && IsShared(s, base, heads, h, k) && IsAncestor(s, a, k) ==> k == a
  }

  /** The merge bases of a train over `heads` and the next head, told from the old store alone. */
  function TrainBases(s: Store, base: CommitId, heads: seq<CommitId>, h: CommitId): (r: set<CommitId>)
    requires Known(s, base, heads) && h < |s|
  {
    set m: CommitId | 0 <= m < |s| && IsBestShared(s, base, heads, h, m)
  }

  lemma TrainMergeBases(s: Store, s': Store, chain: seq<CommitId>, base: CommitId, heads: seq<CommitId>, h: CommitId)
    requires IsFreshTrain(s, s', chain, base, heads) && h < |s|
    ensures MergeBases(s', chain[|heads|], h) == TrainBases(s, base, heads, h)
  {
    var tip := chain[|heads|];
    forall k: CommitId | k < |s'|
      ensures IsCommonAncestor(s', k, tip, h) <==> k < |s| && IsShared(s, base, heads, h, k)
    {
      AncestryStable(s, s', k, h);
      if IsAncestor(s, k, h) { AncestorBound(s, k, h); }
      if k < |s| { TrainReaches(s, s', chain, base, heads, k); }
    }
    forall k: CommitId, m: CommitId | k < |s| ensures IsAncestor(s', m, k) <==> IsAncestor(s, m, k)
    {
      AncestryStable(s, s', m, k);
    }
    forall m: CommitId ensures m in MergeBases(s', tip, h) <==> m in TrainBases(s, base, heads, h)
    {
      if m < |s| && IsShared(s, base, heads, h, m) {
        assert IsCommonAncestor(s', m, tip, h);
      }
    }
  }

  lemma {:induction false} BestSharedExists(s: Store, base: CommitId, heads: seq<CommitId>, h: CommitId, a: CommitId)
    requires Known(s, base, heads) && h < |s| && a < |s| && IsShared(s, base, heads, h, a)
    ensures TrainBases(s, base, heads, h) != {}
    decreases |s| - a
  {
    if IsBestShared(s, base, heads, h, a) {
      assert a in TrainBases(s, base, heads, h);
    } else {
      var k :| 0 <= k < |s| && IsShared(s, base, heads, h, k) && IsAncestor(s, a, k) && k != a;
      AncestorBound(s, a, k);
      BestSharedExists(s, base, heads, h, k);
    }
  }

  /** Every head descends from the base. */
  predicate Rooted(s: Store, base: CommitId, heads: seq<CommitId>) {
    Known(s, base, heads) && forall i :: 0 <= i < |heads| ==> IsAncestor(s, base, heads[i])
  }

  /** Two heads share nothing but what the base already contains. */
  ghost predicate Independent(s: Store, base: CommitId, heads: seq<CommitId>)
    requires Known(s, base, heads)
  {
    forall i, j, a: CommitId :: 0 <= i < j < |heads| && IsAncestor(s, a, heads[i]) && IsAncestor(s, a, heads[j]) ==>
        IsAncestor(s, a, base)
  }

  lemma IndependentBases(s: Store, base: CommitId, heads: seq<CommitId>, i: nat)
    requires Rooted(s, base, heads) && Independent(s, base, heads) && i < |heads|
    ensures TrainBases(s, base, heads[..i], heads[i]) == {base}
  {
    var earlier, h := heads[..i], heads[i];
    assert forall j :: 0 <= j < i ==> earlier[j] == heads[j];
    assert forall a: CommitId :: a < |s| && IsShared(s, base, earlier, h, a) ==> IsAncestor(s, a, base);
    forall k: CommitId | k < |s| && IsShared(s, base, earlier, h, k) && IsAncestor(s, base, k) ensures k == base
    {
      AncestorBound(s, base, k);
      AncestorBound(s, k, base);
    }
    assert IsBestShared(s, base, earlier, h, base);
  }

  /** No merge of the train joins unrelated histories. */
  predicate Related(s: Store, base: CommitId, heads: seq<CommitId>) {
    Known(s, base, heads) && forall i :: 0 <= i < |heads| ==> TrainBases(s, base, heads[..i], heads[i]) != {}
  }

  lemma RootedIsRelated(s: Store, base: CommitId, heads: seq<CommitId>)
    requires Rooted(s, base, heads)
    ensures Related(s, base, heads)
  {
    forall i | 0 <= i < |heads| ensures TrainBases(s, base, heads[..i], heads[i]) != {}
    {
      BestSharedExists(s, base, heads[..i], heads[i], base);
    }
  }

  function TrainStep(s: Store, virtual: VirtualBase, base: CommitId, heads: seq<CommitId>, i: nat): Step
    requires Related(s, base, heads) && i < |heads|
  {
    Step(MergeBaseTree(s, virtual, TrainBases(s, base, heads[..i], heads[i])), s[heads[i]].tree)
  }

  /** The three-way merges a train performs, told from the old store alone. */
  function TrainSteps(s: Store, virtual: VirtualBase, base: CommitId, heads: seq<CommitId>): (r: seq<Step>)
    requires Related(s, base, heads)
    ensures |r| == |heads|
    ensures forall i :: 0 <= i < |heads| ==> r[i] == TrainStep(s, virtual, base, heads, i)
  {
    seq(|heads|, i requires 0 <= i < |heads| => TrainStep(s, virtual, base, heads, i))
  }

  /** The tree of the train over `heads`, or the news that it cannot be built. */
  function TrainTree(s: Store, virtual: VirtualBase, base: CommitId, heads: seq<CommitId>): MergeResult {
    if Related(s, base, heads) then MergeAll(s[base].tree, TrainSteps(s, virtual, base, heads)) else Conflicted
  }

  lemma RelatedPrefix(s: Store, virtual: VirtualBase, base: CommitId, heads: seq<CommitId>, n: nat)
    requires n <= |heads| && Related(s, base, heads)
    ensures Related(s, base, heads[..n])
    ensures TrainSteps(s, virtual, base, heads[..n]) == TrainSteps(s, virtual, base, heads)[..n]
  {
    assert forall i :: 0 <= i < n ==> heads[..n][i] == heads[i];
    forall i | 0 <= i < n
      ensures TrainBases(s, base, heads[..n][..i], heads[..n][i]) == TrainBases(s, base, heads[..i], heads[i]) != {}
    {
      assert heads[..n][..i] == heads[..i];
    }
    forall i | 0 <= i < n
      ensures TrainStep(s, virtual, base, heads[..n], i) == TrainStep(s, virtual, base, heads, i)
    {
      assert heads[..n][..i] == heads[..i];
    }
  }

  /** A train that can be built can be built up to any point. */
  lemma TrainTreePrefix(s: Store, virtual: VirtualBase, base: CommitId, heads: seq<CommitId>, n: nat)
    requires n <= |heads| && TrainTree(s, virtual, base, heads).Clean?
    ensures TrainTree(s, virtual, base, heads[..n]).Clean?
  {
    RelatedPrefix(s, virtual, base, heads, n);
    CleanPrefix(s[base].tree, TrainSteps(s, virtual, base, heads), n);
  }

  lemma RelatedSnoc(s: Store, base: CommitId, heads: seq<CommitId>)
    requires heads != [] && Related(s, base, heads[..|heads| - 1]) && heads[|heads| - 1] < |s|
    requires TrainBases(s, base, heads[..|heads| - 1], heads[|heads| - 1]) != {}
    ensures Related(s, base, heads)
  {
    var n := |heads| - 1;
    assert forall i :: 0 <= i < n ==> heads[..n][i] == heads[i];
    forall i | 0 <= i < n ensures TrainBases(s, base, heads[..i], heads[i]) != {}
    {
      assert heads[..n][..i] == heads[..i];
      assert TrainBases(s, base, heads[..n][..i], heads[..n][i]) != {};
    }
  }

  lemma MergeAllSnoc(base: Tree, steps: seq<Step>, t: Tree)
    requires steps != [] && MergeAll(base, steps[..|steps| - 1]) == Clean(t)
    ensures MergeAll(base, steps) == MergeTrees(steps[|steps| - 1].mergeBase, t, steps[|steps| - 1].head)
  {
  }

  lemma TrainTreeSnoc(s: Store, virtual: VirtualBase, base: CommitId, heads: seq<CommitId>, h: CommitId, t: Tree)
    requires Known(s, base, heads) && h < |s|
    requires TrainTree(s, virtual, base, heads) == Clean(t)
    ensures
      var bases := TrainBases(s, base, heads, h);
      TrainTree(s, virtual, base, heads + [h]) ==
      if bases == {} then Conflicted else MergeTrees(MergeBaseTree(s, virtual, bases), t, s[h].tree)
  {
    var n, all := |heads|, heads + [h];
    assert all[..n] == heads && all[n] == h;
    if TrainBases(s, base, heads, h) != {} {
      RelatedSnoc(s, base, all);
      RelatedPrefix(s, virtual, base, all, n);
      var steps := TrainSteps(s, virtual, base, all);
      assert steps[n] == TrainStep(s, virtual, base, all, n);
      MergeAllSnoc(s[base].tree, steps, t);
    }
  }

  /** Merging `heads[n]` into a fresh train over `heads[..n]` gives the train over `heads[..n + 1]`. */
  lemma NextMerge(s: Store, virtual: VirtualBase, s': Store, chain: seq<CommitId>, base: CommitId, heads: seq<CommitId>,
        n: nat)
    requires n < |heads| && Known(s, base, heads)
    requires IsFreshTrain(s, s', chain, base, heads[..n])
    requires TrainTree(s, virtual, base, heads[..n]) == Clean(s'[chain[n]].tree)
    ensures MergeCommits(s', virtual, chain[n], heads[n]) == TrainTree(s, virtual, base, heads[..n + 1])
  {
    var front := heads[..n];
    assert |front| == n && heads[..n + 1] == front + [heads[n]];
    MergeOntoTrain(s, virtual, s', chain, base, front, heads[n]);
  }

  lemma MergeOntoTrain(s: Store, virtual: VirtualBase, s': Store, chain: seq<CommitId>, base: CommitId,
        front: seq<CommitId>, h: CommitId)
    requires Known(s, base, front) && h < |s|
    requires IsFreshTrain(s, s', chain, base, front)
    requires TrainTree(s, virtual, base, front) == Clean(s'[chain[|front|]].tree)
    ensures MergeCommits(s', virtual, chain[|front|], h) == TrainTree(s, virtual, base, front + [h])
  {
    var tip := chain[|front|];
    TrainTreeSnoc(s, virtual, base, front, h, s'[tip].tree);
    TrainMergeBases(s, s', chain, base, front, h);
    MergeFromBases(s, s', virtual, tip, h, TrainBases(s, base, front, h));
  }

  lemma MergeFromBases(s: Store, s': Store, virtual: VirtualBase, ours: CommitId, theirs: CommitId,
        bases: set<CommitId>)
    requires s <= s' && ours < |s'| && theirs < |s| && forall m :: m in bases ==> m < |s|
    requires MergeBases(s', ours, theirs) == bases
    ensures MergeCommits(s', virtual, ours, theirs) ==
            if bases == {} then Conflicted
                else MergeTrees(MergeBaseTree(s, virtual, bases), s'[ours].tree, s[theirs].tree)
  {
    MergeBaseStable(s, s', virtual, bases);
  }

  lemma MergeBaseStable(s: Store, s': Store, virtual: VirtualBase, bases: set<CommitId>)
    requires s <= s' && forall m :: m in bases ==> m < |s|
    ensures bases != {} ==> MergeBaseTree(s, virtual, bases) == MergeBaseTree(s', virtual, bases)
  {
    assert forall m :: m in bases ==> s[m] == s'[m];
  }

  lemma AppendedTrain(s: Store, s': Store, chain: seq<CommitId>, base: CommitId, heads: seq<CommitId>, n: nat, t: Tree)
    requires n < |heads| && Known(s, base, heads)
    requires IsFreshTrain(s, s', chain, base, heads[..n])
    ensures IsFreshTrain(s, Append(s', Commit([chain[n], heads[n]], t, None)), chain + [|s'|], base, heads[..n + 1])
  {
    var s'' := Append(s', Commit([chain[n], heads[n]], t, None));
    var chain' := chain + [|s'|];
    var upTo := heads[..n + 1];
    assert forall i :: 0 <= i < |chain| ==> s''[chain[i]] == s'[chain[i]];
    forall i | 0 <= i < |upTo| ensures s''[chain'[i + 1]].parents == [chain'[i], upTo[i]]
    {
      if i < n { assert upTo[i] == heads[..n][i]; }
    }
  }

  /** Later commits leave a train alone. */
  lemma TrainOutlives(s: Store, s': Store, s'': Store, chain: seq<CommitId>, base: CommitId, heads: seq<CommitId>)
    requires IsFreshTrain(s, s', chain, base, heads) && s' <= s''
    ensures IsFreshTrain(s, s'', chain, base, heads)
  {
    assert forall i :: 0 <= i < |chain| ==> s''[chain[i]] == s'[chain[i]];
  }
}
