/** From `prepare` to the protected branch: the gate accepts the trains that `prepare` builds. */
module TrainDelivery {
  import opened Wrappers
  import opened Trees
  import opened GitStore
  import opened TrainChain
  import opened MergeTrain
  import opened TrainTheorems
  import opened AttestedReviews
  import opened BootstrapGate

  /** Later commits leave a prepared train alone. */
  lemma PreparedTrainOutlives(
      s: Store, virtual: VirtualBase, s': Store, s'': Store, base: CommitId, prs: seq<PullRequest>, m: Manifest,
          head: CommitId)
    requires Known(s, base, HeadsOf(prs)) && IsPreparedTrain(s, virtual, s', base, prs, m, head) && s' <= s''
    ensures IsPreparedTrain(s, virtual, s'', base, prs, m, head)
  {
    var t := TrainTree(s, virtual, base, HeadsOf(prs)).tree;
    var chain :| IsFreshTrain(s, s', chain, base, HeadsOf(prs)) && CarriesTree(s', head, chain[|prs|], t);
    TrainOutlives(s, s', s'', chain, base, HeadsOf(prs));
    assert CarriesTree(s'', head, chain[|prs|], t);
  }

  /** Its last commit changes the manifest path and nothing else. */
  lemma PreparedTrainAddsManifest(
      s: Store, virtual: VirtualBase, s': Store, base: CommitId, prs: seq<PullRequest>, m: Manifest, head: CommitId)
    requires Known(s, base, HeadsOf(prs)) && IsPreparedTrain(s, virtual, s', base, prs, m, head)
    ensures LastChange(s', head) == {ManifestPath(m.trainBranch)}
    ensures At(s'[head].tree, ManifestPath(m.trainBranch)) == Present(Attestation(m))
  {
    var t, path := TrainTree(s, virtual, base, HeadsOf(prs)).tree, ManifestPath(m.trainBranch);
    var chain :| IsFreshTrain(s, s', chain, base, HeadsOf(prs)) && CarriesTree(s', head, chain[|prs|], t);
    assert forall p :: p != path ==> At(t, p) == At(s'[head].tree, p);
    if At(t, path) == At(s'[head].tree, path) {
      TreesEqual(t, s'[head].tree);
    }
  }

  /** Candidates that may be prepared make a valid manifest. */
  lemma PreparedManifestIsValid(s: Store, base: CommitId, prs: seq<PullRequest>, m: Manifest)
    requires Known(s, base, HeadsOf(prs)) && Preparable(s, base, prs)
    requires m == Manifest(base, m.trainBranch, Attest(s, base, prs)) && IsTrainBranch(m.trainBranch)
    ensures ValidManifest(m)
  {
    forall i | 0 <= i < |prs| ensures ValidCandidate(m.candidates[i], base)
    {
      assert HeadsOf(prs)[i] < |s| && Envelope(s, base, prs[i]).Some?;
    }
    forall i, j | 0 <= i < j < |prs| ensures prs[i].head != prs[j].head
    {
      assert HeadsOf(prs)[i] < |s| && !IsAncestor(s, prs[i].head, prs[j].head);
    }
  }

  /** The gate finds its manifest, and the history and tree that the manifest attests. */
  lemma PreparedTrainIsFound(
      s: Store, virtual: VirtualBase, s': Store, base: CommitId, prs: seq<PullRequest>, m: Manifest, head: CommitId)
    requires Known(s, base, HeadsOf(prs)) && Preparable(s, base, prs)
    requires IsPreparedTrain(s, virtual, s', base, prs, m, head)
    ensures ChangesManifest(s', head) && DiscoverManifest(s', head) == Some(m)
    ensures HasExactHistory(s', m, head) && HasExactTree(s', virtual, m, head, ManifestPath(m.trainBranch))
  {
    PreparedTrainAddsManifest(s, virtual, s', base, prs, m, head);
    PreparedManifestIsValid(s, base, prs, m);
    PreparedTrainIsAccepted(s, virtual, s', base, prs, m, head);
    assert ManifestPath(m.trainBranch) in LastChange(s', head);
  }

  /** A push whose manifest, history and tree are in order is accepted exactly when the reviews hold. */
  lemma AcceptsTrainIff(s: Store, virtual: VirtualBase, base: CommitId, head: CommitId, after: CommitId, m: Manifest,
        live: Live, mode: Mode)
    requires head < |s| && after < |s| && s[after].parents == [base, head] && s[after].tree == s[head].tree
    requires ChangesManifest(s, head) && DiscoverManifest(s, head) == Some(m) && m.baseCommit == base
    requires HasExactHistory(s, m, head) && HasExactTree(s, virtual, m, head, ManifestPath(m.trainBranch))
    ensures Accepts(s, virtual, Push(true, base, after), live, mode) <==> mode == Train(m) && ReviewsHold(s, m, live)
  {
  }

  /**
   * Merge a train built by `prepare` onto its base, with its tree, whatever has been added to the repository since:
   * the gate accepts that push exactly when every ordinary candidate is still ready, and then in train mode with the
   * manifest that `prepare` wrote.
   */
  lemma PreparedTrainPassesGateIff(
      s: Store, virtual: VirtualBase, s': Store, base: CommitId, prs: seq<PullRequest>, m: Manifest, head: CommitId,
      s'': Store, after: CommitId, live: Live, mode: Mode)
    requires Known(s, base, HeadsOf(prs)) && Preparable(s, base, prs)
    requires IsPreparedTrain(s, virtual, s', base, prs, m, head) && s' <= s''
    requires after < |s''| && s''[after].parents == [base, head] && s''[after].tree == s''[head].tree
    ensures Accepts(s'', virtual, Push(true, base, after), live, mode) <==>
            && mode == Train(m)
            && forall i :: 0 <= i < |prs| && prs[i].ordinary ==> StillReady(live(prs[i].number), prs[i])
  {
    PreparedTrainOutlives(s, virtual, s', s'', base, prs, m, head);
    PreparedTrainIsFound(s, virtual, s'', base, prs, m, head);
    AcceptsTrainIff(s'', virtual, base, head, after, m, live, mode);
    AttestedReviewsHoldIff(s, s'', base, prs, m.trainBranch, live);
  }

  lemma SoloTrainPassesGateIff(
      s: Store, virtual: VirtualBase, s': Store, base: CommitId, pr: PullRequest, m: Manifest, head: CommitId,
      after: CommitId, live: Live, mode: Mode)
    requires Known(s, base, HeadsOf([pr])) && Preparable(s, base, [pr]) && pr.ordinary
    requires IsPreparedTrain(s, virtual, s', base, [pr], m, head)
    requires after < |s'| && s'[after].parents == [base, head] && s'[after].tree == s'[head].tree
    ensures Accepts(s', virtual, Push(true, base, after), live, mode) <==>
            mode == Train(m) && StillReady(live(pr.number), pr)
  {
    PreparedTrainPassesGateIff(s, virtual, s', base, [pr], m, head, s', after, live, mode);
    assert [pr][0] == pr;
  }

  /** One ordinary candidate that adds a file. */
  function SoloStore(): (s: Store)
    ensures |s| == 2
  {
    [Commit([], map[], None), Commit([0], map[File("a") := Bytes("x")], None)]
  }

  function SoloCandidate(): PullRequest {
    PullRequest(1, 0, 1, true, true, Some(Endorsement("APPROVED", "r")))
  }

  lemma SoloIsPreparable()
    ensures HeadsOf([SoloCandidate()]) == [1] && Preparable(SoloStore(), 0, [SoloCandidate()])
  {
    var s, pr := SoloStore(), SoloCandidate();
    OneParentAncestors(s, 1, 0);
    assert HeadsOf([pr]) == [1];
    assert File("a") in ChangedPaths(s[0].tree, s[1].tree);
    assert ChangedPaths(s[0].tree, s[1].tree) == {File("a")};
    assert Envelope(s, 0, pr).Some?;
    assert Reviewed(s, 0, [pr]);
  }

  lemma SoloTree(virtual: VirtualBase)
    ensures TrainTree(SoloStore(), virtual, 0, [1]) == Clean(SoloStore()[1].tree)
  {
    var s := SoloStore();
    OneParentAncestors(s, 1, 0);
    assert TrainBases(s, 0, [], 1) == {0};
    SingleTree(s, virtual, 0, 1);
  }

  function SoloManifest(): Manifest {
    Manifest(0, "t", [AttestOne(SoloStore(), 0, SoloCandidate())])
  }

  /** The candidate, its merge, the manifest commit and the merge of that train into the protected branch. */
  function SoloPushed(): (s: Store)
    ensures |s| == 5 && SoloStore() <= s
  {
    var t: Tree := map[File("a") := Bytes("x")];
    var attested := t[ManifestPath("t") := Attestation(SoloManifest())];
    [ Commit([], map[], None), Commit([0], t, None), Commit([0, 1], t, None), Commit([2], attested, None),
      Commit([0, 3], attested, None) ]
  }

  lemma SoloIsPrepared(virtual: VirtualBase)
    ensures HeadsOf([SoloCandidate()]) == [1]
        && IsPreparedTrain(SoloStore(), virtual, SoloPushed(), 0, [SoloCandidate()], SoloManifest(), 3)
  {
    var s, s', pr := SoloStore(), SoloPushed(), SoloCandidate();
    SoloTree(virtual);
    assert HeadsOf([pr]) == [1];
    assert SoloManifest().candidates == Attest(s, 0, [pr]);
    assert IsFreshTrain(s, s', [0, 2], 0, [1]);
    assert ManifestPath("t") !in s[1].tree;
    assert CarriesTree(s', 3, 2, s[1].tree);
  }

  /**
   * A train that `prepare` built, pushed as built: the gate refuses it once its ordinary candidate is no longer open,
   * and accepts it while GitHub shows the candidate as it was.
   */
  lemma ClosedCandidateStopsTrain(virtual: VirtualBase, live: Live, mode: Mode)
    requires !live(1).ready
    ensures !Accepts(SoloPushed(), virtual, Push(true, 0, 4), live, mode)
    ensures Accepts(SoloPushed(), virtual, Push(true, 0, 4), _ => SoloCandidate(), Train(SoloManifest()))
  {
    var s, s', pr, m := SoloStore(), SoloPushed(), SoloCandidate(), SoloManifest();
    SoloIsPreparable();
    SoloIsPrepared(virtual);
    SoloTrainPassesGateIff(s, virtual, s', 0, pr, m, 3, 4, live, mode);
    SoloTrainPassesGateIff(s, virtual, s', 0, pr, m, 3, 4, _ => pr, Train(m));
  }
}
