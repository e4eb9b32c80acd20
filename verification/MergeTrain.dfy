/** The bounded merge train: `prepare` builds it, `verify_exact_history` and `verify_exact_tree` recognise it. */
module MergeTrain {
  import opened Wrappers
  import opened Trees
  import opened GitStore
  import opened TrainChain
  import opened LineText

  const MAX_CANDIDATES := 4

  /**
   * A pull request as the train sees it. `ready` stands for an open, non-draft pull request with every required
   * check green and an admission that verifies, `ordinary` for what that admission says, and `endorsement` for
   * what its independent GitHub reviews come to.
   */
  datatype PullRequest = PullRequest(number: int, baseCommit: CommitId, head: CommitId, ready: bool, ordinary: bool,
        endorsement: Option<Endorsement>)

  datatype TrainError =
    | WrongCandidateCount | BadBranch | TrainOpen | NotReady | AlreadyContained | ReviewFailed | Overlap | Stacked
    | MergeConflict | NothingToCommit

  function HeadsOf(prs: seq<PullRequest>): (r: seq<CommitId>)
    ensures |r| == |prs| && forall i :: 0 <= i < |prs| ==> r[i] == prs[i].head
  {
    seq(|prs|, i requires 0 <= i < |prs| => prs[i].head)
  }

  function AttestedHeads(m: Manifest): (r: seq<CommitId>)
    ensures |r| == |m.candidates| && forall i :: 0 <= i < |r| ==> r[i] == m.candidates[i].head
  {
    seq(|m.candidates|, i requires 0 <= i < |m.candidates| => m.candidates[i].head)
  }

  /** `changed_paths`: the head must descend from the base and change something. */
  function ReviewedPaths(s: Store, base: CommitId, head: CommitId): Option<set<Path>>
    requires base < |s| && head < |s|
  {
    var changed := ChangedPaths(s[base].tree, s[head].tree);
    if IsAncestor(s, base, head) && changed != {} then Some(changed) else None
  }

  predicate ValidEndorsement(e: Endorsement) {
    e.state in {"APPROVED", "COMMENTED"} && Strip(e.reviewer) != ""
  }

  /** `validate_review_value`. */
  predicate ValidReviewValue(v: ReviewValue) {
    v.pr > 0 && v.author != "" && v.reviewer != "" && v.author != v.reviewer && v.approves && v.exactPaths != {}
  }

  /**
   * `verify_review_commit`: the head is a single-parent commit that changes only the receipt of its pull request, and
   * that receipt approves the parent and names the paths the parent changes.
   */
  function ReviewCommit(s: Store, base: CommitId, number: int, head: CommitId): Option<ReviewValue>
    requires base < |s| && head < |s|
  {
    match At(s[head].tree, Receipt(number))
    case Present(ReviewFile(v)) =>
      if && ValidReviewValue(v) && v.pr == number && v.baseCommit == base
         && s[head].parents == [v.reviewedHead]
         && ChangedPaths(s[s[head].parents[0]].tree, s[head].tree) == {Receipt(number)}
         && ReviewedPaths(s, base, s[head].parents[0]) == Some(v.exactPaths)
      then Some(v) else None
    case _ => None
  }

  /** `verify_candidate_review`: an ordinary change may not touch governance paths, any other one needs a receipt. */
  function CandidateReview(s: Store, base: CommitId, pr: PullRequest): Option<Review>
    requires base < |s| && pr.head < |s|
  {
    var whole := ReviewedPaths(s, base, pr.head);
    if whole.None? then
      None
    else if pr.ordinary then
      if && pr.endorsement.Some? && ValidEndorsement(pr.endorsement.value)
         && forall p :: p in whole.value ==> p.File?
      then Some(ByGithub(pr.endorsement.value, whole.value)) else None
    else
      match ReviewCommit(s, base, pr.number, pr.head)
      case None => None
      case Some(v) => Some(ByReceipt(v))
  }

  /** The `exactPaths` a review attests. */
  function Envelope(s: Store, base: CommitId, pr: PullRequest): Option<set<Path>>
    requires base < |s| && pr.head < |s|
  {
    match CandidateReview(s, base, pr)
    case None => None
    case Some(review) => Some(ReviewPaths(review))
  }

  predicate DistinctNumbers(prs: seq<PullRequest>) {
    forall i, j :: 0 <= i < j < |prs| ==> prs[i].number != prs[j].number
  }

  predicate AllReady(base: CommitId, prs: seq<PullRequest>) {
    forall i :: 0 <= i < |prs| ==> prs[i].number > 0 && prs[i].ready && prs[i].baseCommit == base
  }

  predicate Reviewed(s: Store, base: CommitId, prs: seq<PullRequest>)
    requires Known(s, base, HeadsOf(prs))
  {
    forall i :: 0 <= i < |prs| ==>
        HeadsOf(prs)[i] < |s| && !IsAncestor(s, prs[i].head, base) && Envelope(s, base, prs[i]).Some?
  }

  predicate DisjointEnvelopes(s: Store, base: CommitId, prs: seq<PullRequest>)
    requires Known(s, base, HeadsOf(prs)) && Reviewed(s, base, prs)
  {
    forall i, j :: 0 <= i < j < |prs| ==> Envelope(s, base, prs[i]).value !! Envelope(s, base, prs[j]).value
  }

  predicate Unstacked(s: Store, base: CommitId, prs: seq<PullRequest>)
    requires Known(s, base, HeadsOf(prs))
  {
    forall i, j :: 0 <= i < j < |prs| ==>
      HeadsOf(prs)[i] < |s| && HeadsOf(prs)[j] < |s| && !IsAncestor(s, prs[i].head, prs[j].head)
          && !IsAncestor(s, prs[j].head, prs[i].head)
  }

  /** What `prepare` checks before the first merge. */
  predicate Preparable(s: Store, base: CommitId, prs: seq<PullRequest>)
    requires Known(s, base, HeadsOf(prs))
  {
    && 1 <= |prs| <= MAX_CANDIDATES && DistinctNumbers(prs)
    && AllReady(base, prs)
    && Reviewed(s, base, prs) && DisjointEnvelopes(s, base, prs) && Unstacked(s, base, prs)
  }

  lemma PreparableIsRooted(s: Store, base: CommitId, prs: seq<PullRequest>)
    requires Known(s, base, HeadsOf(prs)) && Reviewed(s, base, prs)
    ensures Rooted(s, base, HeadsOf(prs)) && Related(s, base, HeadsOf(prs))
  {
    forall i | 0 <= i < |prs| ensures IsAncestor(s, base, HeadsOf(prs)[i])
    {
      assert Envelope(s, base, prs[i]).Some?;
    }
    RootedIsRelated(s, base, HeadsOf(prs));
  }

  /**
   * No head is contained in the train over the heads before it, so `git merge --no-ff` never says "already up to
   * date".
   */
  lemma EveryMergeIsReal(s: Store, s': Store, chain: seq<CommitId>, base: CommitId, prs: seq<PullRequest>, n: nat)
    requires Known(s, base, HeadsOf(prs)) && Reviewed(s, base, prs) && Unstacked(s, base, prs) && n < |prs|
    requires IsFreshTrain(s, s', chain, base, HeadsOf(prs)[..n])
    ensures !IsAncestor(s', prs[n].head, chain[n])
  {
    var earlier := HeadsOf(prs)[..n];
    assert HeadsOf(prs)[n] == prs[n].head;
    TrainReaches(s, s', chain, base, earlier, prs[n].head);
    assert forall i :: 0 <= i < n ==> earlier[i] == prs[i].head;
    assert !IsAncestor(s, prs[n].head, base);
  }

  /** `head` is the single-parent commit on top of a train over the attested candidates. */
  ghost predicate HasExactHistory(s: Store, m: Manifest, head: CommitId)
    requires head < |s|
  {
    |s[head].parents| == 1 && EndsTrain(s, m.baseCommit, AttestedHeads(m), s[head].parents[0])
  }

  ghost predicate EndsTrain(s: Store, base: CommitId, heads: seq<CommitId>, tip: CommitId) {
    exists chain :: IsTrain(s, chain, base, heads) && chain[|heads|] == tip
  }

  lemma EndsTrainSnoc(s: Store, base: CommitId, heads: seq<CommitId>, tip: CommitId)
    requires heads != [] && tip < |s|
    ensures EndsTrain(s, base, heads, tip) <==>
            |s[tip].parents| == 2 && s[tip].parents[1] == heads[|heads| - 1]
            && EndsTrain(s, base, heads[..|heads| - 1], s[tip].parents[0])
  {
    var n := |heads|;
    if EndsTrain(s, base, heads, tip) {
      var chain :| IsTrain(s, chain, base, heads) && chain[n] == tip;
      assert s[chain[n - 1 + 1]].parents == [chain[n - 1], heads[n - 1]];
      assert IsTrain(s, chain[..n], base, heads[..n - 1]);
    }
    if |s[tip].parents| == 2 && s[tip].parents[1] == heads[n - 1]
        && EndsTrain(s, base, heads[..n - 1], s[tip].parents[0]) {
      var chain :| IsTrain(s, chain, base, heads[..n - 1]) && chain[n - 1] == s[tip].parents[0];
      assert s[tip].parents == [chain[n - 1], heads[n - 1]];
      var extended := chain + [tip];
      forall i | 0 <= i < n ensures s[extended[i + 1]].parents == [extended[i], heads[i]]
      {
        if i < n - 1 { assert s[chain[i + 1]].parents == [chain[i], heads[..n - 1][i]]; }
      }
      assert IsTrain(s, extended, base, heads);
    }
  }

  /** The tree of `head` is the tree of the reconstructed train, changed at the manifest path and nowhere else. */
  predicate HasExactTree(s: Store, virtual: VirtualBase, m: Manifest, head: CommitId, path: Path)
    requires head < |s|
  {
    match TrainTree(s, virtual, m.baseCommit, AttestedHeads(m))
    case Conflicted => false
    case Clean(t) => ChangedPaths(t, s[head].tree) == {path}
  }

  /** `suffix.replace('/', '--')`. */
  function Flatten(suffix: string): string {
    if suffix == "" then "" else (if suffix[0] == '/' then "--" else [suffix[0]]) + Flatten(suffix[1..])
  }

  predicate IsBranchCharacter(c: char) {
    'A' <= c <= 'Z' || 'a' <= c <= 'z' || '0' <= c <= '9' || c == '.' || c == '_' || c == '/' || c == '-'
  }

  /** A train branch, as the part of its name after `merge-train/`. */
  predicate IsTrainBranch(branch: string) {
    branch != "" && forall i :: 0 <= i < |branch| ==> IsBranchCharacter(branch[i])
  }

  /** `manifest_path_for_branch`. */
  function ManifestPath(branch: string): Path {
    ManifestFile(Flatten(branch))
  }

  function AttestOne(s: Store, base: CommitId, pr: PullRequest): AttestedCandidate
    requires base < |s| && pr.head < |s|
  {
    AttestedCandidate(pr.number, pr.baseCommit, pr.head, CandidateReview(s, base, pr))
  }

  /** The candidates as the manifest lists them, with the reviews found at the time. */
  function Attest(s: Store, base: CommitId, prs: seq<PullRequest>): (r: seq<AttestedCandidate>)
    requires Known(s, base, HeadsOf(prs))
    ensures |r| == |prs|
    ensures forall i :: 0 <= i < |prs| ==> HeadsOf(prs)[i] < |s| && r[i] == AttestOne(s, base, prs[i])
  {
    assert forall i :: 0 <= i < |prs| ==> HeadsOf(prs)[i] == prs[i].head;
    seq(|prs|, i requires 0 <= i < |prs| => AttestOne(s, base, prs[i]))
  }

  /** `s'` adds to `s` a train over `prs` and, on top of it, the manifest commit `head`. */
  ghost predicate IsPreparedTrain(
      s: Store, virtual: VirtualBase, s': Store, base: CommitId, prs: seq<PullRequest>, m: Manifest, head: CommitId)
    requires Known(s, base, HeadsOf(prs))
  {
    && s <= s' && head < |s'|
    && m == Manifest(base, m.trainBranch, Attest(s, base, prs)) && IsTrainBranch(m.trainBranch)
    && match TrainTree(s, virtual, base, HeadsOf(prs))
       case Conflicted => false
       case Clean(t) =>
         && s'[head].tree == t[ManifestPath(m.trainBranch) := Attestation(m)] && s'[head].tree != t
         && exists chain :: IsFreshTrain(s, s', chain, base, HeadsOf(prs)) && CarriesTree(s', head, chain[|prs|], t)
  }

  /** `head` is a single-parent commit on `tip`, whose tree is `t`. */
  predicate CarriesTree(s: Store, head: CommitId, tip: CommitId, t: Tree) {
    head < |s| && tip < |s| && s[head].parents == [tip] && s[tip].tree == t
  }

  ghost predicate PairwiseDisjoint(sets: seq<set<Path>>) {
    forall j, k :: 0 <= j < k < |sets| ==> sets[j] !! sets[k]
  }

  ghost predicate IsUnion(sets: seq<set<Path>>, all: set<Path>) {
    && (forall j :: 0 <= j < |sets| ==> sets[j] <= all)
    && forall p :: p in all ==> exists j :: 0 <= j < |sets| && p in sets[j]
  }

  lemma PairwiseDisjointSnoc(sets: seq<set<Path>>, all: set<Path>, more: set<Path>)
    requires PairwiseDisjoint(sets) && IsUnion(sets, all) && all !! more
    ensures PairwiseDisjoint(sets + [more]) && IsUnion(sets + [more], all + more)
  {
    var longer := sets + [more];
    forall p | p in all + more ensures exists j :: 0 <= j < |longer| && p in longer[j]
    {
      if p in all {
        var j :| 0 <= j < |sets| && p in sets[j];
        assert p in longer[j];
      } else {
        assert p in longer[|sets|];
      }
    }
  }

  /** The candidate is not contained in the base, and its review attests `paths`. */
  ghost predicate HasEnvelope(s: Store, base: CommitId, pr: PullRequest, paths: set<Path>) {
    base < |s| && pr.head < |s| && !IsAncestor(s, pr.head, base) && Envelope(s, base, pr) == Some(paths)
  }

  ghost predicate AreEnvelopes(s: Store, base: CommitId, prs: seq<PullRequest>, envelopes: seq<set<Path>>)
    requires Known(s, base, HeadsOf(prs))
  {
    |envelopes| <= |prs| && forall i :: 0 <= i < |envelopes| ==> HasEnvelope(s, base, prs[i], envelopes[i])
  }

  lemma AreEnvelopesSnoc(s: Store, base: CommitId, prs: seq<PullRequest>, envelopes: seq<set<Path>>, next: set<Path>)
    requires Known(s, base, HeadsOf(prs)) && AreEnvelopes(s, base, prs, envelopes) && |envelopes| < |prs|
    requires HasEnvelope(s, base, prs[|envelopes|], next)
    ensures AreEnvelopes(s, base, prs, envelopes + [next])
  {
    var longer := envelopes + [next];
    forall i | 0 <= i < |longer| ensures HasEnvelope(s, base, prs[i], longer[i])
    {
      if i < |envelopes| { assert HasEnvelope(s, base, prs[i], envelopes[i]); }
    }
  }

  lemma OverlapRefutes(s: Store, base: CommitId, prs: seq<PullRequest>, envelopes: seq<set<Path>>, i: nat, j: nat,
        p: Path)
    requires Known(s, base, HeadsOf(prs)) && AreEnvelopes(s, base, prs, envelopes)
    requires i < j < |envelopes| && p in envelopes[i] && p in envelopes[j]
    ensures !(Reviewed(s, base, prs) && DisjointEnvelopes(s, base, prs))
  {
  }

  lemma DisjointDecided(s: Store, base: CommitId, prs: seq<PullRequest>, envelopes: seq<set<Path>>)
    requires Known(s, base, HeadsOf(prs)) && AreEnvelopes(s, base, prs, envelopes) && |envelopes| == |prs|
    ensures Reviewed(s, base, prs)
    ensures PairwiseDisjoint(envelopes) ==> DisjointEnvelopes(s, base, prs)
  {
  }

  ghost predicate OwnedSoFar(s: Store, base: CommitId, prs: seq<PullRequest>, envelopes: seq<set<Path>>,
        owned: set<Path>)
    requires Known(s, base, HeadsOf(prs))
  {
    AreEnvelopes(s, base, prs, envelopes) && PairwiseDisjoint(envelopes) && IsUnion(envelopes, owned)
  }

  ghost predicate PathsReviewed(s: Store, base: CommitId, prs: seq<PullRequest>)
    requires Known(s, base, HeadsOf(prs))
  {
    Reviewed(s, base, prs) && DisjointEnvelopes(s, base, prs)
  }

  /** One round of the review loop of `prepare`. */
  method CheckReview(s: Store, base: CommitId, prs: seq<PullRequest>, owned: set<Path>, ghost envelopes: seq<set<Path>>,
        i: nat)
    returns (r: Result<set<Path>, TrainError>)
    requires Known(s, base, HeadsOf(prs)) && i < |prs| && |envelopes| == i
    requires OwnedSoFar(s, base, prs, envelopes, owned)
    ensures r.Ok? ==> OwnedSoFar(s, base, prs, envelopes + [r.value], owned + r.value)
    ensures r.Err? ==> !PathsReviewed(s, base, prs) && r.error in {AlreadyContained, ReviewFailed, Overlap}
  {
    assert HeadsOf(prs)[i] == prs[i].head;
    if IsAncestor(s, prs[i].head, base) {
      return Err(AlreadyContained);
    }
    var envelope := Envelope(s, base, prs[i]);
    if envelope.None? {
      return Err(ReviewFailed);
    }
    AreEnvelopesSnoc(s, base, prs, envelopes, envelope.value);
    if envelope.value * owned != {} {
      ghost var p :| p in envelope.value * owned;
      ghost var j :| 0 <= j < i && p in envelopes[j];
      OverlapRefutes(s, base, prs, envelopes + [envelope.value], j, i, p);
      return Err(Overlap);
    }
    PairwiseDisjointSnoc(envelopes, owned, envelope.value);
    return Ok(envelope.value);
  }

  /** The review loop of `prepare`: it grows the set of owned paths candidate by candidate. */
  method CheckReviews(s: Store, base: CommitId, prs: seq<PullRequest>) returns (r: Result<(), TrainError>)
    requires Known(s, base, HeadsOf(prs))
    ensures r.Ok? <==> PathsReviewed(s, base, prs)
    ensures r.Err? ==> r.error in {AlreadyContained, ReviewFailed, Overlap}
  {
    var owned: set<Path> := {};
    ghost var envelopes: seq<set<Path>> := [];
    for i := 0 to |prs|
      invariant |envelopes| == i && OwnedSoFar(s, base, prs, envelopes, owned)
    {
      var paths := CheckReview(s, base, prs, owned, envelopes, i);
      if paths.Err? {
        return Err(paths.error);
      }
      owned, envelopes := owned + paths.value, envelopes + [paths.value];
    }
    DisjointDecided(s, base, prs, envelopes);
    return Ok(());
  }

  method CheckUnstacked(s: Store, base: CommitId, prs: seq<PullRequest>) returns (r: Result<(), TrainError>)
    requires Known(s, base, HeadsOf(prs))
    ensures r.Ok? <==> Unstacked(s, base, prs)
    ensures r.Err? ==> r.error == Stacked
  {
    assert forall i :: 0 <= i < |prs| ==> HeadsOf(prs)[i] == prs[i].head;
    for i := 0 to |prs|
      invariant forall a, b :: 0 <= a < i && a < b < |prs| ==>
        HeadsOf(prs)[a] < |s| && HeadsOf(prs)[b] < |s|
        && !IsAncestor(s, prs[a].head, prs[b].head) && !IsAncestor(s, prs[b].head, prs[a].head)
    {
      for j := i + 1 to |prs|
        invariant forall b :: i < b < j ==>
          HeadsOf(prs)[b] < |s|
          && !IsAncestor(s, prs[i].head, prs[b].head) && !IsAncestor(s, prs[b].head, prs[i].head)
      {
        if IsAncestor(s, prs[i].head, prs[j].head) || IsAncestor(s, prs[j].head, prs[i].head) {
          return Err(Stacked);
        }
      }
    }
    return Ok(());
  }

  /** The clone in which a train is prepared and checked; `head` is the checked-out commit. */
  class Worktree {
    var objects: Store
    var head: CommitId
    const virtual: VirtualBase

    ghost predicate Valid()
      reads this
    {
      head < |objects|
    }

    constructor (objects: Store, head: CommitId, virtual: VirtualBase)
      requires head < |objects|
      ensures Valid() && this.objects == objects && this.head == head && this.virtual == virtual
    {
      this.objects, this.head, this.virtual := objects, head, virtual;
    }

    /** `git merge --no-ff`: a contained head changes nothing, any other clean merge makes a two-parent commit. */
    method MergeNoFastForward(h: CommitId) returns (ok: bool)
      requires Valid() && h < |objects|
      modifies this
      ensures Valid()
      ensures old(IsAncestor(objects, h, head)) ==> ok && objects == old(objects) && head == old(head)
      ensures !old(IsAncestor(objects, h, head)) ==>
                match old(MergeCommits(objects, virtual, head, h))
                case Conflicted => !ok && objects == old(objects) && head == old(head)
                case Clean(t) =>
                  ok && objects == old(Append(objects, Commit([head, h], t, None))) && head == old(|objects|)
    {
      if IsAncestor(objects, h, head) {
        return true;
      }
      var merged := MergeCommits(objects, virtual, head, h);
      if merged.Conflicted? {
        return false;
      }
      objects, head := Append(objects, Commit([head, h], merged.tree, None)), |objects|;
      return true;
    }

    /** The merge loop of `prepare`. A conflict leaves the branch at the last merge that succeeded. */
    method MergeCandidates(prs: seq<PullRequest>) returns (ok: bool, ghost chain: seq<CommitId>)
      requires Valid() && Known(objects, head, HeadsOf(prs))
      requires Reviewed(objects, head, prs) && Unstacked(objects, head, prs)
      modifies this
      ensures Valid() && old(objects) <= objects
      ensures ok <==> TrainTree(old(objects), virtual, old(head), HeadsOf(prs)).Clean?
      ensures ok ==> IsFreshTrain(old(objects), objects, chain, old(head), HeadsOf(prs)) && head == chain[|prs|]
      ensures ok ==> TrainTree(old(objects), virtual, old(head), HeadsOf(prs)) == Clean(objects[head].tree)
      ensures !ok ==> 1 <= |chain| <= |prs| && head == chain[|chain| - 1]
                      && IsFreshTrain(old(objects), objects, chain, old(head), HeadsOf(prs)[..|chain| - 1])
                      && TrainTree(old(objects), virtual, old(head), HeadsOf(prs)[..|chain|]).Conflicted?
    {
      ghost var s, base, heads := objects, head, HeadsOf(prs);
      chain := [head];
      for i := 0 to |prs|
        invariant Valid() && s <= objects
        invariant IsFreshTrain(s, objects, chain, base, heads[..i]) && head == chain[i]
        invariant TrainTree(s, virtual, base, heads[..i]) == Clean(objects[head].tree)
      {
        assert heads[i] == prs[i].head;
        EveryMergeIsReal(s, objects, chain, base, prs, i);
        NextMerge(s, virtual, objects, chain, base, heads, i);
        ghost var before := objects;
        var merged := MergeNoFastForward(prs[i].head);
        if !merged {
          if TrainTree(s, virtual, base, heads).Clean? {
            TrainTreePrefix(s, virtual, base, heads, i + 1);
          }
          return false, chain;
        }
        AppendedTrain(s, before, chain, base, heads, i, objects[head].tree);
        chain := chain + [head];
      }
      assert heads[..|prs|] == heads;
      return true, chain;
    }

    /** Everything `prepare` checks before the first merge; `trainOpen` says that some train is already open. */
    method CheckCandidates(branch: string, trainOpen: bool, prs: seq<PullRequest>) returns (r: Result<(), TrainError>)
      requires Valid() && Known(objects, head, HeadsOf(prs))
      ensures r.Ok? <==> IsTrainBranch(branch) && !trainOpen && Preparable(objects, head, prs)
      ensures r.Err? ==> r.error != MergeConflict && r.error != NothingToCommit
    {
      if !(1 <= |prs| <= MAX_CANDIDATES) || !DistinctNumbers(prs) {
        return Err(WrongCandidateCount);
      }
      if !IsTrainBranch(branch) {
        return Err(BadBranch);
      }
      if trainOpen {
        return Err(TrainOpen);
      }
      if !AllReady(head, prs) {
        return Err(NotReady);
      }
      r := CheckReviews(objects, head, prs);
      if r.Ok? {
        r := CheckUnstacked(objects, head, prs);
      }
    }

    /** Write the manifest and commit it; git refuses a commit that changes nothing. */
    method CommitManifest(m: Manifest) returns (ok: bool)
      requires Valid()
      modifies this
      ensures Valid()
      ensures ok <==> old(At(objects[head].tree, ManifestPath(m.trainBranch))) != Present(Attestation(m))
      ensures !ok ==> objects == old(objects) && head == old(head)
      ensures ok ==> head == old(|objects|)
                     && objects == old(Append(objects,
                        Commit([head], objects[head].tree[ManifestPath(m.trainBranch) := Attestation(m)], None)))
    {
      var tree := objects[head].tree;
      if At(tree, ManifestPath(m.trainBranch)) == Present(Attestation(m)) {
        return false;
      }
      objects, head := Append(objects, Commit([head], tree[ManifestPath(m.trainBranch) := Attestation(m)], None)),
          |objects|;
      return true;
    }

    method Prepare(branch: string, trainOpen: bool, prs: seq<PullRequest>) returns (r: Result<Manifest, TrainError>)
      requires Valid() && Known(objects, head, HeadsOf(prs))
      modifies this
      ensures Valid() && old(objects) <= objects
      ensures r.Ok? ==> r.value.trainBranch == branch
      ensures r.Ok? ==> IsPreparedTrain(old(objects), virtual, objects, old(head), prs, r.value, head)
      ensures r.Ok? || r == Err(MergeConflict) || r == Err(NothingToCommit) <==>
              IsTrainBranch(branch) && !trainOpen && old(Preparable(objects, head, prs))
      ensures r.Err? && r.error != MergeConflict && r.error != NothingToCommit ==>
          objects == old(objects) && head == old(head)
      ensures r == Err(MergeConflict) ==> TrainTree(old(objects), virtual, old(head), HeadsOf(prs)).Conflicted?
      ensures r == Err(NothingToCommit) ==>
                match TrainTree(old(objects), virtual, old(head), HeadsOf(prs))
                case Conflicted => false
                case Clean(t) =>
                  At(t, ManifestPath(branch)) ==
                  Present(Attestation(Manifest(old(head), branch, Attest(old(objects), old(head), prs))))
    {
      var checked := CheckCandidates(branch, trainOpen, prs);
      if checked.Err? {
        return Err(checked.error);
      }
      var base, candidates := head, Attest(objects, head, prs);
      ghost var s := objects;
      var ok, chain := MergeCandidates(prs);
      if !ok {
        return Err(MergeConflict);
      }
      var m := Manifest(base, branch, candidates);
      ghost var before, tip := objects, head;
      var committed := CommitManifest(m);
      if !committed {
        return Err(NothingToCommit);
      }
      TrainOutlives(s, before, objects, chain, base, HeadsOf(prs));
      assert At(objects[head].tree, ManifestPath(branch)) != At(before[tip].tree, ManifestPath(branch));
      assert CarriesTree(objects, head, chain[|prs|], before[tip].tree);
      return Ok(m);
    }

    /** Walk the first parents from `train` back to the attested base. */
    method VerifyExactHistory(m: Manifest, train: CommitId) returns (ok: bool)
      requires train < |objects|
      ensures ok <==> HasExactHistory(objects, m, train)
    {
      if |objects[train].parents| != 1 {
        return false;
      }
      ghost var heads := AttestedHeads(m);
      var current: CommitId := objects[train].parents[0];
      var i := |m.candidates|;
      assert heads[..i] == heads;
      while i > 0
        invariant 0 <= i <= |heads| && current < |objects|
        invariant EndsTrain(objects, m.baseCommit, heads[..i], current) <==> HasExactHistory(objects, m, train)
      {
        i := i - 1;
        assert heads[..i + 1][..i] == heads[..i];
        EndsTrainSnoc(objects, m.baseCommit, heads[..i + 1], current);
        if |objects[current].parents| != 2 || objects[current].parents[1] != m.candidates[i].head {
          return false;
        }
        current := objects[current].parents[0];
      }
      ok := current == m.baseCommit;
      if ok {
        assert IsTrain(objects, [current], m.baseCommit, []);
      }
    }

    /** Rebuild the train from its base and compare trees; `checkout` is the commit whose files are on disk. */
    method VerifyExactTree(m: Manifest, train: CommitId, path: Path, checkout: CommitId) returns (ok: bool)
      requires train < |objects| && checkout < |objects|
      modifies this`objects
      ensures old(objects) <= objects
      ensures ok <==> old(HasExactTree(objects, virtual, m, train, path)
                          && At(objects[train].tree, path).Present?
                             && At(objects[checkout].tree, path) == At(objects[train].tree, path))
    {
      ghost var s := objects;
      var heads := AttestedHeads(m);
      if !Known(objects, m.baseCommit, heads) {
        return false;
      }
      var current: CommitId := m.baseCommit;
      ghost var chain: seq<CommitId> := [current];
      for i := 0 to |heads|
        invariant s <= objects && current < |objects|
        invariant IsFreshTrain(s, objects, chain, m.baseCommit, heads[..i]) && current == chain[i]
        invariant TrainTree(s, virtual, m.baseCommit, heads[..i]) == Clean(objects[current].tree)
      {
        NextMerge(s, virtual, objects, chain, m.baseCommit, heads, i);
        ghost var before := objects;
        var merged := MergeCommits(objects, virtual, current, heads[i]);
        if merged.Conflicted? {
          if TrainTree(s, virtual, m.baseCommit, heads).Clean? {
            TrainTreePrefix(s, virtual, m.baseCommit, heads, i + 1);
          }
          return false;
        }
        objects, current := Append(objects, Commit([current, heads[i]], merged.tree, None)), |objects|;
        AppendedTrain(s, before, chain, m.baseCommit, heads, i, merged.tree);
        chain := chain + [current];
      }
      assert heads[..|heads|] == heads;
      assert objects[train] == s[train] && objects[checkout] == s[checkout];
      return ChangedPaths(objects[current].tree, objects[train].tree) == {path}
        && At(objects[train].tree, path).Present? && At(objects[checkout].tree, path) == At(objects[train].tree, path);
    }
  }
}
