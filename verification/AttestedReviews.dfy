/** The reviews a manifest attests, checked again when the train is pushed: `verify_attested_reviews`. */
module AttestedReviews {
  import opened Wrappers
  import opened Trees
  import opened GitStore
  import opened TrainChain
  import opened MergeTrain

  /** What GitHub shows of a pull request, by its number, at the time of the check. */
  type Live = int -> PullRequest

  /** A pull request that `verify_candidate_metadata` still takes for candidate `c` of a train on `base`. */
  predicate SameCandidate(now: PullRequest, c: AttestedCandidate, base: CommitId) {
    && now.number > 0 && now.ready && now.baseCommit == base
    && now.number == c.number && now.baseCommit == c.baseCommit && now.head == c.head
  }

  /** A GitHub review is looked up again; a receipt is in the commits. */
  function CheckedReview(s: Store, base: CommitId, c: AttestedCandidate, live: Live): Option<Review>
    requires base < |s| && c.head < |s|
  {
    match c.review
    case None => None
    case Some(ByGithub(_, _)) =>
      if SameCandidate(live(c.number), c, base) then CandidateReview(s, base, live(c.number)) else None
    case Some(ByReceipt(_)) =>
      match ReviewCommit(s, base, c.number, c.head)
      case None => None
      case Some(v) => Some(ByReceipt(v))
  }

  predicate ReviewHolds(s: Store, base: CommitId, c: AttestedCandidate, live: Live) {
    base < |s| && c.head < |s| && c.review.Some? && CheckedReview(s, base, c, live) == c.review
  }

  function AttestedPaths(c: AttestedCandidate): set<Path> {
    if c.review.Some? then ReviewPaths(c.review.value) else {}
  }

  function AllAttestedPaths(m: Manifest): (r: seq<set<Path>>)
    ensures |r| == |m.candidates| && forall i :: 0 <= i < |r| ==> r[i] == AttestedPaths(m.candidates[i])
  {
    seq(|m.candidates|, i requires 0 <= i < |m.candidates| => AttestedPaths(m.candidates[i]))
  }

  /** Every attested review is still there and unchanged, and no two of them own a path. */
  ghost predicate ReviewsHold(s: Store, m: Manifest, live: Live) {
    && (forall i :: 0 <= i < |m.candidates| ==> ReviewHolds(s, m.baseCommit, m.candidates[i], live))
    && PairwiseDisjoint(AllAttestedPaths(m))
  }

  /** The first `n` reviews hold, own no path in common, and own `owned` together. */
  ghost predicate HoldSoFar(s: Store, m: Manifest, live: Live, n: nat, owned: set<Path>) {
    && n <= |m.candidates|
    && (forall j :: 0 <= j < n ==> ReviewHolds(s, m.baseCommit, m.candidates[j], live))
    && PairwiseDisjoint(AllAttestedPaths(m)[..n]) && IsUnion(AllAttestedPaths(m)[..n], owned)
  }

  lemma HoldSoFarSnoc(s: Store, m: Manifest, live: Live, n: nat, owned: set<Path>)
    requires HoldSoFar(s, m, live, n, owned) && n < |m.candidates|
    requires ReviewHolds(s, m.baseCommit, m.candidates[n], live) && AttestedPaths(m.candidates[n]) !! owned
    ensures HoldSoFar(s, m, live, n + 1, owned + AttestedPaths(m.candidates[n]))
  {
    var all := AllAttestedPaths(m);
    PairwiseDisjointSnoc(all[..n], owned, all[n]);
    assert all[..n + 1] == all[..n] + [all[n]];
  }

  lemma SharedPathRefutes(s: Store, m: Manifest, live: Live, n: nat, owned: set<Path>)
    requires HoldSoFar(s, m, live, n, owned) && n < |m.candidates| && AttestedPaths(m.candidates[n]) * owned != {}
    ensures !PairwiseDisjoint(AllAttestedPaths(m))
  {
    var all := AllAttestedPaths(m);
    var p :| p in AttestedPaths(m.candidates[n]) * owned;
    var j :| 0 <= j < n && p in all[..n][j];
    assert p in all[j] * all[n];
  }

  lemma AllHold(s: Store, m: Manifest, live: Live, owned: set<Path>)
    requires HoldSoFar(s, m, live, |m.candidates|, owned)
    ensures ReviewsHold(s, m, live)
  {
    assert AllAttestedPaths(m)[..|m.candidates|] == AllAttestedPaths(m);
  }

  /** One round: the review that the manifest attests is found again, unchanged, on paths not yet owned. */
  method CheckAttestedReview(s: Store, m: Manifest, live: Live, i: nat, owned: set<Path>)
    returns (r: Option<set<Path>>)
    requires Known(s, m.baseCommit, AttestedHeads(m)) && i < |m.candidates| && HoldSoFar(s, m, live, i, owned)
    ensures r.Some? ==> HoldSoFar(s, m, live, i + 1, r.value)
    ensures r.None? ==> !ReviewsHold(s, m, live)
  {
    var c := m.candidates[i];
    assert AttestedHeads(m)[i] == c.head;
    if c.review.None? || CheckedReview(s, m.baseCommit, c, live) != c.review {
      assert !ReviewHolds(s, m.baseCommit, c, live);
      return None;
    }
    if AttestedPaths(c) * owned != {} {
      SharedPathRefutes(s, m, live, i, owned);
      return None;
    }
    HoldSoFarSnoc(s, m, live, i, owned);
    return Some(owned + AttestedPaths(c));
  }

  method VerifyAttestedReviews(s: Store, m: Manifest, live: Live) returns (ok: bool)
    requires Known(s, m.baseCommit, AttestedHeads(m))
    ensures ok <==> ReviewsHold(s, m, live)
  {
    var owned: set<Path> := {};
    for i := 0 to |m.candidates|
      invariant HoldSoFar(s, m, live, i, owned)
    {
      var next := CheckAttestedReview(s, m, live, i, owned);
      if next.None? {
        return false;
      }
      owned := next.value;
    }
    AllHold(s, m, live, owned);
    return true;
  }

  /** Commits do not change, so neither do the receipts and paths found in them. */
  lemma ReviewStable(s: Store, s': Store, base: CommitId, pr: PullRequest)
    requires s <= s' && base < |s| && pr.head < |s|
    ensures CandidateReview(s', base, pr) == CandidateReview(s, base, pr)
    ensures ReviewCommit(s', base, pr.number, pr.head) == ReviewCommit(s, base, pr.number, pr.head)
  {
    assert s[base] == s'[base] && s[pr.head] == s'[pr.head];
    AncestryStable(s, s', base, pr.head);
    if |s[pr.head].parents| == 1 {
      var reviewed := s[pr.head].parents[0];
      assert s[reviewed] == s'[reviewed];
      AncestryStable(s, s', base, reviewed);
    }
  }

  /** GitHub shows the candidate unchanged: open and ready, same base and head, ordinary, same standing review. */
  predicate StillReady(now: PullRequest, pr: PullRequest) {
    && now.ready && now.number == pr.number && now.baseCommit == pr.baseCommit && now.head == pr.head
    && now.ordinary && now.endorsement == pr.endorsement
  }

  /** A review attested in `s` holds in every later store; for an ordinary candidate, while it is still ready. */
  lemma AttestedReviewHoldsIff(s: Store, s': Store, base: CommitId, pr: PullRequest, live: Live)
    requires s <= s' && base < |s| && pr.head < |s| && pr.number > 0 && pr.baseCommit == base
    requires CandidateReview(s, base, pr).Some?
    ensures ReviewHolds(s', base, AttestOne(s, base, pr), live) <==> pr.ordinary ==>
        StillReady(live(pr.number), pr)
  {
    ReviewStable(s, s', base, pr);
    var now := live(pr.number);
    if pr.ordinary && now.head == pr.head {
      ReviewStable(s, s', base, now);
    }
  }

  /** Hence, for candidates that may be prepared, the second check comes out as the first exactly in that case. */
  lemma AttestedReviewsHoldIff(s: Store, s': Store, base: CommitId, prs: seq<PullRequest>, branch: string, live: Live)
    requires s <= s' && Known(s, base, HeadsOf(prs)) && Preparable(s, base, prs)
    ensures ReviewsHold(s', Manifest(base, branch, Attest(s, base, prs)), live) <==>
            forall i :: 0 <= i < |prs| && prs[i].ordinary ==> StillReady(live(prs[i].number), prs[i])
  {
    var m := Manifest(base, branch, Attest(s, base, prs));
    forall i | 0 <= i < |prs|
      ensures ReviewHolds(s', base, m.candidates[i], live) <==>
              prs[i].ordinary ==> StillReady(live(prs[i].number), prs[i])
      ensures Some(AttestedPaths(m.candidates[i])) == Envelope(s, base, prs[i])
    {
      assert HeadsOf(prs)[i] < |s| && Envelope(s, base, prs[i]).Some?;
      AttestedReviewHoldsIff(s, s', base, prs[i], live);
    }
    var all := AllAttestedPaths(m);
    forall i, j | 0 <= i < j < |all| ensures all[i] !! all[j]
    {
      assert Envelope(s, base, prs[i]).value !! Envelope(s, base, prs[j]).value;
    }
  }
}
