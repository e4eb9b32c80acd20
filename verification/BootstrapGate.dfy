/** The gate every push to the protected branch passes: `verify_bootstrap_push`. */
module BootstrapGate {
  import opened Wrappers
  import opened Trees
  import opened GitStore
  import opened TrainChain
  import opened MergeTrain
  import opened AttestedReviews

  /** A push event; `normal` is an update of the protected branch that is not forced, deleted or created. */
  datatype Push = Push(normal: bool, before: CommitId, after: CommitId)

  datatype Mode = Train(manifest: Manifest) | Direct(pullRequest: int)

  datatype GateError =
    | AbnormalPush | WrongCheckout | NotANormalMerge | BadManifest | StaleTrain | WrongHistory | WrongTree
    | ReviewsDrifted | TreeMismatch | NotBasedOnPrior | NoPullRequest

  predicate ValidReview(r: Review) {
    && ReviewPaths(r) != {}
    && match r
       case ByGithub(endorsement, _) => ValidEndorsement(endorsement)
       case ByReceipt(v) => v.author != "" && v.reviewer != "" && v.author != v.reviewer
  }

  predicate ValidCandidate(c: AttestedCandidate, base: CommitId) {
    c.number > 0 && c.baseCommit == base && c.review.Some? && ValidReview(c.review.value)
  }

  /** `validate_manifest_value`. */
  predicate ValidManifest(m: Manifest) {
    && IsTrainBranch(m.trainBranch) && 1 <= |m.candidates| <= MAX_CANDIDATES
    && (forall i :: 0 <= i < |m.candidates| ==> ValidCandidate(m.candidates[i], m.baseCommit))
    && forall i, j :: 0 <= i < j < |m.candidates| ==>
         m.candidates[i].number != m.candidates[j].number && m.candidates[i].head != m.candidates[j].head
  }

  function LastChange(s: Store, c: CommitId): (r: set<Path>)
    requires c < |s|
  {
    if |s[c].parents| == 1 then ChangedPaths(s[s[c].parents[0]].tree, s[c].tree) else {}
  }

  predicate ChangesManifest(s: Store, c: CommitId)
    requires c < |s|
  {
    exists p :: p in LastChange(s, c) && p.ManifestFile?
  }

  /**
   * `discover_manifest_at_head`: the last commit changes one path, and that path holds the manifest it is named after.
   */
  function DiscoverManifest(s: Store, c: CommitId): (r: Option<Manifest>)
    requires c < |s|
    ensures forall m :: r == Some(m) <==>
              && ValidManifest(m) && LastChange(s, c) == {ManifestPath(m.trainBranch)}
              && At(s[c].tree, ManifestPath(m.trainBranch)) == Present(Attestation(m))
  {
    if exists p :: p in LastChange(s, c) && LastChange(s, c) == {p} && p.ManifestFile? then
      var p :| p in LastChange(s, c) && LastChange(s, c) == {p} && p.ManifestFile?;
      match At(s[c].tree, p)
      case Present(Attestation(m)) => if ValidManifest(m) && ManifestPath(m.trainBranch) == p then Some(m) else None
      case _ => None
    else
      None
  }

  /** What the gate accepts, and in which mode. */
  ghost predicate Accepts(s: Store, virtual: VirtualBase, e: Push, live: Live, mode: Mode) {
    && e.normal && e.after < |s|
    && |s[e.after].parents| == 2 && s[e.after].parents[0] == e.before
    && var pr := s[e.after].parents[1];
       && s[e.after].tree == s[pr].tree
       && if ChangesManifest(s, pr) then
            && mode.Train? && DiscoverManifest(s, pr) == Some(mode.manifest) && mode.manifest.baseCommit == e.before
            && HasExactHistory(s, mode.manifest, pr)
            && HasExactTree(s, virtual, mode.manifest, pr, ManifestPath(mode.manifest.trainBranch))
            && ReviewsHold(s, mode.manifest, live)
          else
            && IsAncestor(s, e.before, pr)
            && mode.Direct? && s[e.after].pullRequest == Some(mode.pullRequest)
  }

  lemma HistoryKnowsCandidates(s: Store, m: Manifest, head: CommitId)
    requires head < |s| && HasExactHistory(s, m, head)
    ensures Known(s, m.baseCommit, AttestedHeads(m))
  {
    var heads := AttestedHeads(m);
    var chain :| IsTrain(s, chain, m.baseCommit, heads) && chain[|heads|] == s[head].parents[0];
    assert chain[0] < |s|;
    forall i | 0 <= i < |heads| ensures heads[i] < |s|
    {
      assert s[chain[i + 1]].parents == [chain[i], heads[i]];
      assert heads[i] in s[chain[i + 1]].parents;
    }
  }

  /** `live` is what GitHub shows of the candidates while the gate runs. */
  method VerifyPush(w: Worktree, e: Push, live: Live) returns (r: Result<Mode, GateError>)
    requires w.Valid()
    modifies w`objects
    ensures w.Valid() && old(w.objects) <= w.objects
    ensures r.Ok? ==> w.head == e.after && Accepts(old(w.objects), w.virtual, e, live, r.value)
    ensures r.Err? && w.head == e.after ==> forall mode :: !Accepts(old(w.objects), w.virtual, e, live, mode)
  {
    var s := w.objects;
    if !e.normal {
      return Err(AbnormalPush);
    }
    if w.head != e.after {
      return Err(WrongCheckout);
    }
    if |s[e.after].parents| != 2 || s[e.after].parents[0] != e.before {
      return Err(NotANormalMerge);
    }
    var pr: CommitId := s[e.after].parents[1];
    if ChangesManifest(s, pr) {
      r := VerifyTrainPush(w, e, pr, live);
    } else {
      if !IsAncestor(s, e.before, pr) {
        return Err(NotBasedOnPrior);
      }
      if s[e.after].tree != s[pr].tree {
        return Err(TreeMismatch);
      }
      if s[e.after].pullRequest.None? {
        return Err(NoPullRequest);
      }
      return Ok(Direct(s[e.after].pullRequest.value));
    }
  }

  method VerifyTrainPush(w: Worktree, e: Push, pr: CommitId, live: Live) returns (r: Result<Mode, GateError>)
    requires w.Valid() && w.head == e.after && e.normal
    requires pr < |w.objects| && w.objects[e.after].parents == [e.before, pr]
    requires ChangesManifest(w.objects, pr)
    modifies w`objects
    ensures w.Valid() && old(w.objects) <= w.objects
    ensures r.Ok? ==> Accepts(old(w.objects), w.virtual, e, live, r.value)
    ensures r.Err? ==> forall mode :: !Accepts(old(w.objects), w.virtual, e, live, mode)
  {
    var s := w.objects;
    var found := DiscoverManifest(s, pr);
    if found.None? {
      return Err(BadManifest);
    }
    var m := found.value;
    if m.baseCommit != e.before {
      return Err(StaleTrain);
    }
    var history := w.VerifyExactHistory(m, pr);
    if !history {
      return Err(WrongHistory);
    }
    var tree := w.VerifyExactTree(m, pr, ManifestPath(m.trainBranch), e.after);
    if !tree {
      return Err(WrongTree);
    }
    HistoryKnowsCandidates(s, m, pr);
    var reviews := VerifyAttestedReviews(s, m, live);
    if !reviews {
      return Err(ReviewsDrifted);
    }
    if s[e.after].tree != s[pr].tree {
      return Err(TreeMismatch);
    }
    return Ok(Train(m));
  }

  lemma {:induction false} TrainContainsBase(s: Store, chain: seq<CommitId>, base: CommitId, heads: seq<CommitId>)
    requires IsTrain(s, chain, base, heads)
    ensures IsAncestor(s, base, chain[|heads|])
    decreases |heads|
  {
    var n := |heads|;
    if n > 0 {
      assert IsTrain(s, chain[..n], base, heads[..n - 1]);
      TrainContainsBase(s, chain[..n], base, heads[..n - 1]);
      assert s[chain[n - 1 + 1]].parents == [chain[n - 1], heads[n - 1]];
      assert IsAncestor(s, base, s[chain[n]].parents[0]);
    }
  }

  /** In either mode the merged head contains the prior protected head, although train mode never asks git. */
  lemma AcceptedHeadContainsPrior(s: Store, virtual: VirtualBase, e: Push, live: Live, mode: Mode)
    requires Accepts(s, virtual, e, live, mode)
    ensures IsAncestor(s, e.before, s[e.after].parents[1])
  {
    var pr := s[e.after].parents[1];
    if ChangesManifest(s, pr) {
      var heads := AttestedHeads(mode.manifest);
      var chain :| IsTrain(s, chain, e.before, heads) && chain[|heads|] == s[pr].parents[0];
      TrainContainsBase(s, chain, e.before, heads);
      assert IsAncestor(s, e.before, s[pr].parents[0]);
    }
  }

  /** One accepted push, with the objects the gate saw. */
  datatype Observation = Observation(objects: Store, push: Push, live: Live, mode: Mode)

  /** Consecutive pushes to the branch: each starts where the previous one ended, and objects are never removed. */
  ghost predicate IsRun(run: seq<Observation>, virtual: VirtualBase) {
    && (forall i :: 0 <= i < |run| ==> Accepts(run[i].objects, virtual, run[i].push, run[i].live, run[i].mode))
    && (forall i, j :: 0 <= i < j < |run| ==> run[i].objects <= run[j].objects)
    && forall i, j :: 0 <= i < j < |run| && j == i + 1 ==> run[i].push.after == run[j].push.before
  }

  /** The commit `n` first-parent steps below `c`, if there is one. */
  function FirstParent(s: Store, c: CommitId, n: nat): (r: Option<CommitId>)
    requires c < |s|
    ensures r.Some? ==> r.value < |s|
    decreases n
  {
    if n == 0 then Some(c)
    else if s[c].parents == [] then None
    else FirstParent(s, s[c].parents[0], n - 1)
  }

  lemma {:induction false} FirstParentStable(s: Store, s': Store, c: CommitId, n: nat)
    requires s <= s' && c < |s|
    ensures FirstParent(s, c, n) == FirstParent(s', c, n)
    decreases n
  {
    assert s[c] == s'[c];
    if n > 0 && s[c].parents != [] {
      FirstParentStable(s, s', s[c].parents[0], n - 1);
    }
  }

  /** The second parent of the pushed merge. */
  function MergedHead(o: Observation): CommitId {
    if o.push.after < |o.objects| && |o.objects[o.push.after].parents| == 2
    then o.objects[o.push.after].parents[1] else 0
  }

  /** `after` is in `s` a merge of `pr` into `before` with the tree of `pr`, and `pr` contains `before`. */
  ghost predicate Advances(s: Store, before: CommitId, after: CommitId, pr: CommitId) {
    && after < |s| && pr < |s| && s[after].parents == [before, pr]
    && s[after].tree == s[pr].tree && IsAncestor(s, before, pr)
  }

  lemma AcceptedPushAdvances(o: Observation, virtual: VirtualBase)
    requires Accepts(o.objects, virtual, o.push, o.live, o.mode)
    ensures Advances(o.objects, o.push.before, o.push.after, MergedHead(o))
  {
    AcceptedHeadContainsPrior(o.objects, virtual, o.push, o.live, o.mode);
  }

  lemma AdvanceStable(s: Store, s': Store, before: CommitId, after: CommitId, pr: CommitId)
    requires s <= s' && Advances(s, before, after, pr)
    ensures Advances(s', before, after, pr)
  {
    assert s[after] == s'[after] && s[pr] == s'[pr];
    AncestryStable(s, s', before, pr);
  }

  /** `last` was reached from `c` by first-parent merges, `n` of them. */
  ghost predicate DescendsFrom(s: Store, last: CommitId, c: CommitId, n: nat) {
    last < |s| && FirstParent(s, last, n) == Some(c) && IsAncestor(s, c, last)
  }

  lemma DescentStep(s: Store, s': Store, before: CommitId, after: CommitId, pr: CommitId, c: CommitId, n: nat)
    requires s <= s' && DescendsFrom(s, before, c, n) && Advances(s', before, after, pr)
    ensures DescendsFrom(s', after, c, n + 1)
  {
    FirstParentStable(s, s', before, n);
    AncestryStable(s, s', c, before);
    assert IsAncestor(s', c, s'[after].parents[0]);
  }

  /** The part of a run that its history depends on. */
  ghost predicate IsAdvancing(run: seq<Observation>) {
    && (forall i :: 0 <= i < |run| ==>
       Advances(run[i].objects, run[i].push.before, run[i].push.after, MergedHead(run[i])))
    && (forall i, j :: 0 <= i < j < |run| ==> run[i].objects <= run[j].objects)
    && forall i, j :: 0 <= i < j < |run| && j == i + 1 ==> run[i].push.after == run[j].push.before
  }

  lemma AcceptedRunAdvances(run: seq<Observation>, virtual: VirtualBase)
    requires IsRun(run, virtual)
    ensures IsAdvancing(run)
  {
    forall i | 0 <= i < |run|
      ensures Advances(run[i].objects, run[i].push.before, run[i].push.after, MergedHead(run[i]))
    {
      AcceptedPushAdvances(run[i], virtual);
    }
  }

  lemma {:induction false} RunDescends(run: seq<Observation>, i: nat, n: nat)
    requires IsAdvancing(run) && i <= n < |run|
    ensures DescendsFrom(run[n].objects, run[n].push.after, run[i].push.after, n - i)
    decreases n
  {
    if i < n {
      RunDescends(run, i, n - 1);
      DescentStep(run[n - 1].objects, run[n].objects, run[n].push.before, run[n].push.after, MergedHead(run[n]),
          run[i].push.after, n - i - 1);
    }
  }

  /**
   * In the store of the last push, the first-parent history of its head passes through every earlier protected head
   * in order and contains every pull request head merged on the way; each protected tree is that of the head merged.
   */
  lemma RunKeepsHistory(run: seq<Observation>, virtual: VirtualBase, i: nat)
    requires IsRun(run, virtual) && i < |run|
    ensures
      var s, last := run[|run| - 1].objects, run[|run| - 1].push.after;
      && DescendsFrom(s, last, run[i].push.after, |run| - i - 1)
      && Advances(s, run[i].push.before, run[i].push.after, MergedHead(run[i]))
      && IsAncestor(s, MergedHead(run[i]), last)
  {
    var s, last := run[|run| - 1].objects, run[|run| - 1].push.after;
    AcceptedRunAdvances(run, virtual);
    RunDescends(run, i, |run| - 1);
    if i < |run| - 1 { assert run[i].objects <= s; }
    var before, after, pr := run[i].push.before, run[i].push.after, MergedHead(run[i]);
    AdvanceStable(run[i].objects, s, before, after, pr);
    assert IsAncestor(s, s[after].parents[1], after);
    AncestorTransitive(s, pr, after, last);
  }
}
