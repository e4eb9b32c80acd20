/** An append-only git object store: a commit names only commits that already exist. */
module GitStore {
  import opened Wrappers
  import opened Trees

  /** `pullRequest` is the number that can be recovered from the merge message, if any. */
  datatype Commit = Commit(parents: seq<CommitId>, tree: Tree, pullRequest: Option<int>)

  predicate WellFormed(s: seq<Commit>) {
    forall c, i :: 0 <= c < |s| && 0 <= i < |s[c].parents| ==> s[c].parents[i] < c
  }

  type Store = s: seq<Commit> | WellFormed(s)

  /** `git merge-base --is-ancestor a c`. */
  predicate IsAncestor(s: Store, a: CommitId, c: CommitId)
    requires c < |s|
    decreases c
  {
    a == c || exists i :: 0 <= i < |s[c].parents| && IsAncestor(s, a, s[c].parents[i])
  }

  lemma {:induction false} AncestorBound(s: Store, a: CommitId, c: CommitId)
    requires c < |s| && IsAncestor(s, a, c)
    ensures a <= c
    decreases c
  {
    if a != c {
      var i :| 0 <= i < |s[c].parents| && IsAncestor(s, a, s[c].parents[i]);
      AncestorBound(s, a, s[c].parents[i]);
    }
  }

  lemma {:induction false} AncestorTransitive(s: Store, a: CommitId, b: CommitId, c: CommitId)
    requires b < |s| && c < |s| && IsAncestor(s, a, b) && IsAncestor(s, b, c)
    ensures IsAncestor(s, a, c)
    decreases c
  {
    if b != c {
      var i :| 0 <= i < |s[c].parents| && IsAncestor(s, b, s[c].parents[i]);
      AncestorTransitive(s, a, b, s[c].parents[i]);
    }
  }

  /** Appending commits changes nothing about the ancestry of the commits already there. */
  lemma {:induction false} AncestryStable(s: Store, s': Store, a: CommitId, c: CommitId)
    requires s <= s' && c < |s|
    ensures IsAncestor(s, a, c) <==> IsAncestor(s', a, c)
    decreases c
  {
    assert s[c] == s'[c];
    forall i | 0 <= i < |s[c].parents|
      ensures IsAncestor(s, a, s[c].parents[i]) <==> IsAncestor(s', a, s[c].parents[i])
    {
      AncestryStable(s, s', a, s[c].parents[i]);
    }
  }

  predicate IsCommonAncestor(s: Store, m: CommitId, a: CommitId, b: CommitId)
    requires a < |s| && b < |s|
  {
    IsAncestor(s, m, a) && IsAncestor(s, m, b)
  }

  /** A common ancestor that is not an ancestor of another one. */
  predicate IsMergeBase(s: Store, m: CommitId, a: CommitId, b: CommitId)
    requires a < |s| && b < |s|
  {
    && IsCommonAncestor(s, m, a, b)
    && forall k :: 0 <= k < |s| && IsCommonAncestor(s, k, a, b) && IsAncestor(s, m, k) ==> k == m
  }

  /** `git merge-base --all a b`. */
  function MergeBases(s: Store, a: CommitId, b: CommitId): (r: set<CommitId>)
    requires a < |s| && b < |s|
  {
    set m: CommitId | 0 <= m < |s| && IsMergeBase(s, m, a, b)
  }

  /** The tree git builds from several merge bases; it is fixed by the set of those commits. */
  type VirtualBase = set<CommitId> -> Tree

  /** The tree used as the merge base; unrelated histories have none. */
  function MergeBaseTree(s: Store, virtual: VirtualBase, bases: set<CommitId>): (r: Tree)
    requires forall m :: m in bases ==> m < |s|
    requires bases != {}
    ensures forall m :: bases == {m} ==> r == s[m].tree
  {
    if exists m :: m in bases && bases == {m} then
      var m :| m in bases && bases == {m};
      s[m].tree
    else
      virtual(bases)
  }

  /** `git merge-tree --write-tree ours theirs`; unrelated histories are refused like a conflict. */
  function MergeCommits(s: Store, virtual: VirtualBase, ours: CommitId, theirs: CommitId): (r: MergeResult)
    requires ours < |s| && theirs < |s|
  {
    var bases := MergeBases(s, ours, theirs);
    if bases == {} then
      Conflicted
    else
      MergeTrees(MergeBaseTree(s, virtual, bases), s[ours].tree, s[theirs].tree)
  }

  function Append(s: Store, c: Commit): (r: Store)
    requires forall i :: 0 <= i < |c.parents| ==> c.parents[i] < |s|
    ensures r == s + [c] && s <= r
  {
    s + [c]
  }
}
