/** Independent GitHub reviews of the exact head: the latest review of every actor decides. */
module GithubReviews {
  import opened Wrappers
  import opened StringOrder
  import opened LineText

  const MARKER_SCHEMA := "hartevo-github-review/v1"

  /** The machine-readable block of a review body. */
  datatype Marker = Marker(schema: string, headSha: string, disposition: string, reviewerTaskId: string)

  datatype ReviewState = Approved | Commented | ChangesRequested | Other

  /** The id of a review: missing, an integer, or something else with its text. */
  datatype Id = Missing | Number(n: int) | Named(text: string)

  /** A review record of the API; other absent or ill-typed members are `None`. */
  datatype Record = Record(
    commit: Option<string>, login: Option<string>, id: Id, submittedAt: Option<string>,
    state: ReviewState, marker: Option<Marker>)

  /** The sort key of a review: time, then id, then position. */
  datatype Order = Order(submitted: string, id: int, index: int)

  predicate Before(a: Order, b: Order) {
    || Less(a.submitted, b.submitted)
    || (a.submitted == b.submitted && (a.id < b.id || (a.id == b.id && a.index < b.index)))
  }

  lemma BeforeTransitive(a: Order, b: Order, c: Order)
    requires Before(a, b) && Before(b, c)
    ensures Before(a, c)
  {
    if Less(a.submitted, b.submitted) && Less(b.submitted, c.submitted) {
      Transitive(a.submitted, b.submitted, c.submitted);
    }
  }

  lemma BeforeTotal(a: Order, b: Order)
    ensures a == b || Before(a, b) || Before(b, a)
    ensures !(Before(a, b) && Before(b, a))
  {
    Total(a.submitted, b.submitted);
    Irreflexive(a.submitted);
    if Less(a.submitted, b.submitted) {
      Asymmetric(a.submitted, b.submitted);
    }
  }

  predicate IsHead(r: Record, head: string) {
    r.commit == Some(head)
  }

  function Digit(d: int): char {
    if 0 <= d < 10 then "0123456789"[d] else '0'
  }

  function Decimal(n: int): string
    decreases n < 0, if n < 0 then -n else n
  {
    if n < 0 then "-" + Decimal(-n)
    else if n < 10 then [Digit(n)]
    else Decimal(n / 10) + [Digit(n % 10)]
  }

  predicate HasLogin(r: Record) {
    r.login.Some? && r.login.value != ""
  }

  /** Reviews without a login count as one actor each, named after their id or position. */
  function Actor(r: Record, index: int): string {
    if HasLogin(r) then r.login.value
    else "review-" + match r.id case Number(n) => Decimal(n) case Named(text) => text case Missing => Decimal(index)
  }

  function Submitted(r: Record): string {
    if r.submittedAt.Some? then r.submittedAt.value else ""
  }

  function OrderOf(r: Record, index: int): Order {
    Order(Submitted(r), if r.id.Number? then r.id.n else index, index)
  }

  /** Record `i` is about the head and by `actor`. */
  predicate Speaks(records: seq<Record>, head: string, actor: string, i: int) {
    0 <= i < |records| && IsHead(records[i], head) && Actor(records[i], i) == actor
  }

  /** Record `i` is the latest one of its actor about the head. */
  ghost predicate IsLatest(records: seq<Record>, head: string, actor: string, i: int) {
    && Speaks(records, head, actor, i)
    && forall j :: Speaks(records, head, actor, j) ==> j == i || Before(OrderOf(records[j], j), OrderOf(records[i], i))
  }

  /** Record `i` is the latest one of its actor about the head among the first `n`. */
  ghost predicate IsLatestOf(records: seq<Record>, head: string, n: nat, actor: string, i: int) {
    && i < n && Speaks(records, head, actor, i)
    && forall j :: j < n && Speaks(records, head, actor, j) ==>
       j == i || Before(OrderOf(records[j], j), OrderOf(records[i], i))
  }

  /** `latest` holds, among the first `n` records, the latest one of every actor about the head. */
  ghost predicate LatestSoFar(records: seq<Record>, head: string, n: nat, latest: map<string, int>) {
    && (forall a :: a in latest ==> IsLatestOf(records, head, n, a, latest[a]))
    && forall a, i :: i < n && Speaks(records, head, a, i) ==> a in latest
  }

  /** What record `n` makes of the latest reviews before it. */
  function WithRecord(records: seq<Record>, head: string, n: nat, latest: map<string, int>): map<string, int>
    requires n < |records| && forall a :: a in latest ==> 0 <= latest[a] < n
  {
    var actor := Actor(records[n], n);
    if IsHead(records[n], head)
       && (actor !in latest || Before(OrderOf(records[latest[actor]], latest[actor]), OrderOf(records[n], n)))
    then latest[actor := n] else latest
  }

  /** Record `n` has become the latest one of its actor. */
  lemma NewLatest(records: seq<Record>, head: string, n: nat, a: string, i: int)
    requires n < |records| && Speaks(records, head, a, n)
    requires IsLatestOf(records, head, n, a, i) && Before(OrderOf(records[i], i), OrderOf(records[n], n))
    ensures IsLatestOf(records, head, n + 1, a, n)
  {
    forall j | j < n + 1 && Speaks(records, head, a, j)
        ensures j == n || Before(OrderOf(records[j], j), OrderOf(records[n], n))
    {
      if j < n && j != i {
        BeforeTransitive(OrderOf(records[j], j), OrderOf(records[i], i), OrderOf(records[n], n));
      }
    }
  }

  /** Record `n` is by another actor or is not later, so that `i` stays the latest one. */
  lemma SameLatest(records: seq<Record>, head: string, n: nat, a: string, i: int)
    requires n < |records| && IsLatestOf(records, head, n, a, i)
    requires Speaks(records, head, a, n) ==> !Before(OrderOf(records[i], i), OrderOf(records[n], n))
    ensures IsLatestOf(records, head, n + 1, a, i)
  {
    if Speaks(records, head, a, n) {
      BeforeTotal(OrderOf(records[i], i), OrderOf(records[n], n));
    }
  }

  lemma LatestSnoc(records: seq<Record>, head: string, n: nat, latest: map<string, int>)
    requires n < |records| && LatestSoFar(records, head, n, latest)
    ensures LatestSoFar(records, head, n + 1, WithRecord(records, head, n, latest))
  {
    var after := WithRecord(records, head, n, latest);
    forall a | a in after ensures IsLatestOf(records, head, n + 1, a, after[a])
    {
      if a !in latest {
        assert forall j :: j < n + 1 && Speaks(records, head, a, j) ==> j == n;
      } else if after[a] == n {
        NewLatest(records, head, n, a, latest[a]);
      } else {
        SameLatest(records, head, n, a, latest[a]);
      }
    }
  }

  /** `a` reviews the head before `b` ever does. */
  ghost predicate AppearsBefore(records: seq<Record>, head: string, a: string, b: string) {
    exists i :: Speaks(records, head, a, i) && forall j :: Speaks(records, head, b, j) ==> i < j
  }

  /** The actors among the first `n` records, with the positions at which they first appear. */
  ghost predicate FirstsSoFar(records: seq<Record>, head: string, n: nat, actors: seq<string>, firsts: seq<int>) {
    && |firsts| == |actors| && (forall k, l :: 0 <= k < l < |firsts| ==> firsts[k] < firsts[l])
    && (forall k :: 0 <= k < |actors| ==> firsts[k] < n && Speaks(records, head, actors[k], firsts[k]))
    && forall k, j :: 0 <= k < |actors| && Speaks(records, head, actors[k], j) ==> firsts[k] <= j
  }

  lemma FirstsSnoc(records: seq<Record>, head: string, n: nat, actors: seq<string>, firsts: seq<int>, a: string)
    requires FirstsSoFar(records, head, n, actors, firsts) && Speaks(records, head, a, n)
    requires forall j :: Speaks(records, head, a, j) ==> n <= j
    ensures FirstsSoFar(records, head, n + 1, actors + [a], firsts + [n])
  {
  }

  lemma FirstsInOrder(records: seq<Record>, head: string, n: nat, actors: seq<string>, firsts: seq<int>, k: nat, l: nat)
    requires FirstsSoFar(records, head, n, actors, firsts) && k < l < |actors|
    ensures AppearsBefore(records, head, actors[k], actors[l])
  {
    assert Speaks(records, head, actors[k], firsts[k]);
  }

  /**
   * `latest` is the latest review of every actor about the head, and `actors` are these in the order of first
   * appearance.
   */
  ghost predicate IsFold(records: seq<Record>, head: string, latest: map<string, int>, actors: seq<string>) {
    && (forall a :: a in latest ==> IsLatest(records, head, a, latest[a]))
    && (forall a, i :: Speaks(records, head, a, i) ==> a in latest)
    && (forall a :: a in latest <==> a in actors)
    && forall k, l :: 0 <= k < l < |actors| ==> AppearsBefore(records, head, actors[k], actors[l])
  }

  lemma FoldIsDone(records: seq<Record>, head: string, latest: map<string, int>, actors: seq<string>, firsts: seq<int>)
    requires LatestSoFar(records, head, |records|, latest) && (forall a :: a in latest <==> a in actors)
    requires FirstsSoFar(records, head, |records|, actors, firsts)
    ensures IsFold(records, head, latest, actors)
  {
    forall k, l | 0 <= k < l < |actors| ensures AppearsBefore(records, head, actors[k], actors[l])
    {
      FirstsInOrder(records, head, |records|, actors, firsts, k, l);
    }
  }

  lemma NewActor(records: seq<Record>, head: string, n: nat, latest: map<string, int>, actors: seq<string>,
        firsts: seq<int>)
    requires n < |records| && IsHead(records[n], head) && Actor(records[n], n) !in latest
    requires LatestSoFar(records, head, n, latest) && FirstsSoFar(records, head, n, actors, firsts)
    ensures FirstsSoFar(records, head, n + 1, actors + [Actor(records[n], n)], firsts + [n])
  {
    assert Speaks(records, head, Actor(records[n], n), n);
    FirstsSnoc(records, head, n, actors, firsts, Actor(records[n], n));
  }

  lemma SameActors(records: seq<Record>, head: string, n: nat, actors: seq<string>, firsts: seq<int>)
    requires FirstsSoFar(records, head, n, actors, firsts)
    ensures FirstsSoFar(records, head, n + 1, actors, firsts)
  {
  }

  method LatestByActor(records: seq<Record>, head: string) returns (latest: map<string, int>, actors: seq<string>)
    ensures IsFold(records, head, latest, actors)
  {
    latest, actors := map[], [];
    ghost var firsts: seq<int> := [];
    for n := 0 to |records|
      invariant LatestSoFar(records, head, n, latest)
      invariant forall a :: a in latest <==> a in actors
      invariant FirstsSoFar(records, head, n, actors, firsts)
    {
      LatestSnoc(records, head, n, latest);
      SameActors(records, head, n, actors, firsts);
      var actor := Actor(records[n], n);
      if IsHead(records[n], head) {
        if actor !in latest {
          NewActor(records, head, n, latest, actors, firsts);
          latest, actors, firsts := latest[actor := n], actors + [actor], firsts + [n];
        } else if Before(OrderOf(records[latest[actor]], latest[actor]), OrderOf(records[n], n)) {
          latest := latest[actor := n];
        }
      }
    }
    FoldIsDone(records, head, latest, actors, firsts);
  }

  /** `validate_github_review_record`. */
  predicate IsIndependentApproval(r: Record, head: string, owner: string) {
    && (r.state.Approved? || r.state.Commented?) && IsHead(r, head)
    && r.marker.Some?
    && r.marker.value.schema == MARKER_SCHEMA && r.marker.value.headSha == head
       && r.marker.value.disposition == "APPROVE"
    && Strip(r.marker.value.reviewerTaskId) != "" && Strip(r.marker.value.reviewerTaskId) != Strip(owner)
  }

  /** Some actor's latest review of the head requests changes. */
  ghost predicate Vetoed(records: seq<Record>, head: string) {
    exists a, i :: IsLatest(records, head, a, i) && records[i].state.ChangesRequested?
  }

  /** Some actor's latest review of the head is an independent approval. */
  ghost predicate HasApproval(records: seq<Record>, head: string, owner: string) {
    exists a, i :: IsLatest(records, head, a, i) && IsIndependentApproval(records[i], head, owner)
  }

  /** `i` is the latest review of `a`, approves, and nobody who appeared before `a` approves. */
  ghost predicate IsFirstApproval(records: seq<Record>, head: string, owner: string, a: string, i: int) {
    && IsLatest(records, head, a, i) && IsIndependentApproval(records[i], head, owner)
    && forall b, j :: IsLatest(records, head, b, j) && IsIndependentApproval(records[j], head, owner) ==>
         b == a || AppearsBefore(records, head, a, b)
  }

  datatype Verdict = Accepted(index: int, reviewerTaskId: string) | ChangesAreRequested | AwaitingReview

  lemma FoldHasLatest(records: seq<Record>, head: string, latest: map<string, int>, actors: seq<string>, a: string,
        i: int)
    requires IsFold(records, head, latest, actors) && IsLatest(records, head, a, i)
    ensures a in latest && latest[a] == i
  {
    assert Speaks(records, head, a, i);
    LatestIsUnique(records, head, a, i, latest[a]);
  }

  /** The latest review of actor `k` is an independent approval. */
  predicate ApprovesAt(
      records: seq<Record>, head: string, owner: string, latest: map<string, int>, actors: seq<string>, k: nat)
    requires k < |actors|
  {
    actors[k] in latest && 0 <= latest[actors[k]] < |records|
        && IsIndependentApproval(records[latest[actors[k]]], head, owner)
  }

  lemma FoldAt(records: seq<Record>, head: string, latest: map<string, int>, actors: seq<string>, k: nat)
    requires IsFold(records, head, latest, actors) && k < |actors|
    ensures actors[k] in latest && IsLatest(records, head, actors[k], latest[actors[k]])
  {
    assert actors[k] in actors;
  }

  lemma FirstIsFound(records: seq<Record>, head: string, owner: string, latest: map<string, int>, actors: seq<string>,
        n: nat)
    requires IsFold(records, head, latest, actors) && n < |actors|
        && ApprovesAt(records, head, owner, latest, actors, n)
    requires forall k: nat :: k < n ==> !ApprovesAt(records, head, owner, latest, actors, k)
    ensures IsFirstApproval(records, head, owner, actors[n], latest[actors[n]])
  {
    FoldAt(records, head, latest, actors, n);
    forall b, j | IsLatest(records, head, b, j) && IsIndependentApproval(records[j], head, owner)
      ensures b == actors[n] || AppearsBefore(records, head, actors[n], b)
    {
      FoldHasLatest(records, head, latest, actors, b, j);
      var k: nat :| k < |actors| && actors[k] == b;
      assert ApprovesAt(records, head, owner, latest, actors, k);
    }
  }

  lemma NoneIsFound(records: seq<Record>, head: string, owner: string, latest: map<string, int>, actors: seq<string>)
    requires IsFold(records, head, latest, actors)
    requires forall k: nat :: k < |actors| ==> !ApprovesAt(records, head, owner, latest, actors, k)
    ensures !HasApproval(records, head, owner)
  {
    forall a, i | IsLatest(records, head, a, i) ensures !IsIndependentApproval(records[i], head, owner)
    {
      FoldHasLatest(records, head, latest, actors, a, i);
      var k: nat :| k < |actors| && actors[k] == a;
      assert !ApprovesAt(records, head, owner, latest, actors, k);
    }
  }

  method FirstApproving(records: seq<Record>, head: string, owner: string, latest: map<string, int>,
        actors: seq<string>)
    returns (n: nat)
    ensures n <= |actors| && (n < |actors| ==> ApprovesAt(records, head, owner, latest, actors, n))
    ensures forall k: nat :: k < n ==> !ApprovesAt(records, head, owner, latest, actors, k)
  {
    n := 0;
    while n < |actors| && !ApprovesAt(records, head, owner, latest, actors, n)
      invariant n <= |actors|
      invariant forall k: nat :: k < n ==> !ApprovesAt(records, head, owner, latest, actors, k)
    {
      n := n + 1;
    }
  }

  /** The first actor's latest review that is an independent approval. */
  method FirstApproval(records: seq<Record>, head: string, owner: string, latest: map<string, int>, actors: seq<string>)
    returns (r: Option<int>)
    requires IsFold(records, head, latest, actors)
    ensures r.Some? ==> exists a :: IsFirstApproval(records, head, owner, a, r.value)
    ensures r.None? ==> !HasApproval(records, head, owner)
  {
    var n := FirstApproving(records, head, owner, latest, actors);
    if n == |actors| {
      NoneIsFound(records, head, owner, latest, actors);
      return None;
    }
    FirstIsFound(records, head, owner, latest, actors, n);
    return Some(latest[actors[n]]);
  }

  lemma VetoedByFold(records: seq<Record>, head: string, latest: map<string, int>, actors: seq<string>)
    requires IsFold(records, head, latest, actors)
    ensures Vetoed(records, head) <==> exists a :: a in latest && records[latest[a]].state.ChangesRequested?
  {
    if Vetoed(records, head) {
      var a, i :| IsLatest(records, head, a, i) && records[i].state.ChangesRequested?;
      FoldHasLatest(records, head, latest, actors, a, i);
    }
    if a :| a in latest && records[latest[a]].state.ChangesRequested? {
      assert IsLatest(records, head, a, latest[a]);
    }
  }

  /** `validate_github_review_records`. */
  method ValidateReviews(records: seq<Record>, head: string, owner: string) returns (v: Verdict)
    ensures v.ChangesAreRequested? <==> Vetoed(records, head)
    ensures v.Accepted? <==> !Vetoed(records, head) && HasApproval(records, head, owner)
    ensures v.Accepted? ==>
              && (exists a :: IsFirstApproval(records, head, owner, a, v.index))
              && v.reviewerTaskId == Strip(records[v.index].marker.value.reviewerTaskId)
  {
    var latest, actors := LatestByActor(records, head);
    VetoedByFold(records, head, latest, actors);
    if exists a :: a in latest && records[latest[a]].state.ChangesRequested? {
      return ChangesAreRequested;
    }
    var first := FirstApproval(records, head, owner, latest, actors);
    if first.None? {
      return AwaitingReview;
    }
    ghost var a :| IsFirstApproval(records, head, owner, a, first.value);
    return Accepted(first.value, Strip(records[first.value].marker.value.reviewerTaskId));
  }

  lemma LatestIsUnique(records: seq<Record>, head: string, a: string, i: int, j: int)
    requires IsLatest(records, head, a, i) && IsLatest(records, head, a, j)
    ensures i == j
  {
    BeforeTotal(OrderOf(records[i], i), OrderOf(records[j], j));
  }

  /** Every review of the head carries a login and an id of its own. */
  ghost predicate Identified(records: seq<Record>, head: string) {
    && (forall i :: 0 <= i < |records| && IsHead(records[i], head) ==>
          HasLogin(records[i]) && records[i].id.Number?)
    && forall i, j :: 0 <= i < j < |records| && IsHead(records[i], head) && IsHead(records[j], head) ==>
       records[i].id != records[j].id
  }

  ghost predicate ListsHead(records: seq<Record>, head: string, r: Record) {
    IsHead(r, head) && r in records
  }

  /** The same reviews of the head, in any order and among any reviews of other commits. */
  ghost predicate SameHeadReviews(records: seq<Record>, others: seq<Record>, head: string) {
    forall r :: ListsHead(records, head, r) <==> ListsHead(others, head, r)
  }

  lemma OrderIgnoresPosition(r: Record, i: int, q: Record, j: int, i': int, j': int)
    requires r.id.Number? && q.id.Number? && r.id != q.id
    requires Before(OrderOf(r, i), OrderOf(q, j))
    ensures Before(OrderOf(r, i'), OrderOf(q, j'))
  {
  }

  lemma LatestTransfers(records: seq<Record>, others: seq<Record>, head: string, a: string, i: int) returns (j: int)
    requires Identified(records, head) && Identified(others, head) && SameHeadReviews(records, others, head)
    requires IsLatest(records, head, a, i)
    ensures IsLatest(others, head, a, j) && others[j] == records[i]
  {
    assert ListsHead(records, head, records[i]);
    assert ListsHead(others, head, records[i]);
    j :| 0 <= j < |others| && others[j] == records[i];
    forall k | Speaks(others, head, a, k) ensures k == j || Before(OrderOf(others[k], k), OrderOf(others[j], j))
    {
      assert ListsHead(others, head, others[k]);
      assert ListsHead(records, head, others[k]);
      var k' :| 0 <= k' < |records| && records[k'] == others[k];
      assert Speaks(records, head, a, k');
      if k' != i {
        assert records[k'].id != records[i].id;
        OrderIgnoresPosition(records[k'], k', records[i], i, k, j);
      }
    }
  }

  /**
   * The verdict depends only on which reviews of the head there are, not on their order or on reviews of other
   * commits.
   */
  lemma VerdictIgnoresOrderAndOtherCommits(records: seq<Record>, others: seq<Record>, head: string, owner: string)
    requires Identified(records, head) && Identified(others, head) && SameHeadReviews(records, others, head)
    ensures Vetoed(records, head) <==> Vetoed(others, head)
    ensures HasApproval(records, head, owner) <==> HasApproval(others, head, owner)
  {
    VerdictTransfers(records, others, head, owner);
    VerdictTransfers(others, records, head, owner);
  }

  lemma VerdictTransfers(records: seq<Record>, others: seq<Record>, head: string, owner: string)
    requires Identified(records, head) && Identified(others, head) && SameHeadReviews(records, others, head)
    ensures Vetoed(records, head) ==> Vetoed(others, head)
    ensures HasApproval(records, head, owner) ==> HasApproval(others, head, owner)
  {
    if Vetoed(records, head) {
      var a, i :| IsLatest(records, head, a, i) && records[i].state.ChangesRequested?;
      var j := LatestTransfers(records, others, head, a, i);
    }
    if HasApproval(records, head, owner) {
      var a, i :| IsLatest(records, head, a, i) && IsIndependentApproval(records[i], head, owner);
      var j := LatestTransfers(records, others, head, a, i);
    }
  }

  /** Without ids the position decides, and listing the same two reviews the other way round turns a veto into none. */
  lemma PositionDecidesWithoutIds(head: string)
    ensures
      var veto := Record(Some(head), Some("u"), Missing, None, ChangesRequested, None);
      var comment := Record(Some(head), Some("u"), Missing, None, Commented, None);
      SameHeadReviews([veto, comment], [comment, veto], head) && !Vetoed([veto, comment], head)
          && Vetoed([comment, veto], head)
  {
    var veto := Record(Some(head), Some("u"), Missing, None, ChangesRequested, None);
    var comment := Record(Some(head), Some("u"), Missing, None, Commented, None);
    Irreflexive("");
    assert Speaks([veto, comment], head, "u", 1) && Speaks([comment, veto], head, "u", 0);
    assert IsLatest([comment, veto], head, "u", 1);
  }
}
