/** When the listing order of reviews cannot matter. */
module ReviewStability {
  import opened Wrappers
  import opened Sequences
  import opened StringOrder
  import opened GithubReviews

  /** The reviews of the head, in the order of the listing. */
  function HeadReviews(records: seq<Record>, head: string): seq<Record> {
    if records == [] then []
    else
      var front, last := records[..|records| - 1], records[|records| - 1];
      HeadReviews(front, head) + if IsHead(last, head) then [last] else []
  }

  /** The same reviews of the head in any order, among any reviews of other commits. */
  ghost predicate Rearranged(records: seq<Record>, others: seq<Record>, head: string) {
    multiset(HeadReviews(records, head)) == multiset(HeadReviews(others, head))
  }

  /** The record names its actor by itself. */
  predicate NamesActor(r: Record) {
    HasLogin(r) || !r.id.Missing?
  }

  ghost predicate AllNamed(records: seq<Record>, head: string) {
    forall r :: r in HeadReviews(records, head) ==> NamesActor(r)
  }

  /** `r` is a review of the head by `actor`. */
  ghost predicate Says(records: seq<Record>, head: string, actor: string, r: Record) {
    r in HeadReviews(records, head) && Actor(r, 0) == actor
  }

  /**
   * `r`, which is listed `copies` times, comes after `m` wherever the two are listed: it is later, or at the same time
   * the integer ids decide. A review without an integer id counts as its position, and of `copies` of them one stands
   * at position `copies - 1` at least.
   */
  predicate Outranks(r: Record, copies: nat, m: Record) {
    || Less(Submitted(m), Submitted(r))
    || (Submitted(m) == Submitted(r) && m.id.Number? && if r.id.Number? then m.id.n < r.id.n else m.id.n + 1 < copies)
  }

  /** `r` outranks every other review of its actor. */
  ghost predicate IsTop(records: seq<Record>, head: string, actor: string, r: Record) {
    && Says(records, head, actor, r)
    && forall m :: Says(records, head, actor, m) ==> m == r || Outranks(r, multiset(HeadReviews(records, head))[r], m)
  }

  /** In every rearrangement the latest review of the actor is `r`. */
  ghost predicate IsLatestAnyway(records: seq<Record>, head: string, actor: string, r: Record) {
    forall others :: Rearranged(records, others, head) ==> LatestIs(others, head, actor, r)
  }

  ghost predicate LatestIs(records: seq<Record>, head: string, actor: string, r: Record) {
    exists i :: IsLatest(records, head, actor, i) && records[i] == r
  }

  lemma {:induction false} HeadReviewAt(records: seq<Record>, head: string, r: Record) returns (i: int)
    requires r in HeadReviews(records, head)
    ensures 0 <= i < |records| && records[i] == r && IsHead(r, head)
    decreases |records|
  {
    var n := |records| - 1;
    if IsHead(records[n], head) && records[n] == r {
      i := n;
    } else {
      i := HeadReviewAt(records[..n], head, r);
    }
  }

  lemma {:induction false} ListedIsHeadReview(records: seq<Record>, head: string, i: nat)
    requires i < |records| && IsHead(records[i], head)
    ensures records[i] in HeadReviews(records, head)
    decreases |records|
  {
    var n := |records| - 1;
    if i < n {
      ListedIsHeadReview(records[..n], head, i);
    }
  }

  /** The `copies`-th copy of a review stands at position `copies - 1` or later. */
  lemma {:induction false} LastCopy(records: seq<Record>, head: string, r: Record) returns (i: int)
    requires r in HeadReviews(records, head)
    ensures 0 <= i < |records| && records[i] == r && IsHead(r, head)
    ensures forall j :: i < j < |records| ==> records[j] != r
    ensures multiset(HeadReviews(records, head))[r] <= i + 1
    decreases |records|
  {
    var n := |records| - 1;
    var at := HeadReviewAt(records, head, r);
    if records[n] == r {
      i := n;
      CountAtMost(records, head, r);
    } else {
      SkipLast(records, head, r);
      i := LastCopy(records[..n], head, r);
    }
  }

  lemma SkipLast(records: seq<Record>, head: string, r: Record)
    requires records != [] && records[|records| - 1] != r
    ensures multiset(HeadReviews(records, head))[r] == multiset(HeadReviews(records[..|records| - 1], head))[r]
  {
  }

  lemma {:induction false} CountAtMost(records: seq<Record>, head: string, r: Record)
    ensures multiset(HeadReviews(records, head))[r] <= |records|
    decreases |records|
  {
    if records != [] {
      CountAtMost(records[..|records| - 1], head, r);
    }
  }

  /** A review that outranks another one comes after it in every listing. */
  lemma OutranksComesLater(r: Record, copies: nat, i: int, m: Record, j: int)
    requires Outranks(r, copies, m) && copies <= i + 1
    ensures Before(OrderOf(m, j), OrderOf(r, i))
  {
  }

  lemma SpeaksSays(records: seq<Record>, others: seq<Record>, head: string, actor: string, j: int)
    requires AllNamed(records, head) && Rearranged(records, others, head) && Speaks(others, head, actor, j)
    ensures Says(records, head, actor, others[j])
  {
    ListedIsHeadReview(others, head, j);
    assert others[j] in multiset(HeadReviews(records, head));
    assert NamesActor(others[j]);
  }

  /** A top review is the latest one in every rearrangement. */
  lemma TopIsLatest(records: seq<Record>, others: seq<Record>, head: string, actor: string, r: Record)
    requires AllNamed(records, head) && Rearranged(records, others, head) && IsTop(records, head, actor, r)
    ensures LatestIs(others, head, actor, r)
  {
    assert r in multiset(HeadReviews(others, head));
    var i := LastCopy(others, head, r);
    assert Speaks(others, head, actor, i);
    forall j | Speaks(others, head, actor, j) ensures j == i || Before(OrderOf(others[j], j), OrderOf(others[i], i))
    {
      var m := others[j];
      SpeaksSays(records, others, head, actor, j);
      if m != r {
        OutranksComesLater(r, multiset(HeadReviews(records, head))[r], i, m, j);
      }
    }
  }

  lemma {:induction false} HeadReviewsConcat(a: seq<Record>, b: seq<Record>, head: string)
    ensures HeadReviews(a + b, head) == HeadReviews(a, head) + HeadReviews(b, head)
    decreases |b|
  {
    if b == [] {
      assert a + b == a;
    } else {
      var n := |b| - 1;
      HeadReviewsConcat(a, b[..n], head);
      assert (a + b)[..|a| + n] == a + b[..n] && (a + b)[|a| + n] == b[n];
    }
  }

  lemma {:induction false} AllHead(records: seq<Record>, head: string)
    requires forall r :: r in records ==> IsHead(r, head)
    ensures HeadReviews(records, head) == records
    decreases |records|
  {
    if records != [] {
      var n := |records| - 1;
      assert records == records[..n] + [records[n]];
      AllHead(records[..n], head);
    }
  }

  lemma {:induction false} NoneHead(records: seq<Record>, head: string)
    requires forall r :: r in records ==> !IsHead(r, head)
    ensures HeadReviews(records, head) == []
    decreases |records|
  {
    if records != [] {
      NoneHead(records[..|records| - 1], head);
    }
  }

  /** A review of no commit, to fill up a listing with. */
  const BLANK := Record(None, None, Missing, None, Other, None)

  /** All copies of `r`, then the other reviews but one `m`, then filling, then `m`. */
  function LateListing(reviews: seq<Record>, r: Record, k: nat, filling: nat): seq<Record>
    requires k < |Without(reviews, r)|
  {
    var rest := Without(reviews, r);
    Repeat(r, multiset(reviews)[r]) + (rest[..k] + rest[k + 1..]) + Repeat(BLANK, filling) + [rest[k]]
  }

  lemma LateListingRearranges(records: seq<Record>, head: string, r: Record, k: nat, filling: nat)
    requires r in HeadReviews(records, head) && k < |Without(HeadReviews(records, head), r)|
    ensures Rearranged(records, LateListing(HeadReviews(records, head), r, k, filling), head)
  {
    var reviews := HeadReviews(records, head);
    var rest := Without(reviews, r);
    var a, b, c, d := Repeat(r, multiset(reviews)[r]), rest[..k] + rest[k + 1..], Repeat(BLANK, filling), [rest[k]];
    forall q | q in a || q in b || q in d ensures IsHead(q, head)
    {
      WithoutIs(reviews, r, q);
      var i := HeadReviewAt(records, head, q);
    }
    HeadParts(a, b, c, d, head);
    CopiesAndRest(reviews, r);
    MovedToEnd(rest, k);
  }

  lemma HeadParts(a: seq<Record>, b: seq<Record>, c: seq<Record>, d: seq<Record>, head: string)
    requires forall q :: q in a || q in b || q in d ==> IsHead(q, head)
    requires forall q :: q in c ==> !IsHead(q, head)
    ensures multiset(HeadReviews(a + b + c + d, head)) == multiset(a) + multiset(b) + multiset(d)
  {
    AllHead(a, head);
    AllHead(b, head);
    NoneHead(c, head);
    AllHead(d, head);
    HeadReviewsConcat(a + b + c, d, head);
    HeadReviewsConcat(a + b, c, head);
    HeadReviewsConcat(a, b, head);
  }

  /** How much filling lets `m` come after `r`, if anything does. */
  function Filling(r: Record): nat {
    if r.id.Number? && r.id.n >= 0 then r.id.n + 1 else 0
  }

  /** Unless `r` outranks `m`, a copy of `r` among the first `copies` places comes before a late `m`. */
  lemma LateComesAfter(r: Record, copies: nat, i: int, m: Record, j: int)
    requires m != r && !Outranks(r, copies, m) && 0 <= i < copies <= j && Filling(r) <= j
    ensures Before(OrderOf(r, i), OrderOf(m, j))
  {
    Total(Submitted(r), Submitted(m));
  }

  lemma CopiesComeFirst(reviews: seq<Record>, r: Record, k: nat, filling: nat, i: nat)
    requires k < |Without(reviews, r)|
    requires i < |LateListing(reviews, r, k, filling)| && LateListing(reviews, r, k, filling)[i] == r && r != BLANK
    ensures i < multiset(reviews)[r]
  {
    var rest := Without(reviews, r);
    WithoutIs(reviews, r, r);
    assert rest[k] in rest && forall y :: y in rest[..k] + rest[k + 1..] ==> y in rest;
    OnlyInFirst(Repeat(r, multiset(reviews)[r]), rest[..k] + rest[k + 1..], Repeat(BLANK, filling), rest[k], r, i);
  }

  /** A review that is the latest one in every rearrangement is a top review. */
  lemma LatestAnywayIsTop(records: seq<Record>, head: string, actor: string, r: Record)
    requires AllNamed(records, head) && IsLatestAnyway(records, head, actor, r)
    ensures IsTop(records, head, actor, r)
  {
    var reviews := HeadReviews(records, head);
    assert LatestIs(records, head, actor, r);
    var at :| IsLatest(records, head, actor, at) && records[at] == r;
    ListedIsHeadReview(records, head, at);
    assert NamesActor(r);
    forall m | Says(records, head, actor, m) ensures m == r || Outranks(r, multiset(reviews)[r], m)
    {
      if m != r && !Outranks(r, multiset(reviews)[r], m) {
        WithoutIs(reviews, r, m);
        var k :| 0 <= k < |Without(reviews, r)| && Without(reviews, r)[k] == m;
        LateListingDiffers(records, head, actor, r, m, k);
      }
    }
  }

  lemma LateListingDiffers(records: seq<Record>, head: string, actor: string, r: Record, m: Record, k: nat)
    requires AllNamed(records, head) && Says(records, head, actor, r) && Says(records, head, actor, m)
    requires m != r && !Outranks(r, multiset(HeadReviews(records, head))[r], m)
    requires k < |Without(HeadReviews(records, head), r)| && Without(HeadReviews(records, head), r)[k] == m
    ensures !IsLatestAnyway(records, head, actor, r)
  {
    var reviews := HeadReviews(records, head);
    var others := LateListing(reviews, r, k, Filling(r));
    LateListingRearranges(records, head, r, k, Filling(r));
    var at := HeadReviewAt(records, head, r);
    var last := |others| - 1;
    var listed := HeadReviewAt(records, head, m);
    assert others[last] == m && Speaks(others, head, actor, last);
    forall i | 0 <= i < |others| && others[i] == r ensures !IsLatest(others, head, actor, i)
    {
      CopiesComeFirst(reviews, r, k, Filling(r), i);
      LateComesAfter(r, multiset(reviews)[r], i, m, last);
      BeforeTotal(OrderOf(r, i), OrderOf(m, last));
    }
    assert !LatestIs(others, head, actor, r);
  }

  /**
   * The latest review of an actor is `r` however the reviews are listed, and among whatever reviews of other commits,
   * exactly when `r` outranks every other review of that actor.
   */
  lemma LatestAnywayIffTop(records: seq<Record>, head: string, actor: string, r: Record)
    requires AllNamed(records, head)
    ensures IsLatestAnyway(records, head, actor, r) <==> IsTop(records, head, actor, r)
  {
    if IsTop(records, head, actor, r) {
      forall others | Rearranged(records, others, head) ensures LatestIs(others, head, actor, r)
      {
        TopIsLatest(records, others, head, actor, r);
      }
    }
    if IsLatestAnyway(records, head, actor, r) {
      LatestAnywayIsTop(records, head, actor, r);
    }
  }

  /** Every actor who reviewed the head has a top review. */
  ghost predicate AllDecided(records: seq<Record>, head: string) {
    forall a, m :: Says(records, head, a, m) ==> exists r :: IsTop(records, head, a, r)
  }

  lemma SameLatestReview(records: seq<Record>, xs: seq<Record>, ys: seq<Record>, head: string, a: string, i: int)
        returns (j: int)
    requires AllNamed(records, head) && AllDecided(records, head)
    requires Rearranged(records, xs, head) && Rearranged(records, ys, head) && IsLatest(xs, head, a, i)
    ensures IsLatest(ys, head, a, j) && ys[j] == xs[i]
  {
    SpeaksSays(records, xs, head, a, i);
    var r :| IsTop(records, head, a, r);
    TopIsLatest(records, xs, head, a, r);
    TopIsLatest(records, ys, head, a, r);
    var i' :| IsLatest(xs, head, a, i') && xs[i'] == r;
    LatestIsUnique(xs, head, a, i, i');
    j :| IsLatest(ys, head, a, j) && ys[j] == r;
  }

  /** Then the verdict is the same however the reviews are listed, and among whatever reviews of other commits. */
  lemma DecidedVerdict(records: seq<Record>, others: seq<Record>, head: string, owner: string)
    requires AllNamed(records, head) && AllDecided(records, head) && Rearranged(records, others, head)
    ensures Vetoed(records, head) <==> Vetoed(others, head)
    ensures HasApproval(records, head, owner) <==> HasApproval(others, head, owner)
  {
    VerdictCarries(records, records, others, head, owner);
    VerdictCarries(records, others, records, head, owner);
  }

  lemma VerdictCarries(records: seq<Record>, xs: seq<Record>, ys: seq<Record>, head: string, owner: string)
    requires AllNamed(records, head) && AllDecided(records, head)
    requires Rearranged(records, xs, head) && Rearranged(records, ys, head)
    ensures Vetoed(xs, head) ==> Vetoed(ys, head)
    ensures HasApproval(xs, head, owner) ==> HasApproval(ys, head, owner)
  {
    if Vetoed(xs, head) {
      var a, i :| IsLatest(xs, head, a, i) && xs[i].state.ChangesRequested?;
      var j := SameLatestReview(records, xs, ys, head, a, i);
    }
    if HasApproval(xs, head, owner) {
      var a, i :| IsLatest(xs, head, a, i) && IsIndependentApproval(xs[i], head, owner);
      var j := SameLatestReview(records, xs, ys, head, a, i);
    }
  }
}
