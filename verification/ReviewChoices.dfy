/** Which verdicts the listing order of reviews can bring about. */
module ReviewChoices {
  import opened Wrappers
  import opened Sequences
  import opened StringOrder
  import opened GithubReviews
  import opened ReviewStability

  /** The reviews of `actor` at one time that count as their position, having no integer id. */
  function TakesPlace(actor: string, submitted: string): Record -> bool {
    r => Actor(r, 0) == actor && Submitted(r) == submitted && !r.id.Number?
  }

  /** How many such reviews of the head there are at the time of `r`. */
  function Places(records: seq<Record>, head: string, actor: string, r: Record): nat {
    |Select(HeadReviews(records, head), TakesPlace(actor, Submitted(r)))|
  }

  /** `m` does not come after `r` everywhere: it is not later, and at the same time its integer id is not greater. */
  predicate MayPrecede(m: Record, r: Record) {
    && !Less(Submitted(r), Submitted(m))
    && (Submitted(m) == Submitted(r) && m.id.Number? && r.id.Number? ==> m.id.n <= r.id.n)
  }

  /**
   * Every review of the actor may precede `r`, and if `r` has an integer id, the reviews that count as their position
   * fit into the positions up to it.
   */
  ghost predicate CanBeLatest(records: seq<Record>, head: string, actor: string, r: Record) {
    && Says(records, head, actor, r)
    && (forall m :: Says(records, head, actor, m) ==> MayPrecede(m, r))
    && (r.id.Number? ==> Places(records, head, actor, r) == 0 || Places(records, head, actor, r) <= r.id.n + 1)
  }

  /** In some rearrangement the latest review of the actor is `r`. */
  ghost predicate IsLatestSomewhere(records: seq<Record>, head: string, actor: string, r: Record) {
    exists others :: Rearranged(records, others, head) && LatestIs(others, head, actor, r)
  }

  lemma {:induction false} HeadReviewsFit(records: seq<Record>, head: string)
    ensures |HeadReviews(records, head)| <= |records|
    decreases |records|
  {
    if records != [] {
      HeadReviewsFit(records[..|records| - 1], head);
    }
  }

  /** Reviews that all stand at position `k` or before number at most `k + 1`. */
  lemma {:induction false} PlacesFit(records: seq<Record>, head: string, p: Record -> bool, k: int)
    requires forall j :: 0 <= j < |records| && IsHead(records[j], head) && p(records[j]) ==> j <= k
    ensures |Select(HeadReviews(records, head), p)| == 0 || |Select(HeadReviews(records, head), p)| <= k + 1
    decreases |records|
  {
    if records != [] {
      var n := |records| - 1;
      if IsHead(records[n], head) && p(records[n]) {
        HeadReviewsFit(records, head);
        SelectIs(HeadReviews(records, head), p, records[n]);
      } else {
        var reviews := HeadReviews(records[..n], head);
        PlacesFit(records[..n], head, p, k);
        if IsHead(records[n], head) {
          assert HeadReviews(records, head) == reviews + [records[n]];
          assert (reviews + [records[n]])[..|reviews|] == reviews;
        } else {
          assert HeadReviews(records, head) == reviews;
        }
      }
    }
  }

  lemma LaterMayFollow(m: Record, j: int, r: Record, i: int)
    requires Before(OrderOf(m, j), OrderOf(r, i))
    ensures MayPrecede(m, r)
  {
    Irreflexive(Submitted(r));
    if Less(Submitted(m), Submitted(r)) {
      Asymmetric(Submitted(m), Submitted(r));
    }
  }

  lemma SaysSpeaks(records: seq<Record>, others: seq<Record>, head: string, actor: string, m: Record) returns (j: int)
    requires AllNamed(records, head) && Rearranged(records, others, head) && Says(records, head, actor, m)
    ensures Speaks(others, head, actor, j) && others[j] == m
  {
    assert m in multiset(HeadReviews(others, head));
    j := HeadReviewAt(others, head, m);
    assert NamesActor(m);
  }

  lemma PlaceTakersPrecede(records: seq<Record>, others: seq<Record>, head: string, actor: string, i: int)
    requires AllNamed(records, head) && Rearranged(records, others, head) && IsLatest(others, head, actor, i)
    requires others[i].id.Number?
    ensures Places(others, head, actor, others[i]) == 0 || Places(others, head, actor, others[i]) <= others[i].id.n + 1
  {
    var p := TakesPlace(actor, Submitted(others[i]));
    forall j | 0 <= j < |others| && IsHead(others[j], head) && p(others[j]) ensures j <= others[i].id.n
    {
      ListedIsHeadReview(others, head, j);
      assert others[j] in multiset(HeadReviews(records, head));
      assert NamesActor(others[j]) && Speaks(others, head, actor, j);
      Irreflexive(Submitted(others[i]));
    }
    PlacesFit(others, head, p, others[i].id.n);
  }

  lemma LatestCanBeLatest(records: seq<Record>, others: seq<Record>, head: string, actor: string, i: int)
    requires AllNamed(records, head) && Rearranged(records, others, head) && IsLatest(others, head, actor, i)
    ensures CanBeLatest(records, head, actor, others[i])
  {
    var r := others[i];
    SpeaksSays(records, others, head, actor, i);
    forall m | Says(records, head, actor, m) ensures MayPrecede(m, r)
    {
      var j := SaysSpeaks(records, others, head, actor, m);
      if j == i {
        Irreflexive(Submitted(r));
      } else {
        LaterMayFollow(m, j, r, i);
      }
    }
    if r.id.Number? {
      PlaceTakersPrecede(records, others, head, actor, i);
      SelectPermuted(HeadReviews(records, head), HeadReviews(others, head), TakesPlace(actor, Submitted(r)));
    }
  }

  /** A number above every integer id. */
  function AboveIds(reviews: seq<Record>): (n: nat)
    ensures forall m :: m in reviews && m.id.Number? ==> m.id.n < n
  {
    if reviews == [] then 0
    else
      var k, m := |reviews| - 1, reviews[|reviews| - 1];
      var below := AboveIds(reviews[..k]);
      assert forall q :: q in reviews ==> q == m || q in reviews[..k];
      if m.id.Number? && m.id.n >= below then m.id.n + 1 else below
  }

  /** The reviews that count as their position come first, then the others, then filling, then review `k`. */
  function ChosenListing(reviews: seq<Record>, k: nat, p: Record -> bool): seq<Record>
    requires k < |reviews|
  {
    var rest := reviews[..k] + reviews[k + 1..];
    Select(rest, p) + Select(rest, Not(p)) + Repeat(BLANK, AboveIds(reviews)) + [reviews[k]]
  }

  lemma ChosenListingRearranges(records: seq<Record>, head: string, k: nat, p: Record -> bool)
    requires k < |HeadReviews(records, head)|
    ensures Rearranged(records, ChosenListing(HeadReviews(records, head), k, p), head)
  {
    var reviews := HeadReviews(records, head);
    var rest := reviews[..k] + reviews[k + 1..];
    var a, b, c, d := Select(rest, p), Select(rest, Not(p)), Repeat(BLANK, AboveIds(reviews)), [reviews[k]];
    forall q | q in a || q in b || q in d ensures IsHead(q, head)
    {
      if q in a {
        Selected(rest, p, q);
      } else if q in b {
        Selected(rest, Not(p), q);
      }
      assert q in reviews;
      var i := HeadReviewAt(records, head, q);
    }
    HeadParts(a, b, c, d, head);
    SelectSplits(rest, p);
    MovedToEnd(reviews, k);
  }

  /** `m` comes before the last review `r` of a chosen listing. */
  lemma ChosenComesAfter(m: Record, j: nat, r: Record, last: nat, places: nat, above: nat)
    requires MayPrecede(m, r) && j < last && above <= last
    requires m.id.Number? ==> m.id.n < above
    requires Submitted(m) == Submitted(r) && !m.id.Number? ==> j < places
    requires r.id.Number? ==> places == 0 || places <= r.id.n + 1
    ensures Before(OrderOf(m, j), OrderOf(r, last))
  {
    Total(Submitted(m), Submitted(r));
  }

  /** Where the reviews of a chosen listing stand. */
  lemma ChosenListingAt(reviews: seq<Record>, k: nat, p: Record -> bool, head: string, j: nat)
    requires k < |reviews| && j + 1 < |ChosenListing(reviews, k, p)| && IsHead(ChosenListing(reviews, k, p)[j], head)
    ensures
      var m := ChosenListing(reviews, k, p)[j];
      m in reviews && (p(m) ==> j < |Select(reviews[..k] + reviews[k + 1..], p)|)
  {
    var rest := reviews[..k] + reviews[k + 1..];
    var a, b, c := Select(rest, p), Select(rest, Not(p)), Repeat(BLANK, AboveIds(reviews));
    var all := a + b + c + [reviews[k]];
    assert all == ChosenListing(reviews, k, p);
    if j < |a| {
      assert all[j] == a[j];
      Selected(rest, p, a[j]);
    } else if j < |a| + |b| {
      assert all[j] == b[j - |a|];
      Selected(rest, Not(p), b[j - |a|]);
    }
  }

  lemma CanBeLatestIsLatest(records: seq<Record>, head: string, actor: string, r: Record)
    requires AllNamed(records, head) && CanBeLatest(records, head, actor, r)
    ensures IsLatestSomewhere(records, head, actor, r)
  {
    var reviews, p := HeadReviews(records, head), TakesPlace(actor, Submitted(r));
    var k :| 0 <= k < |reviews| && reviews[k] == r;
    var others := ChosenListing(reviews, k, p);
    var last := |others| - 1;
    ChosenListingRearranges(records, head, k, p);
    var listed := HeadReviewAt(records, head, r);
    assert NamesActor(r) && others[last] == r && Speaks(others, head, actor, last);
    forall j | Speaks(others, head, actor, j) ensures j == last || Before(OrderOf(others[j], j), OrderOf(r, last))
    {
      if j != last {
        ChosenListingPrecedes(records, head, actor, r, k, j);
      }
    }
    assert IsLatest(others, head, actor, last);
  }

  lemma ChosenListingPrecedes(records: seq<Record>, head: string, actor: string, r: Record, k: nat, j: nat)
    requires AllNamed(records, head) && CanBeLatest(records, head, actor, r)
    requires k < |HeadReviews(records, head)| && HeadReviews(records, head)[k] == r
    requires
      var others := ChosenListing(HeadReviews(records, head), k, TakesPlace(actor, Submitted(r)));
      j + 1 < |others| && Speaks(others, head, actor, j)
    ensures
      var others := ChosenListing(HeadReviews(records, head), k, TakesPlace(actor, Submitted(r)));
      Before(OrderOf(others[j], j), OrderOf(r, |others| - 1))
  {
    var reviews, p := HeadReviews(records, head), TakesPlace(actor, Submitted(r));
    var others, rest := ChosenListing(reviews, k, p), reviews[..k] + reviews[k + 1..];
    var m := others[j];
    ChosenListingRearranges(records, head, k, p);
    SpeaksSays(records, others, head, actor, j);
    ChosenListingAt(reviews, k, p, head, j);
    if r.id.Number? {
      SelectSkips(reviews, k, p);
    }
    ChosenComesAfter(m, j, r, |others| - 1, |Select(rest, p)|, AboveIds(reviews));
  }

  /** The latest review of an actor is `r` in some listing exactly when nothing rules it out. */
  lemma LatestSomewhereIff(records: seq<Record>, head: string, actor: string, r: Record)
    requires AllNamed(records, head)
    ensures IsLatestSomewhere(records, head, actor, r) <==> CanBeLatest(records, head, actor, r)
  {
    if IsLatestSomewhere(records, head, actor, r) {
      var others :| Rearranged(records, others, head) && LatestIs(others, head, actor, r);
      var i :| IsLatest(others, head, actor, i) && others[i] == r;
      LatestCanBeLatest(records, others, head, actor, i);
    }
    if CanBeLatest(records, head, actor, r) {
      CanBeLatestIsLatest(records, head, actor, r);
    }
  }

  /**
   * No listing of the reviews is vetoed exactly when no review that can be the latest of its actor requests changes.
   */
  lemma NeverVetoedIff(records: seq<Record>, head: string)
    requires AllNamed(records, head)
    ensures (forall others :: Rearranged(records, others, head) ==> !Vetoed(others, head)) <==>
            (forall a, r :: CanBeLatest(records, head, a, r) ==> !r.state.ChangesRequested?)
  {
    forall others: seq<Record> | Rearranged(records, others, head) && Vetoed(others, head)
      ensures exists a, r :: CanBeLatest(records, head, a, r) && r.state.ChangesRequested?
    {
      var a, i :| IsLatest(others, head, a, i) && others[i].state.ChangesRequested?;
      LatestCanBeLatest(records, others, head, a, i);
    }
    forall a, r | CanBeLatest(records, head, a, r) && r.state.ChangesRequested?
      ensures exists others :: Rearranged(records, others, head) && Vetoed(others, head)
    {
      CanBeLatestIsLatest(records, head, a, r);
      var others :| Rearranged(records, others, head) && LatestIs(others, head, a, r);
      assert Vetoed(others, head);
    }
  }

  /** Some listing has an independent approval exactly when some review that can be the latest of its actor is one. */
  lemma SometimesApprovedIff(records: seq<Record>, head: string, owner: string)
    requires AllNamed(records, head)
    ensures (exists others :: Rearranged(records, others, head) && HasApproval(others, head, owner)) <==>
            (exists a, r :: CanBeLatest(records, head, a, r) && IsIndependentApproval(r, head, owner))
  {
    forall others: seq<Record> | Rearranged(records, others, head) && HasApproval(others, head, owner)
      ensures exists a, r :: CanBeLatest(records, head, a, r) && IsIndependentApproval(r, head, owner)
    {
      var a, i :| IsLatest(others, head, a, i) && IsIndependentApproval(others[i], head, owner);
      LatestCanBeLatest(records, others, head, a, i);
    }
    forall a, r | CanBeLatest(records, head, a, r) && IsIndependentApproval(r, head, owner)
      ensures exists others :: Rearranged(records, others, head) && HasApproval(others, head, owner)
    {
      CanBeLatestIsLatest(records, head, a, r);
      var others :| Rearranged(records, others, head) && LatestIs(others, head, a, r);
      assert HasApproval(others, head, owner);
    }
  }
}
