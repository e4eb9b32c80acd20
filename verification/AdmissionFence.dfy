/** Concurrent admission controller runs on one commit, and the fence that orders what they publish. */
module AdmissionFence {
  import opened Wrappers
  import opened LineText

  datatype Listed = Listed(id: int, headSha: string, status: string)

  /** A `workflow_runs` response of the Actions API. */
  datatype Payload = Payload(totalCount: int, runs: seq<Listed>)

  datatype Order = Order(current: bool, maxObserved: int, olderActive: set<int>)

  datatype OrderError = BadHead | BadRunId | Malformed | PageBound | NotVisible

  const MAX_LISTED := 100

  function MaxId(runs: seq<Listed>): (r: int)
    requires runs != []
    ensures exists i :: 0 <= i < |runs| && runs[i].id == r
    ensures forall i :: 0 <= i < |runs| ==> runs[i].id <= r
  {
    if |runs| == 1 then runs[0].id
    else
      var rest := MaxId(runs[1..]);
      assert forall i :: 1 <= i < |runs| ==> runs[i] == runs[1..][i - 1];
      if runs[0].id >= rest then runs[0].id else rest
  }

  predicate AreOfHead(runs: seq<Listed>, headSha: string) {
    forall i :: 0 <= i < |runs| ==> runs[i].headSha == headSha && runs[i].id > 0
  }

  /** A page that is not cut short and lists runs of the head only. */
  predicate IsWholePage(payload: Payload, headSha: string) {
    0 <= payload.totalCount <= MAX_LISTED && payload.totalCount == |payload.runs| && AreOfHead(payload.runs, headSha)
  }

  ghost predicate Lists(payload: Payload, id: int) {
    exists i :: 0 <= i < |payload.runs| && payload.runs[i].id == id
  }

  ghost predicate ListsActive(payload: Payload, id: int) {
    exists i :: 0 <= i < |payload.runs| && payload.runs[i].id == id && payload.runs[i].status != "completed"
  }

  /** `admission_run_order`. */
  function AdmissionRunOrder(payload: Payload, headSha: string, runId: int): (r: Result<Order, OrderError>)
    ensures r.Ok? <==> IsHex(headSha, 40) && IsWholePage(payload, headSha) && runId > 0 && Lists(payload, runId)
    ensures r.Ok? ==> (r.value.current <==> forall id :: Lists(payload, id) ==> id <= runId)
    ensures r.Ok? ==> Lists(payload, r.value.maxObserved) && forall id :: Lists(payload, id) ==>
        id <= r.value.maxObserved
    ensures r.Ok? ==> forall id :: id in r.value.olderActive <==> id < runId && ListsActive(payload, id)
  {
    if !IsHex(headSha, 40) then Err(BadHead)
    else if runId <= 0 then Err(BadRunId)
    else if payload.totalCount < 0 then Err(Malformed)
    else if payload.totalCount > MAX_LISTED || payload.totalCount != |payload.runs| then Err(PageBound)
    else if !AreOfHead(payload.runs, headSha) then Err(Malformed)
    else if forall i :: 0 <= i < |payload.runs| ==> payload.runs[i].id != runId then Err(NotVisible)
    else
      var older := set l | l in payload.runs && l.id < runId && l.status != "completed" :: l.id;
      assert Lists(payload, MaxId(payload.runs));
      Ok(Order(MaxId(payload.runs) <= runId, MaxId(payload.runs), older))
  }

  datatype Verdict = Success | Waiting | Failure

  datatype Post = PendingPost(run: int) | DecisionPost(run: int, verdict: Verdict)

  /**
   * Where a controller run is. `Fenced` has passed the first fence, `Working` has posted its pending status,
   * `Cleared` has passed the final fence; `Done` is what the API calls completed, with the outcome of the check run
   * and the statuses it had posted by then.
   */
  datatype Phase = Created | Fenced | Working | Cleared | Published | Done(green: bool, pended: bool, published: bool)

  /** The runs on one head, and every status posted to it so far. */
  datatype State = State(runs: map<int, Phase>, posts: seq<Post>)

  /**
   * One page of runs of `s`, as the API returns it at this moment: the total is right, but the page may be cut short.
   */
  ghost predicate IsListing(s: State, payload: Payload) {
    && payload.totalCount == |s.runs|
    && (forall i, j :: 0 <= i < j < |payload.runs| ==> payload.runs[i].id != payload.runs[j].id)
    && forall i :: 0 <= i < |payload.runs| ==>
         payload.runs[i].id in s.runs && (payload.runs[i].status == "completed" <==> s.runs[payload.runs[i].id].Done?)
  }

  datatype Event =
    | Create(run: int)
    | FirstFence(run: int, payload: Payload)
    | PostPending(run: int)
    | FinalFence(run: int, payload: Payload)
    | Publish(run: int, verdict: Verdict)
    | Complete(run: int)
    | Abort(run: int)

  /** One step of one run. Listing and posting are separate steps, so anything may happen between them. */
  ghost predicate Step(s: State, headSha: string, e: Event, s': State) {
    if e.Create? then
      && e.run > 0 && (forall id :: id in s.runs ==> id < e.run)
      && s' == State(s.runs[e.run := Created], s.posts)
    else
      && e.run in s.runs
      && match e
         case FirstFence(r, payload) =>
           s.runs[r].Created? && IsListing(s, payload)
           && s' == AfterFence(s, r, AdmissionRunOrder(payload, headSha, r), true)
         case PostPending(r) => s.runs[r].Fenced? && s' == State(s.runs[r := Working], s.posts + [PendingPost(r)])
         case FinalFence(r, payload) =>
           s.runs[r].Working? && IsListing(s, payload)
           && s' == AfterFence(s, r, AdmissionRunOrder(payload, headSha, r), false)
         case Publish(r, verdict) => s.runs[r].Cleared?
             && s' == State(s.runs[r := Published], s.posts + [DecisionPost(r, verdict)])
         case Complete(r) => s.runs[r].Published? && s' == State(s.runs[r := Done(true, true, true)], s.posts)
         case Abort(r) =>
           !s.runs[r].Done? && s' == State(s.runs[r := Done(false, HasPended(s, r), s.runs[r].Published?)], s.posts)
  }

  /**
   * A refused listing fails the run, a newer run makes it stop quietly, and the final fence keeps polling while older
   * runs are active.
   */
  function AfterFence(s: State, r: int, order: Result<Order, OrderError>, first: bool): State
    requires r in s.runs
  {
    match order
    case Err(_) => State(s.runs[r := Done(false, !first, false)], s.posts)
    case Ok(o) =>
      if !o.current then State(s.runs[r := Done(true, !first, false)], s.posts)
      else if first then State(s.runs[r := Fenced], s.posts)
      else if o.olderActive == {} then State(s.runs[r := Cleared], s.posts)
      else s
  }

  /** `states[i]` becomes `states[i + 1]` by `events[i]`. */
  ghost predicate IsExecution(states: seq<State>, events: seq<Event>, headSha: string) {
    && |states| == |events| + 1 && states[0] == State(map[], [])
    && forall i :: 0 <= i < |events| ==> Step(states[i], headSha, events[i], states[i + 1])
  }

  /** The run has posted its pending status. */
  predicate HasPended(s: State, r: int)
    requires r in s.runs
  {
    s.runs[r].Working? || s.runs[r].Cleared? || s.runs[r].Published? || (s.runs[r].Done? && s.runs[r].pended)
  }

  /** The run has posted its decision. */
  ghost predicate HasPosted(s: State, r: int)
    requires r in s.runs
  {
    s.runs[r].Published? || (s.runs[r].Done? && s.runs[r].published)
  }

  /** A run past the final fence has only completed runs below it. */
  ghost predicate OlderAreDone(s: State) {
    forall r, r0 :: r in s.runs && r0 in s.runs && r0 < r && (s.runs[r].Cleared? || HasPosted(s, r)) ==>
        s.runs[r0].Done?
  }

  ghost predicate PostsMatchPhases(s: State) {
    && (forall k :: 0 <= k < |s.posts| ==> s.posts[k].run in s.runs)
    && (forall k :: 0 <= k < |s.posts| && s.posts[k].DecisionPost? ==> HasPosted(s, s.posts[k].run))
    && forall r :: r in s.runs && HasPosted(s, r) ==>
       exists k :: 0 <= k < |s.posts| && s.posts[k].run == r && s.posts[k].DecisionPost?
  }

  /** Once a decision is posted, only newer runs ever post again. */
  ghost predicate DecisionsAreFinal(s: State) {
    forall i, j :: 0 <= i < j < |s.posts| && s.posts[i].DecisionPost? ==> s.posts[i].run < s.posts[j].run
  }

  /** The runs with a status are those that posted a pending one. */
  ghost predicate StatusesMatchPhases(s: State) {
    && (forall k :: 0 <= k < |s.posts| ==> s.posts[k].run in s.runs && HasPended(s, s.posts[k].run))
    && forall r :: r in s.runs && HasPended(s, r) ==> PendingPost(r) in s.posts
  }

  ghost predicate HasNewer(s: State, r: int) {
    exists n :: n in s.runs && n > r
  }

  /** A run that ended green without a decision gave way to a newer one. */
  ghost predicate QuietRunsAreStale(s: State) {
    forall r :: r in s.runs && s.runs[r].Done? && s.runs[r].green && !s.runs[r].published ==> HasNewer(s, r)
  }

  ghost predicate InOrder(s: State) {
    OlderAreDone(s) && PostsMatchPhases(s) && DecisionsAreFinal(s) && QuietRunsAreStale(s)
  }

  ghost predicate Inv(s: State) {
    InOrder(s) && StatusesMatchPhases(s)
  }

  ghost predicate IsNewest(s: State, r: int) {
    r in s.runs && forall id :: id in s.runs ==> id <= r
  }

  function Ids(runs: seq<Listed>): (r: set<int>)
    ensures forall id :: id in r <==> exists i :: 0 <= i < |runs| && runs[i].id == id
  {
    set i | 0 <= i < |runs| :: runs[i].id
  }

  lemma {:induction false} DistinctIds(runs: seq<Listed>)
    requires forall i, j :: 0 <= i < j < |runs| ==> runs[i].id != runs[j].id
    ensures |Ids(runs)| == |runs|
    decreases |runs|
  {
    if runs != [] {
      var n := |runs| - 1;
      DistinctIds(runs[..n]);
      forall id ensures id in Ids(runs) <==> id in Ids(runs[..n]) + {runs[n].id}
      {
        if id in Ids(runs[..n]) {
          var i :| 0 <= i < n && runs[..n][i].id == id;
          assert runs[i].id == id;
        }
        if i :| 0 <= i < n && runs[i].id == id {
          assert runs[..n][i].id == id;
        }
      }
      assert Ids(runs) == Ids(runs[..n]) + {runs[n].id};
      assert runs[n].id !in Ids(runs[..n]);
    }
  }

  lemma SubsetOfSameSize(a: set<int>, b: set<int>)
    requires a <= b && |a| == |b|
    ensures a == b
  {
    assert |b| == |a| + |b - a|;
  }

  lemma FullPageLists(s: State, payload: Payload, id: int)
    requires IsListing(s, payload) && payload.totalCount == |payload.runs|
    ensures Lists(payload, id) <==> id in s.runs
    ensures ListsActive(payload, id) <==> id in s.runs && !s.runs[id].Done?
  {
    if id in s.runs {
      DistinctIds(payload.runs);
      SubsetOfSameSize(Ids(payload.runs), s.runs.Keys);
      assert id in Ids(payload.runs);
    }
  }

  /** The page bound is what makes a listing complete: an accepted page speaks about every run there is. */
  lemma AcceptedListingIsComplete(s: State, payload: Payload, headSha: string, r: int)
    requires IsListing(s, payload) && AdmissionRunOrder(payload, headSha, r).Ok?
    ensures r in s.runs
    ensures AdmissionRunOrder(payload, headSha, r).value.current <==> IsNewest(s, r)
    ensures forall id :: id in AdmissionRunOrder(payload, headSha, r).value.olderActive <==>
        id in s.runs && id < r && !s.runs[id].Done?
  {
    forall id ensures (Lists(payload, id) <==> id in s.runs)
        && (ListsActive(payload, id) <==> id in s.runs && !s.runs[id].Done?)
    {
      FullPageLists(s, payload, id);
    }
  }

  lemma NewerStays(s: State, s': State)
    requires s.runs.Keys <= s'.runs.Keys
    ensures forall r :: HasNewer(s, r) ==> HasNewer(s', r)
  {
    forall r | HasNewer(s, r) ensures HasNewer(s', r)
    {
      var n :| n in s.runs && n > r;
      assert n in s'.runs;
    }
  }

  /** A run that has not decided moves on without posting. */
  lemma QuietMoveKeepsOrder(s: State, r: int, phase: Phase)
    requires InOrder(s) && r in s.runs && !s.runs[r].Done? && !s.runs[r].Published?
    requires !phase.Published? && (phase.Done? ==> !phase.published && (phase.green ==> HasNewer(s, r)))
    requires phase.Cleared? ==> forall id :: id in s.runs && id < r ==> s.runs[id].Done?
    ensures InOrder(State(s.runs[r := phase], s.posts))
  {
    var s' := State(s.runs[r := phase], s.posts);
    NewerStays(s, s');
    forall q | q in s'.runs && HasPosted(s', q) ensures HasPosted(s, q)
    {
    }
  }

  lemma FenceKeepsOrder(s: State, headSha: string, r: int, payload: Payload, first: bool)
    requires InOrder(s) && r in s.runs && IsListing(s, payload)
    requires if first then s.runs[r].Created? else s.runs[r].Working?
    ensures InOrder(AfterFence(s, r, AdmissionRunOrder(payload, headSha, r), first))
  {
    var order := AdmissionRunOrder(payload, headSha, r);
    if order.Err? {
      QuietMoveKeepsOrder(s, r, Done(false, !first, false));
    } else {
      AcceptedListingIsComplete(s, payload, headSha, r);
      if !order.value.current {
        QuietMoveKeepsOrder(s, r, Done(true, !first, false));
      } else if first {
        QuietMoveKeepsOrder(s, r, Fenced);
      } else if order.value.olderActive == {} {
        QuietMoveKeepsOrder(s, r, Cleared);
      }
    }
  }

  lemma PublishKeepsOrder(s: State, r: int, verdict: Verdict)
    requires InOrder(s) && r in s.runs && s.runs[r].Cleared?
    ensures InOrder(State(s.runs[r := Published], s.posts + [DecisionPost(r, verdict)]))
  {
    var s' := State(s.runs[r := Published], s.posts + [DecisionPost(r, verdict)]);
    NewerStays(s, s');
    forall q | q in s'.runs && HasPosted(s', q)
      ensures exists k :: 0 <= k < |s'.posts| && s'.posts[k].run == q && s'.posts[k].DecisionPost?
    {
      if q == r {
        assert s'.posts[|s.posts|].DecisionPost?;
      } else {
        assert HasPosted(s, q);
        var k :| 0 <= k < |s.posts| && s.posts[k].run == q && s.posts[k].DecisionPost?;
        assert s'.posts[k] == s.posts[k];
      }
    }
    OnlyNewerRunsPost(s, r);
  }

  /** A run that can still post is newer than every run whose decision is out. */
  lemma OnlyNewerRunsPost(s: State, r: int)
    requires InOrder(s) && r in s.runs && !s.runs[r].Done? && !HasPosted(s, r)
    ensures forall k :: 0 <= k < |s.posts| && s.posts[k].DecisionPost? ==> s.posts[k].run < r
  {
    forall k | 0 <= k < |s.posts| && s.posts[k].DecisionPost? ensures s.posts[k].run < r
    {
      assert HasPosted(s, s.posts[k].run);
    }
  }

  lemma PendingKeepsOrder(s: State, r: int)
    requires InOrder(s) && r in s.runs && s.runs[r].Fenced?
    ensures InOrder(State(s.runs[r := Working], s.posts + [PendingPost(r)]))
  {
    var s' := State(s.runs[r := Working], s.posts + [PendingPost(r)]);
    NewerStays(s, s');
    forall q | q in s'.runs && HasPosted(s', q)
      ensures exists k :: 0 <= k < |s'.posts| && s'.posts[k].run == q && s'.posts[k].DecisionPost?
    {
      assert HasPosted(s, q);
      var k :| 0 <= k < |s.posts| && s.posts[k].run == q && s.posts[k].DecisionPost?;
      assert s'.posts[k] == s.posts[k];
    }
    OnlyNewerRunsPost(s, r);
  }

  lemma PhaseChangeKeepsOrder(s: State, r: int, phase: Phase)
    requires InOrder(s)
    requires (phase.Created? && forall id :: id in s.runs ==> id < r)
             || (r in s.runs && !s.runs[r].Done? && phase.Done? && phase.published == HasPosted(s, r)
                 && phase.pended == HasPended(s, r) && (phase.green ==> phase.published))
    ensures InOrder(State(s.runs[r := phase], s.posts))
  {
    var s' := State(s.runs[r := phase], s.posts);
    forall q | q in s'.runs && HasPosted(s', q)
      ensures q in s.runs && HasPosted(s, q)
    {
    }
    NewerStays(s, s');
  }

  lemma StepKeepsOrder(s: State, headSha: string, e: Event, s': State)
    requires InOrder(s) && Step(s, headSha, e, s')
    ensures InOrder(s')
  {
    match e
    case Create(r) => PhaseChangeKeepsOrder(s, r, Created);
    case FirstFence(r, payload) => FenceKeepsOrder(s, headSha, r, payload, true);
    case PostPending(r) => PendingKeepsOrder(s, r);
    case FinalFence(r, payload) => FenceKeepsOrder(s, headSha, r, payload, false);
    case Publish(r, verdict) => PublishKeepsOrder(s, r, verdict);
    case Complete(r) => PhaseChangeKeepsOrder(s, r, Done(true, true, true));
    case Abort(r) => PhaseChangeKeepsOrder(s, r, Done(false, HasPended(s, r), s.runs[r].Published?));
  }

  /** Run `r` has moved to `phase` and posted `added`. */
  lemma StatusesKept(s: State, r: int, phase: Phase, added: seq<Post>)
    requires StatusesMatchPhases(s) && forall k :: 0 <= k < |added| ==> added[k].run == r
    requires
      var s' := State(s.runs[r := phase], s.posts + added);
      && (HasPended(s', r) <==> (r in s.runs && HasPended(s, r)) || PendingPost(r) in added)
      && (added != [] ==> HasPended(s', r))
    ensures StatusesMatchPhases(State(s.runs[r := phase], s.posts + added))
  {
    var s' := State(s.runs[r := phase], s.posts + added);
    forall q | q in s'.runs && HasPended(s', q) ensures PendingPost(q) in s'.posts
    {
      assert (q in s.runs && HasPended(s, q)) || PendingPost(q) in added;
    }
    forall k | 0 <= k < |s'.posts| ensures s'.posts[k].run in s'.runs && HasPended(s', s'.posts[k].run)
    {
      if k < |s.posts| { assert s'.posts[k] == s.posts[k]; } else { assert s'.posts[k] == added[k - |s.posts|]; }
    }
  }

  lemma StepKeepsStatuses(s: State, headSha: string, e: Event, s': State)
    requires StatusesMatchPhases(s) && Step(s, headSha, e, s')
    ensures StatusesMatchPhases(s')
  {
    var added := match e
      case PostPending(r) => [PendingPost(r)]
      case Publish(r, verdict) => [DecisionPost(r, verdict)]
      case _ => [];
    if s' != s {
      assert s'.posts == s.posts + added;
      StatusesKept(s, e.run, s'.runs[e.run], added);
    }
  }

  lemma StepPreservesInv(s: State, headSha: string, e: Event, s': State)
    requires Inv(s) && Step(s, headSha, e, s')
    ensures Inv(s')
  {
    StepKeepsOrder(s, headSha, e, s');
    StepKeepsStatuses(s, headSha, e, s');
  }

  lemma {:induction false} ExecutionKeepsInv(states: seq<State>, events: seq<Event>, headSha: string, n: nat)
    requires IsExecution(states, events, headSha) && n < |states|
    ensures Inv(states[n])
  {
    if n > 0 {
      ExecutionKeepsInv(states, events, headSha, n - 1);
      StepPreservesInv(states[n - 1], headSha, events[n - 1], states[n - 1 + 1]);
    }
  }

  /**
   * In every interleaving decisions appear in strictly increasing run order, and nothing older is ever posted over
   * one.
   */
  lemma DecisionsInRunOrder(states: seq<State>, events: seq<Event>, headSha: string, n: nat, i: nat, j: nat)
    requires IsExecution(states, events, headSha) && n < |states|
    requires i < j < |states[n].posts| && states[n].posts[i].DecisionPost?
    ensures states[n].posts[i].run < states[n].posts[j].run
  {
    ExecutionKeepsInv(states, events, headSha, n);
  }

  /** `admission_merge_gate`: the newest check run and the status in effect must both be green. */
  ghost predicate GateReady(s: State) {
    && (exists r :: IsNewest(s, r) && s.runs[r].Done? && s.runs[r].green)
    && s.posts != [] && s.posts[|s.posts| - 1].DecisionPost? && s.posts[|s.posts| - 1].verdict.Success?
  }

  /** The newest run ended green after posting its decision, and that decision is a success. */
  ghost predicate NewestSucceeded(s: State) {
    exists r :: IsNewest(s, r) && s.runs[r] == Done(true, true, true) && DecisionPost(r, Success) in s.posts
  }

  lemma NotBehindNewest(s: State, r: int, k: nat, j: nat)
    requires Inv(s) && IsNewest(s, r) && k < j < |s.posts| && s.posts[k].DecisionPost?
    ensures s.posts[k].run != r
  {
    assert s.posts[k].run < s.posts[j].run && s.posts[j].run in s.runs;
  }

  lemma NewestDecisionIsLast(s: State, r: int, k: nat)
    requires Inv(s) && IsNewest(s, r) && k < |s.posts| && s.posts[k].DecisionPost? && s.posts[k].run == r
    ensures k == |s.posts| - 1
  {
    if k + 1 < |s.posts| { NotBehindNewest(s, r, k, k + 1); }
  }

  lemma ReadySucceeded(s: State)
    requires Inv(s) && GateReady(s)
    ensures NewestSucceeded(s) && IsNewest(s, s.posts[|s.posts| - 1].run) && forall id :: id in s.runs ==>
        s.runs[id].Done?
  {
    var r :| IsNewest(s, r) && s.runs[r].Done? && s.runs[r].green;
    assert HasPosted(s, r);
    var k :| 0 <= k < |s.posts| && s.posts[k].run == r && s.posts[k].DecisionPost?;
    NewestDecisionIsLast(s, r, k);
    assert HasPended(s, r);
  }

  lemma SucceededReady(s: State, r: int, k: nat)
    requires Inv(s) && IsNewest(s, r) && s.runs[r].Done? && s.runs[r].green && k < |s.posts|
        && s.posts[k] == DecisionPost(r, Success)
    ensures GateReady(s)
  {
    NewestDecisionIsLast(s, r, k);
  }

  lemma ReadyIff(s: State)
    requires Inv(s)
    ensures GateReady(s) <==> NewestSucceeded(s)
  {
    if GateReady(s) {
      ReadySucceeded(s);
    }
    if r :| IsNewest(s, r) && s.runs[r] == Done(true, true, true) && DecisionPost(r, Success) in s.posts {
      var k :| 0 <= k < |s.posts| && s.posts[k] == DecisionPost(r, Success);
      SucceededReady(s, r, k);
    }
  }

  /**
   * The gate is ready exactly when the newest run has ended green with a success. Then the status in effect is that
   * decision, and every run has ended.
   */
  lemma ReadyIffNewestSucceeded(states: seq<State>, events: seq<Event>, headSha: string, n: nat)
    requires IsExecution(states, events, headSha) && n < |states|
    ensures GateReady(states[n]) <==> NewestSucceeded(states[n])
    ensures
      var s := states[n];
      GateReady(s) ==> IsNewest(s, s.posts[|s.posts| - 1].run) && forall id :: id in s.runs ==> s.runs[id].Done?
  {
    ExecutionKeepsInv(states, events, headSha, n);
    ReadyIff(states[n]);
    if GateReady(states[n]) { ReadySucceeded(states[n]); }
  }

  /** The last post lies on a status of a newer run. */
  ghost predicate CoversNewer(posts: seq<Post>) {
    posts != [] && exists k :: 0 <= k < |posts| - 1 && posts[k].run > posts[|posts| - 1].run
  }

  /** The run has posted that it is pending and nothing since: it is at work, or it ended without a decision. */
  predicate IsUndecided(s: State, q: int)
    requires q in s.runs
  {
    s.runs[q].Working? || (s.runs[q].Done? && s.runs[q].pended && !s.runs[q].published)
  }

  /** While an older run can still post, a newer one has no status but a pending one. */
  lemma NewerIsUndecided(s: State, r: int, q: int)
    requires Inv(s) && r in s.runs && !s.runs[r].Done? && q in s.runs && r < q
    ensures HasPended(s, q) <==> IsUndecided(s, q)
    ensures forall k :: 0 <= k < |s.posts| && s.posts[k].run == q ==> s.posts[k].PendingPost?
  {
    assert !HasPosted(s, q) && !s.runs[q].Cleared?;
  }

  ghost predicate HasNewerUndecided(s: State, r: int) {
    exists q :: q in s.runs && r < q && IsUndecided(s, q)
  }

  /** What a status or decision `p` posted in `s` comes to lie on. */
  lemma PostCovers(s: State, p: Post)
    requires Inv(s) && p.run in s.runs && !s.runs[p.run].Done?
    ensures CoversNewer(s.posts + [p]) <==> HasNewerUndecided(s, p.run)
  {
    var posts, r := s.posts + [p], p.run;
    if HasNewerUndecided(s, r) {
      var q :| q in s.runs && r < q && IsUndecided(s, q);
      assert HasPended(s, q) && PendingPost(q) in s.posts;
      var k :| 0 <= k < |s.posts| && s.posts[k] == PendingPost(q);
      assert posts[k] == s.posts[k];
    }
    if CoversNewer(posts) {
      var k :| 0 <= k < |posts| - 1 && posts[k].run > r;
      assert s.posts[k] == posts[k] && HasPended(s, posts[k].run);
      NewerIsUndecided(s, r, posts[k].run);
    }
  }

  lemma CoversOnlyPending(s: State, p: Post, k: nat)
    requires Inv(s) && p.run in s.runs && !s.runs[p.run].Done? && k < |s.posts| && s.posts[k].run > p.run
    ensures s.posts[k].PendingPost?
  {
    NewerIsUndecided(s, p.run, s.posts[k].run);
  }

  /**
   * In every interleaving, posting a status or a decision covers the status of a newer run exactly when some newer run
   * has posted its pending status and not decided; what is covered is only ever a pending status.
   */
  lemma CoversNewerIff(states: seq<State>, events: seq<Event>, headSha: string, n: nat)
    requires IsExecution(states, events, headSha) && n < |events| && (events[n].PostPending? || events[n].Publish?)
    ensures CoversNewer(states[n + 1].posts) <==> HasNewerUndecided(states[n], events[n].run)
    ensures forall k :: 0 <= k < |states[n].posts| && states[n].posts[k].run > events[n].run ==>
        states[n].posts[k].PendingPost?
  {
    ExecutionKeepsInv(states, events, headSha, n);
    assert Step(states[n], headSha, events[n], states[n + 1]);
    var s, p := states[n], if events[n].PostPending? then PendingPost(events[n].run)
        else DecisionPost(events[n].run, events[n].verdict);
    PostCovers(s, p);
    forall k | 0 <= k < |s.posts| && s.posts[k].run > p.run ensures s.posts[k].PendingPost?
    {
      CoversOnlyPending(s, p, k);
    }
  }

  /** A page that lists run 1, and one that lists runs 1 and 2, all still in progress. */
  function PageOne(headSha: string): Payload {
    Payload(1, [Listed(1, headSha, "in_progress")])
  }

  function PageTwo(headSha: string): Payload {
    Payload(2, [Listed(1, headSha, "in_progress"), Listed(2, headSha, "queued")])
  }

  function RacingEvents(headSha: string): seq<Event> {
    [ Create(1), FirstFence(1, PageOne(headSha)), PostPending(1), FinalFence(1, PageOne(headSha)),
      Create(2), FirstFence(2, PageTwo(headSha)), PostPending(2), Publish(1, Success) ]
  }

  function RacingStates(): seq<State> {
    [ State(map[], []),
      State(map[1 := Created], []),
      State(map[1 := Fenced], []),
      State(map[1 := Working], [PendingPost(1)]),
      State(map[1 := Cleared], [PendingPost(1)]),
      State(map[1 := Cleared, 2 := Created], [PendingPost(1)]),
      State(map[1 := Cleared, 2 := Fenced], [PendingPost(1)]),
      State(map[1 := Cleared, 2 := Working], [PendingPost(1), PendingPost(2)]),
      State(map[1 := Published, 2 := Working], [PendingPost(1), PendingPost(2), DecisionPost(1, Success)]) ]
  }

  lemma RacingFences(headSha: string)
    requires IsHex(headSha, 40)
    ensures AfterFence(RacingStates()[1], 1, AdmissionRunOrder(PageOne(headSha), headSha, 1), true) == RacingStates()[2]
    ensures AfterFence(RacingStates()[3], 1, AdmissionRunOrder(PageOne(headSha), headSha, 1), false) ==
        RacingStates()[4]
    ensures AfterFence(RacingStates()[5], 2, AdmissionRunOrder(PageTwo(headSha), headSha, 2), true) == RacingStates()[6]
  {
    assert PageOne(headSha).runs[0].id == 1 && PageTwo(headSha).runs[1].id == 2;
    assert AdmissionRunOrder(PageOne(headSha), headSha, 1).Ok? && AdmissionRunOrder(PageTwo(headSha), headSha, 2).Ok?;
    assert AdmissionRunOrder(PageOne(headSha), headSha, 1).value.olderActive == {};
  }

  lemma RacingFenceSteps(headSha: string)
    requires IsHex(headSha, 40)
    ensures Step(RacingStates()[1], headSha, RacingEvents(headSha)[1], RacingStates()[2])
    ensures Step(RacingStates()[3], headSha, RacingEvents(headSha)[3], RacingStates()[4])
    ensures Step(RacingStates()[5], headSha, RacingEvents(headSha)[5], RacingStates()[6])
  {
    RacingFences(headSha);
    RacingListings(headSha);
  }

  lemma RacingStep(headSha: string, i: nat)
    requires IsHex(headSha, 40) && i < 8
    ensures Step(RacingStates()[i], headSha, RacingEvents(headSha)[i], RacingStates()[i + 1])
  {
    if i == 0 || i == 4 {
      RacingCreates(headSha);
    } else if i == 1 || i == 3 || i == 5 {
      RacingFenceSteps(headSha);
    } else {
      RacingPosts(headSha);
    }
  }

  lemma RacingIsExecution(headSha: string)
    requires IsHex(headSha, 40)
    ensures IsExecution(RacingStates(), RacingEvents(headSha), headSha)
  {
    forall i | 0 <= i < |RacingEvents(headSha)|
      ensures Step(RacingStates()[i], headSha, RacingEvents(headSha)[i], RacingStates()[i + 1])
    {
      RacingStep(headSha, i);
    }
  }

  lemma RacingOutcome(s: State)
    requires 2 in s.runs && !s.runs[2].Done? && (forall id :: id in s.runs ==> id <= 2)
    requires s.posts == [PendingPost(1), PendingPost(2), DecisionPost(1, Success)]
    ensures CoversNewer(s.posts) && !GateReady(s)
  {
    assert s.posts[1].run > s.posts[2].run;
  }

  /**
   * The fence alone does not order every status: an older success can land on a newer run's pending one. The gate
   * stays shut.
   */
  lemma OlderDecisionCanCoverNewerPending(headSha: string)
    requires IsHex(headSha, 40)
    ensures IsExecution(RacingStates(), RacingEvents(headSha), headSha)
    ensures
      var s := RacingStates()[8];
      && s.posts[1] == PendingPost(2) && s.posts[2] == DecisionPost(1, Success) && CoversNewer(s.posts)
      && !GateReady(s)
  {
    RacingIsExecution(headSha);
    RacingOutcome(RacingStates()[8]);
  }

  lemma RacingCreates(headSha: string)
    ensures Step(RacingStates()[0], headSha, RacingEvents(headSha)[0], RacingStates()[1])
    ensures Step(RacingStates()[4], headSha, RacingEvents(headSha)[4], RacingStates()[5])
  {
  }

  lemma RacingPosts(headSha: string)
    ensures Step(RacingStates()[2], headSha, RacingEvents(headSha)[2], RacingStates()[3])
    ensures Step(RacingStates()[6], headSha, RacingEvents(headSha)[6], RacingStates()[7])
    ensures Step(RacingStates()[7], headSha, RacingEvents(headSha)[7], RacingStates()[8])
  {
  }

  lemma RacingListings(headSha: string)
    ensures IsListing(RacingStates()[1], PageOne(headSha)) && IsListing(RacingStates()[3], PageOne(headSha))
    ensures IsListing(RacingStates()[5], PageTwo(headSha))
  {
  }
}
