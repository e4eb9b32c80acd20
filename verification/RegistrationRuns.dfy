/** What holds of a registration and its consumer over whole runs of calls. */
module RegistrationRuns {
  import opened Wrappers
  import opened Machine
  import opened SearchRegistration

  /** An operation that fails changes nothing. */
  function Step(h: Hashes, w: World, op: Op): World {
    match Effect(h, w, op) case Some(w') => w' case None => w
  }

  predicate Follows(h: Hashes, ws: seq<World>, ops: seq<Op>, i: nat)
    requires i < |ops| && |ws| == |ops| + 1
  {
    ws[i + 1] == Step(h, ws[i], ops[i])
  }

  /** The worlds between the operations of a run, in order. */
  ghost predicate IsRun(h: Hashes, ws: seq<World>, ops: seq<Op>) {
    |ws| == |ops| + 1 && forall i: nat :: i < |ops| ==> Follows(h, ws, ops, i)
  }

  /** Operation `i` of the run succeeds. */
  predicate Succeeds(h: Hashes, ws: seq<World>, ops: seq<Op>, i: nat)
    requires i < |ops| < |ws|
  {
    Effect(h, ws[i], ops[i]).Some?
  }

  /** What every run keeps: an odd revision is an active one, and the digest is that of the current state. */
  ghost predicate Coherent(h: Hashes, binding: Binding, secretDigest: string, r: Registration) {
    && r.binding == binding && r.secretDigest == secretDigest && r.reversible && r.revocable
       && 1 <= r.revision <= U64_MAX
    && (r.active <==> r.revision % 2 == 1) && r.digest == h.registration(PreimageOf(r))
  }

  lemma BoundIsCoherent(h: Hashes, binding: Binding, secret: Secret)
    ensures Coherent(h, binding, h.secret(secret.id, secret.revision), Bound(h, binding, secret))
  {
  }

  lemma StepIsCoherent(h: Hashes, binding: Binding, secretDigest: string, w: World, op: Op)
    requires Coherent(h, binding, secretDigest, w.registration)
    ensures
      var w' := Step(h, w, op);
      Coherent(h, binding, secretDigest, w'.registration) && w'.pinned == w.pinned
  {
  }

  lemma {:induction false} CoherenceStays(h: Hashes, binding: Binding, secretDigest: string, ws: seq<World>,
        ops: seq<Op>, n: nat)
    requires IsRun(h, ws, ops) && n <= |ops| && Coherent(h, binding, secretDigest, ws[0].registration)
    ensures Coherent(h, binding, secretDigest, ws[n].registration) && ws[n].pinned == ws[0].pinned
    decreases n
  {
    if n > 0 {
      CoherenceStays(h, binding, secretDigest, ws, ops, n - 1);
      assert Follows(h, ws, ops, n - 1);
      StepIsCoherent(h, binding, secretDigest, ws[n - 1], ops[n - 1]);
    }
  }

  function SecretDigest(h: Hashes, secret: Secret): string {
    h.secret(secret.id, secret.revision)
  }

  /** Some calls lead from the registration that `bind` makes to `r`. */
  ghost predicate Reached(h: Hashes, binding: Binding, secret: Secret, r: Registration) {
    exists ws, ops :: IsRun(h, ws, ops) && Leads(ws, Bound(h, binding, secret), r)
  }

  predicate Leads(ws: seq<World>, first: Registration, last: Registration) {
    ws != [] && ws[0].registration == first && ws[|ws| - 1].registration == last
  }

  lemma RunSnoc(h: Hashes, ws: seq<World>, ops: seq<Op>, op: Op)
    requires IsRun(h, ws, ops)
    ensures IsRun(h, ws + [Step(h, ws[|ops|], op)], ops + [op])
  {
    var ws', ops' := ws + [Step(h, ws[|ops|], op)], ops + [op];
    forall i: nat | i < |ops'| ensures Follows(h, ws', ops', i)
    {
      if i < |ops| {
        assert Follows(h, ws, ops, i);
      }
    }
  }

  /** Every coherent registration is reached: revoke and restore in turn. */
  lemma {:induction false} CoherentIsReached(h: Hashes, binding: Binding, secret: Secret, r: Registration)
    requires Coherent(h, binding, SecretDigest(h, secret), r)
    ensures Reached(h, binding, secret, r)
    decreases r.revision
  {
    var first := Bound(h, binding, secret);
    if r.revision == 1 {
      assert r == first;
      var w := NewConsumer(first, binding, true, secret);
      assert IsRun(h, [w], []) && Leads([w], first, r);
    } else {
      var p := Preimage(binding, SecretDigest(h, secret), r.revision - 1, !r.active, true, true);
      var before := WithDigest(h, p);
      CoherentIsReached(h, binding, secret, before);
      var ws, ops :| IsRun(h, ws, ops) && Leads(ws, first, before);
      var op := if r.active then RestoreRegistration else RevokeRegistration;
      RunSnoc(h, ws, ops, op);
      assert Step(h, ws[|ops|], op).registration == r;
      assert Leads(ws + [Step(h, ws[|ops|], op)], first, r);
    }
  }

  /** The registrations that runs from `bind` reach are exactly the coherent ones. */
  lemma ReachedIffCoherent(h: Hashes, binding: Binding, secret: Secret, r: Registration)
    ensures Reached(h, binding, secret, r) <==> Coherent(h, binding, SecretDigest(h, secret), r)
  {
    if Reached(h, binding, secret, r) {
      var ws, ops :| IsRun(h, ws, ops) && Leads(ws, Bound(h, binding, secret), r);
      BoundIsCoherent(h, binding, secret);
      CoherenceStays(h, binding, SecretDigest(h, secret), ws, ops, |ops|);
    }
    if Coherent(h, binding, SecretDigest(h, secret), r) {
      CoherentIsReached(h, binding, secret, r);
    }
  }

  /** Runs that go on from a bound registration, under any consumer, keep it coherent. */
  lemma RunIsCoherent(h: Hashes, binding: Binding, secret: Secret, ws: seq<World>, ops: seq<Op>, n: nat)
    requires IsRun(h, ws, ops) && n <= |ops| && Reached(h, binding, secret, ws[0].registration)
    ensures Coherent(h, binding, SecretDigest(h, secret), ws[n].registration) && ws[n].pinned == ws[0].pinned
  {
    ReachedIffCoherent(h, binding, secret, ws[0].registration);
    CoherenceStays(h, binding, SecretDigest(h, secret), ws, ops, n);
  }

  predicate IsChange(op: Op) {
    op.RevokeRegistration? || op.RestoreRegistration?
  }

  /** How many of the operations from `i` up to `j` changed the registration. */
  function Changes(h: Hashes, ws: seq<World>, ops: seq<Op>, i: nat, j: nat): nat
    requires i <= j <= |ops| < |ws|
    decreases j
  {
    if i == j then 0
    else Changes(h, ws, ops, i, j - 1) + if IsChange(ops[j - 1]) && Succeeds(h, ws, ops, j - 1) then 1 else 0
  }

  lemma StepCounts(h: Hashes, w: World, op: Op)
    ensures
      var w' := Step(h, w, op);
      if IsChange(op) && Effect(h, w, op).Some? then w'.registration.revision == w.registration.revision + 1
      else w'.registration == w.registration
  {
  }

  /** The revision counts the changes, and without one the registration stays as it is. */
  lemma {:induction false} RevisionCountsChanges(h: Hashes, ws: seq<World>, ops: seq<Op>, i: nat, j: nat)
    requires IsRun(h, ws, ops) && i <= j <= |ops|
    ensures
      var a, b, n := ws[i].registration, ws[j].registration, Changes(h, ws, ops, i, j);
      b.revision == a.revision + n && (n == 0 ==> a == b)
    decreases j
  {
    if i < j {
      RevisionCountsChanges(h, ws, ops, i, j - 1);
      assert Follows(h, ws, ops, j - 1);
      StepCounts(h, ws[j - 1], ops[j - 1]);
    }
  }

  lemma {:induction false} ChangeCounts(h: Hashes, ws: seq<World>, ops: seq<Op>, i: nat, k: nat, j: nat)
    requires i <= k < j <= |ops| < |ws| && IsChange(ops[k]) && Succeeds(h, ws, ops, k)
    ensures Changes(h, ws, ops, i, j) > 0
    decreases j
  {
    if k < j - 1 {
      ChangeCounts(h, ws, ops, i, k, j - 1);
    }
  }

  /**
   * Along a run every digest is taken of the current state, and what is hashed never comes back: two states hash the
   * same preimage exactly when no revocation or restoration lies between them, and then they are equal.
   */
  lemma PreimagesNeverRepeat(h: Hashes, binding: Binding, secret: Secret, ws: seq<World>, ops: seq<Op>, i: nat, j: nat)
    requires IsRun(h, ws, ops) && i <= j <= |ops| && Reached(h, binding, secret, ws[0].registration)
    ensures
      var a, b, n := ws[i].registration, ws[j].registration, Changes(h, ws, ops, i, j);
      && a.digest == h.registration(PreimageOf(a)) && b.digest == h.registration(PreimageOf(b))
      && (PreimageOf(a) == PreimageOf(b) <==> n == 0) && (n == 0 ==> a == b)
  {
    RunIsCoherent(h, binding, secret, ws, ops, i);
    RunIsCoherent(h, binding, secret, ws, ops, j);
    RevisionCountsChanges(h, ws, ops, i, j);
  }

  /**
   * Once the registration has been revoked or restored under a consumer, that consumer accepts a proposal only if the
   * registration it was built on and the one in force, which differ, hash alike.
   */
  lemma ChangedRegistrationFencesConsumer(
      h: Hashes, binding: Binding, secret: Secret, ws: seq<World>, ops: seq<Op>, i: nat, j: nat)
    requires IsRun(h, ws, ops) && i < j < |ops| && Reached(h, binding, secret, ws[0].registration)
    requires ws[0].pinned == ws[0].registration.digest
    requires IsChange(ops[i]) && Succeeds(h, ws, ops, i) && ops[j].Consume?
    ensures
      var pinned, now := PreimageOf(ws[0].registration), PreimageOf(ws[j].registration);
      && pinned.revision < now.revision
      && (Succeeds(h, ws, ops, j) ==> h.registration(pinned) == h.registration(now))
  {
    RunIsCoherent(h, binding, secret, ws, ops, j);
    ReachedIffCoherent(h, binding, secret, ws[0].registration);
    RevisionCountsChanges(h, ws, ops, 0, j);
    ChangeCounts(h, ws, ops, 0, i, j);
  }

  lemma StepKeepsConsumed(h: Hashes, w: World, op: Op)
    ensures w.consumed <= Step(h, w, op).consumed
    ensures op.Consume? && Effect(h, w, op).Some? ==>
              op.proposal.proposalDigest !in w.consumed && op.proposal.proposalDigest in Step(h, w, op).consumed
  {
  }

  lemma {:induction false} ConsumedStays(h: Hashes, ws: seq<World>, ops: seq<Op>, i: nat, j: nat)
    requires IsRun(h, ws, ops) && i <= j <= |ops|
    ensures ws[i].consumed <= ws[j].consumed
    decreases j
  {
    if i < j {
      ConsumedStays(h, ws, ops, i, j - 1);
      assert Follows(h, ws, ops, j - 1);
      StepKeepsConsumed(h, ws[j - 1], ops[j - 1]);
    }
  }

  /** No proposal digest is consumed twice, whatever happens in between. */
  lemma NoProposalTwice(h: Hashes, ws: seq<World>, ops: seq<Op>, i: nat, j: nat)
    requires IsRun(h, ws, ops) && i < j < |ops| && ops[i].Consume? && ops[j].Consume?
    requires Succeeds(h, ws, ops, i) && Succeeds(h, ws, ops, j)
    ensures ops[i].proposal.proposalDigest != ops[j].proposal.proposalDigest
  {
    assert Follows(h, ws, ops, i);
    StepKeepsConsumed(h, ws[i], ops[i]);
    ConsumedStays(h, ws, ops, i + 1, j);
    StepKeepsConsumed(h, ws[j], ops[j]);
  }

  /** The two worlds differ at most in whether the secret is revoked. */
  predicate SameButRevocation(w: World, v: World) {
    v == w.(secret := w.secret.(revoked := v.secret.revoked))
  }

  predicate DependsOnSecret(op: Op) {
    op.RevokeSecret? || op.ReadProvider?
  }

  lemma StepIgnoresSecret(h: Hashes, w: World, v: World, op: Op)
    requires SameButRevocation(w, v)
    ensures SameButRevocation(Step(h, w, op), Step(h, v, op))
    ensures !DependsOnSecret(op) ==> (Effect(h, w, op).Some? <==> Effect(h, v, op).Some?)
  {
  }

  /**
   * The secret is no part of the fence: two runs of the same operations, one of them after the secret was revoked, stay
   * the same but for that, and every operation that does not read succeeds in both or in neither.
   */
  lemma {:induction false} RevokedSecretDoesNotFence(h: Hashes, ws: seq<World>, vs: seq<World>, ops: seq<Op>, n: nat)
    requires IsRun(h, ws, ops) && IsRun(h, vs, ops) && n < |ops| && SameButRevocation(ws[0], vs[0])
    ensures SameButRevocation(ws[n], vs[n])
    ensures !DependsOnSecret(ops[n]) ==> (Succeeds(h, ws, ops, n) <==> Succeeds(h, vs, ops, n))
    decreases n
  {
    if n > 0 {
      RevokedSecretDoesNotFence(h, ws, vs, ops, n - 1);
      assert Follows(h, ws, ops, n - 1) && Follows(h, vs, ops, n - 1);
      StepIgnoresSecret(h, ws[n - 1], vs[n - 1], ops[n - 1]);
    }
    StepIgnoresSecret(h, ws[n], vs[n], ops[n]);
  }

  lemma StepKeepsRevocation(h: Hashes, w: World, op: Op)
    requires w.secret.revoked || op.RevokeSecret?
    ensures Step(h, w, op).secret.revoked
  {
  }

  /** But after its revocation no provider read ever succeeds, whatever the calls in between. */
  lemma {:induction false} RevokedSecretStopsReads(h: Hashes, ws: seq<World>, ops: seq<Op>, i: nat, j: nat)
    requires IsRun(h, ws, ops) && i < j <= |ops| && ops[i].RevokeSecret?
    ensures ws[j].secret.revoked && (j < |ops| && ops[j].ReadProvider? ==> !Succeeds(h, ws, ops, j))
    decreases j
  {
    if i < j - 1 {
      RevokedSecretStopsReads(h, ws, ops, i, j - 1);
    }
    assert Follows(h, ws, ops, j - 1);
    StepKeepsRevocation(h, ws[j - 1], ops[j - 1]);
  }

  /** A consumer whose secret is revoked cannot read, and still consumes a proposal compiled before. */
  lemma RevokedSecretStillConsumes(h: Hashes, binding: Binding, proposalDigest: string)
    ensures
      var secret := Secret("key", 1, false);
      var w := NewConsumer(Bound(h, binding, secret), binding, true, secret);
      var revoked := Step(h, w, RevokeSecret);
      && SameButRevocation(w, revoked) && revoked.secret.revoked
      && Effect(h, w, ReadProvider(true)).Some? && ReadProblem(h, revoked) == Some(SecretRevoked)
      && Effect(h, revoked, Consume(Proposal(w.registration.digest, proposalDigest, true))).Some?
  {
  }
}
