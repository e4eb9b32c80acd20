/** The reversible Algolia registration, its secret reference, and the Mission consumer fenced by the registration. */
module SearchRegistration {
  import opened Wrappers
  import opened Machine

  /** What a registration binds of scope, provider, versions and contract, as one value. */
  type Binding = string

  datatype Registration = Registration(
    binding: Binding, secretDigest: string, revision: int, active: bool, reversible: bool, revocable: bool,
        digest: string)

  datatype Secret = Secret(id: string, revision: int, revoked: bool)

  /** What the digest of a registration is taken of. */
  datatype Preimage = Preimage(binding: Binding, secretDigest: string, revision: int, active: bool, reversible: bool,
        revocable: bool)

  /** The digests of registrations and of secret references; the latter leave out whether the secret is revoked. */
  datatype Hashes = Hashes(registration: Preimage -> string, secret: (string, int) -> string)

  datatype RegistrationError = NotRevocable | AlreadyRevoked | NotReversible | NotRevoked | RevisionOverflow

  function PreimageOf(r: Registration): Preimage {
    Preimage(r.binding, r.secretDigest, r.revision, r.active, r.reversible, r.revocable)
  }

  function WithDigest(h: Hashes, p: Preimage): Registration {
    Registration(p.binding, p.secretDigest, p.revision, p.active, p.reversible, p.revocable, h.registration(p))
  }

  /** `bind`. */
  function Bound(h: Hashes, binding: Binding, secret: Secret): Registration {
    WithDigest(h, Preimage(binding, h.secret(secret.id, secret.revision), 1, true, true, true))
  }

  function Advance(h: Hashes, r: Registration, active: bool): Registration {
    WithDigest(h, PreimageOf(r).(revision := r.revision + 1, active := active))
  }

  /** `revoke`. */
  function Revoked(h: Hashes, r: Registration): Result<Registration, RegistrationError> {
    if !r.revocable then Err(NotRevocable)
    else if !r.active then Err(AlreadyRevoked)
    else if r.revision >= U64_MAX then Err(RevisionOverflow)
    else Ok(Advance(h, r, false))
  }

  /** `restore`. */
  function Restored(h: Hashes, r: Registration): Result<Registration, RegistrationError> {
    if !r.reversible then Err(NotReversible)
    else if r.active then Err(NotRevoked)
    else if r.revision >= U64_MAX then Err(RevisionOverflow)
    else Ok(Advance(h, r, true))
  }

  /** `AlgoliaRegistration::validate` against what the provider binds today. */
  predicate Validates(h: Hashes, r: Registration, binding: Binding, secret: Secret) {
    && r.active && r.binding == binding && r.secretDigest == h.secret(secret.id, secret.revision)
    && r.reversible && r.revocable && r.digest == h.registration(PreimageOf(r))
  }

  /** A proposal; `evidenceHolds` stands for every check of `verify_proposal` that does not concern the registration. */
  datatype Proposal = Proposal(registrationDigest: string, proposalDigest: string, evidenceHolds: bool)

  /**
   * The provider with its registration and secret, and one consumer built on it; `analytics` is the permission to
   * read.
   */
  datatype World = World(
    registration: Registration, binding: Binding, analytics: bool, secret: Secret, pinned: string, active: bool,
        consumed: set<string>)

  function NewConsumer(r: Registration, binding: Binding, analytics: bool, secret: Secret): World {
    World(r, binding, analytics, secret, r.digest, true, {})
  }

  datatype ReadError = RegistrationRevoked | SecretRevoked | MissingAnalyticsAcl

  /** `ensure_ready`, which every provider read starts with. */
  function ReadProblem(h: Hashes, w: World): Option<ReadError> {
    if !w.registration.active then Some(RegistrationRevoked)
    else if w.secret.revoked then Some(SecretRevoked)
    else if !w.analytics then Some(MissingAnalyticsAcl)
    else if !Validates(h, w.registration, w.binding, w.secret) then Some(RegistrationRevoked)
    else None
  }

  /** `verify_proposal`: the registration validates and is the one the proposal was compiled under. */
  predicate Verifies(h: Hashes, w: World, p: Proposal) {
    Validates(h, w.registration, w.binding, w.secret) && p.registrationDigest == w.registration.digest
        && p.evidenceHolds
  }

  /** `answered` stands for everything behind the readiness check of a read. */
  datatype Op =
    | RevokeRegistration | RestoreRegistration | RevokeSecret | ReadProvider(answered: bool)
    | Consume(proposal: Proposal) | RevokeConsumer | RestoreConsumer

  /** What one call does, or `None` when it returns an error. */
  function Effect(h: Hashes, w: World, op: Op): Option<World> {
    match op
    case RevokeRegistration =>
        (match Revoked(h, w.registration) case Ok(r) => Some(w.(registration := r)) case Err(_) => None)
    case RestoreRegistration =>
        (match Restored(h, w.registration) case Ok(r) => Some(w.(registration := r)) case Err(_) => None)
    case RevokeSecret => if w.secret.revoked then None else Some(w.(secret := w.secret.(revoked := true)))
    case ReadProvider(answered) => if ReadProblem(h, w).None? && answered then Some(w) else None
    case Consume(p) =>
      if w.active && w.registration.digest == w.pinned && Verifies(h, w, p) && p.proposalDigest !in w.consumed
      then Some(w.(consumed := w.consumed + {p.proposalDigest}))
      else None
    case RevokeConsumer => if w.active then Some(w.(active := false)) else None
    case RestoreConsumer => if w.active then None else Some(w.(active := true))
  }

  class AlgoliaRegistration {
    const h: Hashes
    const binding: Binding
    const secretDigest: string
    var revision: int
    var active: bool
    var reversible: bool
    var revocable: bool
    var digest: string

    function View(): Registration
      reads this
    {
      Registration(binding, secretDigest, revision, active, reversible, revocable, digest)
    }

    constructor Bind(h: Hashes, binding: Binding, secret: Secret)
      ensures this.h == h && View() == Bound(h, binding, secret)
    {
      this.h, this.binding, this.secretDigest := h, binding, h.secret(secret.id, secret.revision);
      revision, active, reversible, revocable := 1, true, true, true;
      digest := h.registration(Preimage(binding, h.secret(secret.id, secret.revision), 1, true, true, true));
    }

    method Revoke() returns (r: Result<string, RegistrationError>)
      modifies this
      ensures match old(Revoked(h, View()))
              case Ok(after) => View() == after && r == Ok(old(digest))
              case Err(e) => View() == old(View()) && r == Err(e)
    {
      if !revocable {
        return Err(NotRevocable);
      }
      if !active {
        return Err(AlreadyRevoked);
      }
      if revision >= U64_MAX {
        return Err(RevisionOverflow);
      }
      var previous := digest;
      revision, active := revision + 1, false;
      digest := h.registration(Preimage(binding, secretDigest, revision, active, reversible, revocable));
      return Ok(previous);
    }

    method Restore() returns (r: Result<(), RegistrationError>)
      modifies this
      ensures match old(Restored(h, View()))
              case Ok(after) => View() == after && r.Ok?
              case Err(e) => View() == old(View()) && r == Err(e)
    {
      if !reversible {
        return Err(NotReversible);
      }
      if active {
        return Err(NotRevoked);
      }
      if revision >= U64_MAX {
        return Err(RevisionOverflow);
      }
      revision, active := revision + 1, true;
      digest := h.registration(Preimage(binding, secretDigest, revision, active, reversible, revocable));
      return Ok(());
    }
  }

  class SecretReference {
    const id: string
    const revision: int
    var revoked: bool

    function View(): Secret
      reads this
    {
      Secret(id, revision, revoked)
    }

    constructor (id: string, revision: int)
      ensures View() == Secret(id, revision, false)
    {
      this.id, this.revision, this.revoked := id, revision, false;
    }

    method Revoke() returns (ok: bool)
      modifies this
      ensures revoked && ok == !old(revoked)
    {
      ok := !revoked;
      revoked := true;
    }

    method Restore() returns (ok: bool)
      modifies this
      ensures !revoked && ok == old(revoked)
    {
      ok := revoked;
      revoked := false;
    }
  }

  class AnalyticsProvider {
    const registration: AlgoliaRegistration
    const secret: SecretReference
    const binding: Binding
    const analytics: bool

    constructor (registration: AlgoliaRegistration, secret: SecretReference, binding: Binding, analytics: bool)
      ensures this.registration == registration && this.secret == secret && this.binding == binding
          && this.analytics == analytics
    {
      this.registration, this.secret, this.binding, this.analytics := registration, secret, binding, analytics;
    }

    predicate IsValid()
      reads registration, secret
    {
      Validates(registration.h, registration.View(), binding, secret.View())
    }

    method EnsureReady() returns (problem: Option<ReadError>)
      ensures problem.None? <==> IsValid() && !secret.revoked && analytics
      ensures problem == Some(SecretRevoked) <==> registration.active && secret.revoked
    {
      if !registration.active {
        return Some(RegistrationRevoked);
      }
      if secret.revoked {
        return Some(SecretRevoked);
      }
      if !analytics {
        return Some(MissingAnalyticsAcl);
      }
      return if IsValid() then None else Some(RegistrationRevoked);
    }
  }

  datatype ConsumerError = ConsumerRevoked | RegistrationMismatch | InvalidProposal | ReplayDetected

  class MissionConsumer {
    const provider: AnalyticsProvider
    const pinned: string
    var active: bool
    var consumed: set<string>

    function View(): World
      reads this, provider.registration, provider.secret
    {
      World(provider.registration.View(), provider.binding, provider.analytics, provider.secret.View(), pinned, active,
          consumed)
    }

    constructor (provider: AnalyticsProvider)
      ensures this.provider == provider
      ensures View() == NewConsumer(provider.registration.View(), provider.binding, provider.analytics,
          provider.secret.View())
    {
      this.provider, this.pinned := provider, provider.registration.digest;
      active, consumed := true, {};
    }

    method Consume(p: Proposal) returns (r: Result<string, ConsumerError>)
      modifies this
      ensures match old(Effect(provider.registration.h, View(), Op.Consume(p)))
              case Some(after) => View() == after && r == Ok(p.proposalDigest)
              case None => View() == old(View()) && r.Err?
    {
      if !active {
        return Err(ConsumerRevoked);
      }
      if provider.registration.digest != pinned {
        return Err(RegistrationMismatch);
      }
      if !provider.IsValid() || p.registrationDigest != provider.registration.digest || !p.evidenceHolds {
        return Err(InvalidProposal);
      }
      if p.proposalDigest in consumed {
        return Err(ReplayDetected);
      }
      consumed := consumed + {p.proposalDigest};
      return Ok(p.proposalDigest);
    }

    method Revoke() returns (r: Result<(), ConsumerError>)
      modifies this
      ensures match old(Effect(provider.registration.h, View(), RevokeConsumer))
              case Some(after) => View() == after && r.Ok?
              case None => View() == old(View()) && r.Err?
    {
      if !active {
        return Err(ConsumerRevoked);
      }
      active := false;
      return Ok(());
    }

    method Restore() returns (r: Result<(), ConsumerError>)
      modifies this
      ensures match old(Effect(provider.registration.h, View(), RestoreConsumer))
              case Some(after) => View() == after && r.Ok?
              case None => View() == old(View()) && r.Err?
    {
      if active {
        return Err(InvalidProposal);
      }
      active := true;
      return Ok(());
    }
  }
}
