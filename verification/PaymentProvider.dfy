/** The Adyen payments provider: reads fenced by identity, status order and revocation. */
module PaymentProvider {
  import opened Wrappers
  import opened Machine

  datatype Status = Received | Pending | Authorised | Refused | Cancelled | Error | Expired | Unknown

  function Rank(s: Status): int {
    match s
    case Received => 0
    case Pending => 1
    case Authorised | Refused | Cancelled | Error | Expired => 2
    case Unknown => 255
  }

  predicate IsTerminal(s: Status) {
    s.Authorised? || s.Refused? || s.Cancelled? || s.Error? || s.Expired?
  }

  /** What identifies one payment. */
  datatype Payment = Payment(merchant: string, account: string, reference: string, amount: int, currency: string,
        customer: string)

  /** A parsed API response; `wellFormed` says that its identifiers, currency and amount are valid. */
  datatype Record = Record(
    wellFormed: bool, merchant: string, account: string, reference: string, amount: int, currency: string,
    customer: Option<string>, status: Status, resultCode: Option<string>,
    instrument: Option<string>, createdAt: Option<string>, updatedAt: Option<string>, reconciliation: Option<string>)

  datatype Projection = Projection(
    payment: Payment, status: Status, resultCode: Option<string>,
    instrument: Option<string>, createdAt: Option<string>, updatedAt: Option<string>, reconciliationDigest: string,
        providerRevision: int)

  datatype Evidence = Evidence(payment: Projection, registrationDigest: string, providerRevision: int)

  /** The digests taken, as functions of what goes into them. */
  datatype Hashes = Hashes(
    identity: Payment -> string,
    reconciliation: (Payment, Record) -> string,
    combined: (string, string) -> string,
    evidence: Evidence -> string,
    registration: (string, bool, int, Option<int>) -> string)

  datatype ProviderState =
    | Available | Controlled | BlockedEnvState | Unauthorized | Forbidden | NotFoundOrUnauthorizedState | ConflictState
    | RateLimitedState | ServerUnavailableState | TimeoutState | ProviderUnknown | RevokedState

  datatype TransportError =
    | TransportUnauthorized | TransportForbidden | NotFoundOrUnauthorized | Conflict | RateLimited | ServerUnavailable
        | Timeout
    | NotFound | Network | Decode | ResponseTooLarge | InvalidConfiguration

  datatype ProviderError =
    | RegistrationRevoked | BlockedEnv | CredentialError | Transport(cause: TransportError)
    | InvalidRecord | MerchantMismatch | AccountMismatch | ReferenceMismatch | CurrencyMismatch | AmountMismatch
        | CustomerMismatch
    | SamePaymentReplacement | StatusRegression | InvalidStatusTransition
    | AlreadyRevoked | InvalidTime | RegistrationDigestMismatch | InvalidEvidence | ReadBackMismatch

  /** What the host answers during one call: the credential, and the payment link and session behind the transport. */
  datatype Host = Host(credential: Result<(), ProviderError>, link: Result<Record, TransportError>,
        session: Result<Record, TransportError>)

  datatype Provider = Provider(
    scope: Payment, official: bool, secretReference: string,
    active: bool, registrationRevision: int, revokedAt: Option<int>, registrationDigest: string,
    state: ProviderState, revision: int, lastIdentity: Option<string>, lastStatus: Option<Status>)

  function NewProvider(h: Hashes, scope: Payment, official: bool, secretReference: string): Provider {
    Provider(scope, official, secretReference, true, 1, None, h.registration(secretReference, true, 1, None),
             if official then Available else Controlled, 1, None, None)
  }

  predicate IsActive(p: Provider) {
    p.active && p.revokedAt.None? && !p.state.RevokedState?
  }

  /** The record names the payment of the scope; a missing customer is taken for the one of the scope. */
  predicate Describes(r: Record, scope: Payment) {
    && (r.customer.Some? ==> r.customer.value == scope.customer)
    && Payment(r.merchant, r.account, r.reference, r.amount, r.currency, scope.customer) == scope
  }

  /** `AdyenPaymentProjection::from_api`: the record must describe exactly the payment of the scope. */
  function FromApi(h: Hashes, r: Record, scope: Payment, revision: int): (x: Result<Projection, ProviderError>)
    ensures x.Ok? <==> r.wellFormed && Describes(r, scope)
    ensures x.Ok? ==>
              && x.value.payment == scope && x.value.status == r.status && x.value.resultCode == r.resultCode
              && x.value.instrument == r.instrument && x.value.createdAt == r.createdAt
                 && x.value.updatedAt == r.updatedAt
  {
    var customer := if r.customer.Some? then r.customer.value else scope.customer;
    var payment := Payment(r.merchant, r.account, r.reference, r.amount, r.currency, customer);
    if !r.wellFormed then Err(InvalidRecord)
    else if r.merchant != scope.merchant then Err(MerchantMismatch)
    else if r.account != scope.account then Err(AccountMismatch)
    else if r.reference != scope.reference then Err(ReferenceMismatch)
    else if r.currency != scope.currency then Err(CurrencyMismatch)
    else if r.amount != scope.amount then Err(AmountMismatch)
    else if payment.customer != scope.customer then Err(CustomerMismatch)
    else Ok(Projection(payment, r.status, r.resultCode, r.instrument, r.createdAt, r.updatedAt,
        h.reconciliation(payment, r), revision))
  }

  function StateAfterTransportError(state: ProviderState, e: TransportError): ProviderState {
    match e
    case TransportUnauthorized => Unauthorized
    case TransportForbidden => Forbidden
    case NotFoundOrUnauthorized => NotFoundOrUnauthorizedState
    case Conflict => ConflictState
    case RateLimited => RateLimitedState
    case ServerUnavailable => ServerUnavailableState
    case Timeout => TimeoutState
    case _ => state
  }

  /** `ensure_status_transition`. */
  function Transition(last: Option<Status>, next: Status): Option<ProviderError> {
    match last
    case None => None
    case Some(previous) =>
      if next != previous && Rank(next) < Rank(previous) then Some(StatusRegression)
      else if IsTerminal(previous) && next != previous then Some(InvalidStatusTransition)
      else None
  }

  /** `read_projection` of one response: the provider afterwards, and the outcome. */
  function ReadProjection(h: Hashes, p: Provider, credential: Result<(), ProviderError>,
        response: Result<Record, TransportError>)
    : (Provider, Result<Projection, ProviderError>)
  {
    if !IsActive(p) then (p, Err(RegistrationRevoked))
    else if credential.Err? then (if credential.error.BlockedEnv? then p.(state := BlockedEnvState)
        else p, Err(credential.error))
    else if response.Err? then (p.(state := StateAfterTransportError(p.state, response.error)),
        Err(Transport(response.error)))
    else
      match FromApi(h, response.value, p.scope, p.revision)
      case Err(e) => (p, Err(e))
      case Ok(x) => Accept(h, p, x)
  }

  /** `ensure_identity`, then `ensure_status_transition`. */
  function Accept(h: Hashes, p: Provider, x: Projection): (Provider, Result<Projection, ProviderError>) {
    var identity := h.identity(x.payment);
    if p.lastIdentity.Some? && p.lastIdentity.value != identity then
      (p.(state := ProviderUnknown), Err(SamePaymentReplacement))
    else
      var known := p.(lastIdentity := Some(identity));
      match Transition(p.lastStatus, x.status)
      case Some(e) => (known.(state := ProviderUnknown), Err(e))
      case None =>
        (known.(lastStatus := Some(x.status),
                state := if !p.official then Controlled else if x.status.Unknown? then ProviderUnknown else Available),
         Ok(x))
  }

  /** The session projection with the link's payment instrument and creation time. */
  function Combine(h: Hashes, link: Projection, session: Projection): Projection {
    session.(instrument := link.instrument, createdAt := link.createdAt,
             reconciliationDigest := h.combined(link.reconciliationDigest, session.reconciliationDigest))
  }

  /** `read_evidence`. */
  function ReadEvidence(h: Hashes, p: Provider, host: Host): (Provider, Result<Evidence, ProviderError>) {
    var (p1, link) := ReadProjection(h, p, host.credential, host.link);
    if link.Err? then (p1, Err(link.error))
    else
      var (p2, session) := ReadProjection(h, p1, host.credential, host.session);
      if session.Err? then (p2, Err(session.error))
      else if link.value.payment != session.value.payment then (p2, Err(SamePaymentReplacement))
      else (p2, Ok(Evidence(Combine(h, link.value, session.value), p2.registrationDigest, p2.revision)))
  }

  /** `read_back_and_verify`, for evidence that is itself valid. */
  function ReadBack(h: Hashes, p: Provider, host: Host, first: Evidence): (Provider, Result<Evidence, ProviderError>) {
    if !IsActive(p) then (p, Err(RegistrationRevoked))
    else
      var (p', second) := ReadEvidence(h, p, host);
      if second.Err? then (p', second)
      else if h.evidence(first) == h.evidence(second.value)
           && first.payment.reconciliationDigest == second.value.payment.reconciliationDigest then (p', second)
      else (p', Err(ReadBackMismatch))
  }

  /** `revoke`. */
  function Revoke(h: Hashes, p: Provider, at: int): (Provider, Result<(), ProviderError>) {
    if !(p.active && p.revokedAt.None?) then (p, Err(AlreadyRevoked))
    else if at <= 0 then (p, Err(InvalidTime))
    else
      var revision := if p.registrationRevision < U64_MAX then p.registrationRevision + 1 else p.registrationRevision;
      (p.(active := false, revokedAt := Some(at), registrationRevision := revision,
          registrationDigest := h.registration(p.secretReference, false, revision, Some(at)),
          state := RevokedState, revision := if p.revision < U64_MAX then p.revision + 1 else p.revision),
       Ok(()))
  }

  /**
   * Receipts, proposals and their verification are refused alike unless the provider is active and issued the
   * evidence.
   */
  function UseEvidence(p: Provider, e: Evidence): Result<(), ProviderError> {
    if !IsActive(p) then Err(RegistrationRevoked)
    else if e.registrationDigest != p.registrationDigest then Err(RegistrationDigestMismatch)
    else Ok(())
  }

  class AdyenPaymentsProvider {
    const h: Hashes
    const scope: Payment
    const official: bool
    const secretReference: string
    var active: bool
    var registrationRevision: int
    var revokedAt: Option<int>
    var registrationDigest: string
    var state: ProviderState
    var revision: int
    var lastIdentity: Option<string>
    var lastStatus: Option<Status>

    function View(): Provider
      reads this
    {
      Provider(scope, official, secretReference, active, registrationRevision, revokedAt, registrationDigest,
               state, revision, lastIdentity, lastStatus)
    }

    constructor (h: Hashes, scope: Payment, official: bool, secretReference: string)
      ensures this.h == h && View() == NewProvider(h, scope, official, secretReference)
    {
      this.h, this.scope, this.official, this.secretReference := h, scope, official, secretReference;
      active, registrationRevision, revokedAt := true, 1, None;
      registrationDigest := h.registration(secretReference, true, 1, None);
      state := if official then Available else Controlled;
      revision, lastIdentity, lastStatus := 1, None, None;
    }

    method EnsureIdentity(x: Projection) returns (ok: bool)
      modifies this`state, this`lastIdentity
      ensures ok <==> old(lastIdentity) in {None, Some(h.identity(x.payment))}
      ensures if ok then state == old(state) && lastIdentity == Some(h.identity(x.payment))
              else state == ProviderUnknown && lastIdentity == old(lastIdentity)
    {
      var identity := h.identity(x.payment);
      if lastIdentity.Some? && lastIdentity.value != identity {
        state := ProviderUnknown;
        return false;
      }
      lastIdentity := Some(identity);
      return true;
    }

    method EnsureStatusTransition(next: Status) returns (problem: Option<ProviderError>)
      modifies this`state, this`lastStatus
      ensures problem == Transition(old(lastStatus), next)
      ensures if problem.None? then state == old(state) && lastStatus == Some(next)
              else state == ProviderUnknown && lastStatus == old(lastStatus)
    {
      if lastStatus.Some? {
        var previous := lastStatus.value;
        if next != previous && Rank(next) < Rank(previous) {
          state := ProviderUnknown;
          return Some(StatusRegression);
        }
        if IsTerminal(previous) && next != previous {
          state := ProviderUnknown;
          return Some(InvalidStatusTransition);
        }
      }
      lastStatus := Some(next);
      return None;
    }

    method Read(credential: Result<(), ProviderError>,
        response: Result<Record, TransportError>)
          returns (r: Result<Projection, ProviderError>)
      modifies this`state, this`lastIdentity, this`lastStatus
      ensures (View(), r) == old(ReadProjection(h, View(), credential, response))
    {
      if !IsActive(View()) {
        return Err(RegistrationRevoked);
      }
      if credential.Err? {
        if credential.error.BlockedEnv? {
          state := BlockedEnvState;
        }
        return Err(credential.error);
      }
      if response.Err? {
        state := StateAfterTransportError(state, response.error);
        return Err(Transport(response.error));
      }
      r := FromApi(h, response.value, scope, revision);
      if r.Err? {
        return r;
      }
      var same := EnsureIdentity(r.value);
      if !same {
        return Err(SamePaymentReplacement);
      }
      var problem := EnsureStatusTransition(r.value.status);
      if problem.Some? {
        return Err(problem.value);
      }
      state := if !official then Controlled else if r.value.status.Unknown? then ProviderUnknown else Available;
    }

    method ReadPaymentEvidence(host: Host) returns (r: Result<Evidence, ProviderError>)
      modifies this`state, this`lastIdentity, this`lastStatus
      ensures (View(), r) == old(ReadEvidence(h, View(), host))
    {
      var link := Read(host.credential, host.link);
      if link.Err? {
        return Err(link.error);
      }
      var session := Read(host.credential, host.session);
      if session.Err? {
        return Err(session.error);
      }
      if link.value.payment != session.value.payment {
        return Err(SamePaymentReplacement);
      }
      return Ok(Evidence(Combine(h, link.value, session.value), registrationDigest, revision));
    }

    method ReadBackAndVerify(host: Host, first: Evidence) returns (r: Result<Evidence, ProviderError>)
      modifies this`state, this`lastIdentity, this`lastStatus
      ensures (View(), r) == old(ReadBack(h, View(), host, first))
    {
      if !IsActive(View()) {
        return Err(RegistrationRevoked);
      }
      r := ReadPaymentEvidence(host);
      if r.Ok? && !(h.evidence(first) == h.evidence(r.value)
                    && first.payment.reconciliationDigest == r.value.payment.reconciliationDigest) {
        return Err(ReadBackMismatch);
      }
    }

    method RevokeRegistration(at: int) returns (r: Result<(), ProviderError>)
      modifies this
      ensures (View(), r) == old(Revoke(h, View(), at))
    {
      if !(active && revokedAt.None?) {
        return Err(AlreadyRevoked);
      }
      if at <= 0 {
        return Err(InvalidTime);
      }
      active, revokedAt := false, Some(at);
      if registrationRevision < U64_MAX {
        registrationRevision := registrationRevision + 1;
      }
      registrationDigest := h.registration(secretReference, false, registrationRevision, revokedAt);
      state := RevokedState;
      if revision < U64_MAX {
        revision := revision + 1;
      }
      return Ok(());
    }
  }
}
