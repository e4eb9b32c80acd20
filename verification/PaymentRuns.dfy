/** What holds of a payments provider over whole runs of calls. */
module PaymentRuns {
  import opened Wrappers
  import opened PaymentProvider

  datatype Call =
    | ReadLink(host: Host)
    | ReadSession(host: Host)
    | ReadBoth(host: Host)
    | ReadAgain(host: Host, first: Evidence)
    | Use(evidence: Evidence)
    | RevokeAt(at: int)

  /** The provider after a call, whether the call succeeded, and the statuses it accepted on the way. */
  datatype Effect = Effect(provider: Provider, ok: bool, accepted: seq<Status>)

  function OneRead(h: Hashes, p: Provider, credential: Result<(), ProviderError>,
        response: Result<Record, TransportError>): Effect {
    var (p', r) := ReadProjection(h, p, credential, response);
    Effect(p', r.Ok?, if r.Ok? then [r.value.status] else [])
  }

  /** The statuses a link read followed by a session read accepts. */
  function TwoReads(h: Hashes, p: Provider, host: Host): Effect {
    var link := OneRead(h, p, host.credential, host.link);
    if !link.ok then link
    else
      var session := OneRead(h, link.provider, host.credential, host.session);
      Effect(session.provider, session.ok, link.accepted + session.accepted)
  }

  function EffectOf(h: Hashes, p: Provider, call: Call): Effect {
    match call
    case ReadLink(host) => OneRead(h, p, host.credential, host.link)
    case ReadSession(host) => OneRead(h, p, host.credential, host.session)
    case ReadBoth(host) => var (p', r) := ReadEvidence(h, p, host); Effect(p', r.Ok?, TwoReads(h, p, host).accepted)
    case ReadAgain(host, first) =>
        var (p', r) := ReadBack(h, p, host, first); Effect(p', r.Ok?, TwoReads(h, p, host).accepted)
    case Use(e) => Effect(p, UseEvidence(p, e).Ok?, [])
    case RevokeAt(at) => var (p', r) := Revoke(h, p, at); Effect(p', r.Ok?, [])
  }

  function Run(h: Hashes, p: Provider, calls: seq<Call>): Effect
    decreases |calls|
  {
    if calls == [] then Effect(p, true, [])
    else
      var before := Run(h, p, calls[..|calls| - 1]);
      var last := EffectOf(h, before.provider, calls[|calls| - 1]);
      Effect(last.provider, last.ok, before.accepted + last.accepted)
  }

  /** Received*, then Pending*, then one terminal or unknown status for ever. */
  ghost predicate InOrder(log: seq<Status>) {
    forall i, j :: 0 <= i < j < |log| ==> Rank(log[i]) <= Rank(log[j]) && (Rank(log[i]) >= 2 ==> log[j] == log[i])
  }

  ghost predicate Tracks(p: Provider, log: seq<Status>) {
    InOrder(log) && p.lastStatus == if log == [] then None else Some(log[|log| - 1])
  }

  lemma ReadKeepsOrder(h: Hashes, p: Provider, credential: Result<(), ProviderError>,
        response: Result<Record, TransportError>, log: seq<Status>)
    requires Tracks(p, log)
    ensures
      var e := OneRead(h, p, credential, response);
      Tracks(e.provider, log + e.accepted)
  {
    var e := OneRead(h, p, credential, response);
    assert log + [] == log;
    if e.ok {
      assert Transition(p.lastStatus, e.accepted[0]).None?;
      OrderSnoc(log, e.accepted[0]);
    }
  }

  lemma OrderSnoc(log: seq<Status>, next: Status)
    requires InOrder(log) && Transition(if log == [] then None else Some(log[|log| - 1]), next).None?
    ensures InOrder(log + [next])
  {
    var longer := log + [next];
    forall i, j | 0 <= i < j < |longer|
      ensures Rank(longer[i]) <= Rank(longer[j]) && (Rank(longer[i]) >= 2 ==> longer[j] == longer[i])
    {
      if j == |log| && i < |log| - 1 {
        assert Rank(log[i]) <= Rank(log[|log| - 1]);
      }
    }
  }

  lemma TwoReadsKeepOrder(h: Hashes, p: Provider, host: Host, log: seq<Status>)
    requires Tracks(p, log)
    ensures
      var e := TwoReads(h, p, host);
      Tracks(e.provider, log + e.accepted) && e.provider == ReadEvidence(h, p, host).0
  {
    var link := OneRead(h, p, host.credential, host.link);
    ReadKeepsOrder(h, p, host.credential, host.link, log);
    if link.ok {
      var session := OneRead(h, link.provider, host.credential, host.session);
      ReadKeepsOrder(h, link.provider, host.credential, host.session, log + link.accepted);
      assert log + (link.accepted + session.accepted) == log + link.accepted + session.accepted;
    }
  }

  lemma CallKeepsOrder(h: Hashes, p: Provider, call: Call, log: seq<Status>)
    requires Tracks(p, log)
    ensures
      var e := EffectOf(h, p, call);
      Tracks(e.provider, log + e.accepted)
  {
    assert log + [] == log;
    match call
    case ReadLink(host) => ReadKeepsOrder(h, p, host.credential, host.link, log);
    case ReadSession(host) => ReadKeepsOrder(h, p, host.credential, host.session, log);
    case ReadBoth(host) => TwoReadsKeepOrder(h, p, host, log);
    case ReadAgain(host, first) => TwoReadsKeepOrder(h, p, host, log);
    case Use(_) =>
    case RevokeAt(_) =>
  }

  /** Over every run of calls, failed ones included, the accepted statuses are in order. */
  lemma {:induction false} AcceptedStatusesInOrder(h: Hashes, scope: Payment, official: bool, secret: string,
        calls: seq<Call>)
    ensures
      var e := Run(h, NewProvider(h, scope, official, secret), calls);
      Tracks(e.provider, e.accepted)
    decreases |calls|
  {
    if calls != [] {
      var n := |calls| - 1;
      var p := NewProvider(h, scope, official, secret);
      AcceptedStatusesInOrder(h, scope, official, secret, calls[..n]);
      var before := Run(h, p, calls[..n]);
      CallKeepsOrder(h, before.provider, calls[n], before.accepted);
    }
  }

  lemma {:induction false} StaysRevoked(h: Hashes, p: Provider, calls: seq<Call>)
    requires !p.active
    ensures !Run(h, p, calls).provider.active && (calls != [] ==> !Run(h, p, calls).ok)
    decreases |calls|
  {
    if calls != [] {
      StaysRevoked(h, p, calls[..|calls| - 1]);
    }
  }

  lemma {:induction false} RunConcat(h: Hashes, p: Provider, a: seq<Call>, b: seq<Call>)
    requires b != []
    ensures Run(h, p, a + b).provider == Run(h, Run(h, p, a).provider, b).provider
    ensures Run(h, p, a + b).ok == Run(h, Run(h, p, a).provider, b).ok
    decreases |b|
  {
    var n := |b| - 1;
    assert (a + b)[..|a| + n] == a + b[..n] && (a + b)[|a| + n] == b[n];
    if n > 0 {
      RunConcat(h, p, a, b[..n]);
    } else {
      assert a + b[..n] == a;
    }
  }

  /** After a successful revocation no read, receipt, proposal, verification or second revocation ever succeeds. */
  lemma NothingSucceedsAfterRevoke(h: Hashes, p: Provider, before: seq<Call>, at: int, after: seq<Call>)
    requires Run(h, p, before + [RevokeAt(at)]).ok && after != []
    ensures !Run(h, p, before + [RevokeAt(at)] + after).ok
  {
    var revoked := before + [RevokeAt(at)];
    assert revoked[..|before|] == before;
    RunConcat(h, p, revoked, after);
    StaysRevoked(h, Run(h, p, revoked).provider, after);
  }

  /** The payment seen is always that of the scope. */
  ghost predicate SeesScope(h: Hashes, p: Provider) {
    p.lastIdentity.None? || p.lastIdentity == Some(h.identity(p.scope))
  }

  lemma ReadSeesScope(h: Hashes, p: Provider, credential: Result<(), ProviderError>,
        response: Result<Record, TransportError>)
    requires SeesScope(h, p)
    ensures
      var p' := ReadProjection(h, p, credential, response).0;
      SeesScope(h, p') && p'.scope == p.scope
  {
  }

  lemma CallSeesScope(h: Hashes, p: Provider, call: Call)
    requires SeesScope(h, p)
    ensures SeesScope(h, EffectOf(h, p, call).provider) && EffectOf(h, p, call).provider.scope == p.scope
  {
    if call.ReadLink? || call.ReadSession? || call.ReadBoth? || call.ReadAgain? {
      ReadSeesScope(h, p, call.host.credential, call.host.link);
      ReadSeesScope(h, p, call.host.credential, call.host.session);
      ReadSeesScope(h, ReadProjection(h, p, call.host.credential, call.host.link).0, call.host.credential,
          call.host.session);
    }
  }

  lemma {:induction false} RunSeesScope(h: Hashes, p: Provider, calls: seq<Call>)
    requires SeesScope(h, p)
    ensures SeesScope(h, Run(h, p, calls).provider) && Run(h, p, calls).provider.scope == p.scope
    decreases |calls|
  {
    if calls != [] {
      var n := |calls| - 1;
      RunSeesScope(h, p, calls[..n]);
      CallSeesScope(h, Run(h, p, calls[..n]).provider, calls[n]);
    }
  }

  /** With one scope the replacement checks never fire: a foreign payment is refused earlier, by name. */
  lemma ReplacementIsUnreachable(h: Hashes, scope: Payment, official: bool, secret: string, calls: seq<Call>,
        host: Host, first: Evidence)
    requires host.credential != Err(SamePaymentReplacement)
    ensures
      var p := Run(h, NewProvider(h, scope, official, secret), calls).provider;
      && ReadEvidence(h, p, host).1 != Err(SamePaymentReplacement)
      && ReadBack(h, p, host, first).1 != Err(SamePaymentReplacement)
  {
    RunSeesScope(h, NewProvider(h, scope, official, secret), calls);
    EvidenceSeesScope(h, Run(h, NewProvider(h, scope, official, secret), calls).provider, host);
  }

  lemma EvidenceSeesScope(h: Hashes, p: Provider, host: Host)
    requires SeesScope(h, p) && host.credential != Err(SamePaymentReplacement)
    ensures ReadEvidence(h, p, host).1 != Err(SamePaymentReplacement)
  {
    ReadSeesScope(h, p, host.credential, host.link);
  }

  /**
   * Evidence is about the payment of the scope, with the session's status and the link's instrument, and the link is
   * never ahead of the session.
   */
  lemma EvidenceDescribesHost(h: Hashes, p: Provider, host: Host)
    requires ReadEvidence(h, p, host).1.Ok?
    ensures host.link.Ok? && host.session.Ok?
    ensures
      var x, link, session := ReadEvidence(h, p, host).1.value.payment, host.link.value, host.session.value;
      && x.payment == p.scope && x.status == session.status && x.resultCode == session.resultCode
         && x.updatedAt == session.updatedAt
      && x.instrument == link.instrument && x.createdAt == link.createdAt
      && Rank(link.status) <= Rank(session.status) && (IsTerminal(link.status) ==> session.status == link.status)
    ensures ReadEvidence(h, p, host).1.value.registrationDigest == p.registrationDigest
  {
    var (p1, link) := ReadProjection(h, p, host.credential, host.link);
    var (p2, session) := ReadProjection(h, p1, host.credential, host.session);
    assert p1.lastStatus == Some(link.value.status) && p1.scope == p.scope
        && p2.registrationDigest == p.registrationDigest;
  }

  /**
   * Reading evidence back over an unchanged host gives the same evidence exactly when link and session agree on the
   * status; otherwise it fails as a status regression, since the link shows the older status again.
   */
  lemma ReadBackIffStatusesAgree(h: Hashes, p: Provider, host: Host)
    requires SeesScope(h, p) && ReadEvidence(h, p, host).1.Ok?
    ensures
      var (p', first) := ReadEvidence(h, p, host);
      host.link.Ok? && host.session.Ok?
      && ReadBack(h, p', host, first.value).1 ==
         if host.link.value.status == host.session.value.status then first else Err(StatusRegression)
  {
    var (p1, link) := ReadProjection(h, p, host.credential, host.link);
    var (p2, session) := ReadProjection(h, p1, host.credential, host.session);
    assert Transition(Some(link.value.status), session.value.status).None?;
    var (p3, again) := ReadProjection(h, p2, host.credential, host.link);
    assert p3.scope == p.scope && p2.revision == p.revision;
    if link.value.status == session.value.status {
      assert again == link;
      var (p4, _) := ReadProjection(h, p3, host.credential, host.session);
    }
  }

  function SampleRecord(scope: Payment, status: Status): Record {
    Record(true, scope.merchant, scope.account, scope.reference, scope.amount, scope.currency, Some(scope.customer),
        status,
           None, None, None, None, None)
  }

  /** A pending link over an authorised session: the evidence is read, and reading it back fails. */
  lemma DisagreeingStatusesFailReadBack(h: Hashes, scope: Payment, official: bool, secret: string)
    ensures
      var p := NewProvider(h, scope, official, secret);
      var host := Host(Ok(()), Ok(SampleRecord(scope, Pending)), Ok(SampleRecord(scope, Authorised)));
      var (p', first) := ReadEvidence(h, p, host);
      first.Ok? && ReadBack(h, p', host, first.value).1 == Err(StatusRegression)
  {
    var p := NewProvider(h, scope, official, secret);
    var host := Host(Ok(()), Ok(SampleRecord(scope, Pending)), Ok(SampleRecord(scope, Authorised)));
    ReadBackIffStatusesAgree(h, p, host);
  }
}
