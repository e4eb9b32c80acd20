/** The hash-chained, append-only governance ledger. */
module GovernanceLedger {
  import opened Wrappers
  import opened LineText

  const EVENT_SCHEMA := "hartevo-throughput-event/v1"
  const ZERO_DIGEST := Zeros(64)

  function Zeros(n: nat): string {
    if n == 0 then "" else Zeros(n - 1) + "0"
  }

  datatype Kind =
    | LeaseStarted | LeaseHeartbeat | LeasePaused | LeaseTerminal | RepairTerminal | ReviewTerminal
    | TrainOpened | TrainTerminal | Merged | GlobalPaused | GlobalResumed | GovernanceModeChanged | Unsupported

  /** What an event says; `extra` stands for the payload and any further members. */
  datatype Body = Body(
    schema: string, eventId: string, occurredAt: string, kind: Kind,
    pr: Option<int>, baseSha: Option<string>, headSha: Option<string>, actorTaskId: string, extra: string)

  datatype Event = Event(body: Body, previousDigest: string, digest: string)

  /**
   * What the ledger takes from elsewhere: the digest of an event without its own digest, the instant a timestamp
   * denotes, and the JSON codec for one line.
   */
  datatype Scheme = Scheme(
    hash: (Body, string) -> string,
    time: string -> Option<int>,
    decode: string -> Option<Event>,
    encode: Event -> string)

  /** `validate_event`. */
  predicate ValidBody(z: Scheme, b: Body) {
    && b.schema == EVENT_SCHEMA && b.eventId != "" && z.time(b.occurredAt).Some? && !b.kind.Unsupported?
    && (match b.pr
        case Some(n) => n > 0 && b.baseSha.Some? && b.headSha.Some? && IsHex(b.baseSha.value, 40)
            && IsHex(b.headSha.value, 40)
        case None => b.baseSha.None? && b.headSha.None?)
    && b.actorTaskId != ""
  }

  predicate Sealed(z: Scheme, e: Event) {
    ValidBody(z, e.body) && IsHex(e.digest, 64) && z.hash(e.body, e.previousDigest) == e.digest
  }

  predicate AllSealed(z: Scheme, events: seq<Event>) {
    forall i :: 0 <= i < |events| ==> Sealed(z, events[i])
  }

  function DigestBefore(events: seq<Event>, i: nat): string
    requires i <= |events|
  {
    if i == 0 then ZERO_DIGEST else events[i - 1].digest
  }

  predicate Linked(events: seq<Event>) {
    forall i {:trigger DigestBefore(events, i)} :: 0 <= i < |events| ==>
        events[i].previousDigest == DigestBefore(events, i)
  }

  predicate FreshId(events: seq<Event>, id: string) {
    forall i :: 0 <= i < |events| ==> events[i].body.eventId != id
  }

  predicate DistinctIds(events: seq<Event>) {
    forall i, j :: 0 <= i < j < |events| ==> events[i].body.eventId != events[j].body.eventId
  }

  predicate InTimeOrder(z: Scheme, events: seq<Event>) {
    forall i, j :: 0 <= i < j < |events| ==> Time(z, events[i]) <= Time(z, events[j])
  }

  predicate NotBeforeLast(z: Scheme, events: seq<Event>, e: Event) {
    events != [] ==> Time(z, events[|events| - 1]) <= Time(z, e)
  }

  /** Events chained by digest from the zero digest, with distinct ids and times that never move back. */
  predicate ValidChain(z: Scheme, events: seq<Event>) {
    AllSealed(z, events) && Linked(events) && DistinctIds(events) && InTimeOrder(z, events)
  }

  function Time(z: Scheme, e: Event): int {
    match z.time(e.body.occurredAt) case Some(t) => t case None => 0
  }

  /** The events on the non-blank lines, or nothing when some line does not decode. */
  function DecodeAll(z: Scheme, lines: seq<string>): Option<seq<Event>>
    decreases |lines|
  {
    if lines == [] then Some([])
    else
      var line := lines[|lines| - 1];
      match DecodeAll(z, lines[..|lines| - 1])
      case None => None
      case Some(events) =>
        if Blank(line) then Some(events)
        else match z.decode(line) case None => None case Some(e) => Some(events + [e])
  }

  predicate IsLedger(z: Scheme, text: string, events: seq<Event>) {
    DecodeAll(z, SplitLines(text)) == Some(events) && ValidChain(z, events) && events != []
  }

  lemma LinkedSnoc(events: seq<Event>, e: Event)
    ensures Linked(events + [e]) <==> Linked(events) && e.previousDigest == DigestBefore(events, |events|)
  {
    var all := events + [e];
    assert all[|events|] == e;
    assert forall i :: 0 <= i < |events| ==> all[i] == events[i];
    assert forall i :: 0 <= i <= |events| ==> DigestBefore(all, i) == DigestBefore(events, i);
  }

  lemma OrderSnoc(z: Scheme, events: seq<Event>, e: Event)
    ensures InTimeOrder(z, events + [e]) <==> InTimeOrder(z, events) && NotBeforeLast(z, events, e)
    ensures DistinctIds(events + [e]) <==> DistinctIds(events) && FreshId(events, e.body.eventId)
    ensures AllSealed(z, events + [e]) <==> AllSealed(z, events) && Sealed(z, e)
  {
    var all := events + [e];
    assert all[|events|] == e;
    assert forall i :: 0 <= i < |events| ==> all[i] == events[i];
  }

  /** What one more event must satisfy. */
  predicate MayFollow(z: Scheme, events: seq<Event>, e: Event) {
    && Sealed(z, e) && e.previousDigest == DigestBefore(events, |events|)
    && FreshId(events, e.body.eventId) && NotBeforeLast(z, events, e)
  }

  lemma ValidChainSnoc(z: Scheme, events: seq<Event>, e: Event)
    ensures ValidChain(z, events + [e]) <==> ValidChain(z, events) && MayFollow(z, events, e)
  {
    LinkedSnoc(events, e);
    OrderSnoc(z, events, e);
  }

  lemma ValidChainPrefix(z: Scheme, events: seq<Event>, n: nat)
    requires ValidChain(z, events) && n <= |events|
    ensures ValidChain(z, events[..n])
  {
    assert forall i :: 0 <= i < n ==> events[..n][i] == events[i];
    assert forall i :: 0 <= i <= n ==> DigestBefore(events[..n], i) == DigestBefore(events, i);
  }

  lemma {:induction false} DecodePrefix(z: Scheme, lines: seq<string>, n: nat)
    requires n <= |lines| && DecodeAll(z, lines).Some?
    ensures DecodeAll(z, lines[..n]).Some? && DecodeAll(z, lines[..n]).value <= DecodeAll(z, lines).value
    decreases |lines|
  {
    if n < |lines| {
      var m := |lines| - 1;
      assert lines[..m][..n] == lines[..n];
      DecodePrefix(z, lines[..m], n);
    } else {
      assert lines[..n] == lines;
    }
  }

  datatype LedgerError = BadJson | BadEvent | DuplicateId | BrokenChain | DigestMismatch | TimeMovesBack | Empty
                       | NoBoundary | PrefixRewritten | NoFinalNewline | BadPreviousDigest

  ghost predicate IsIdSet(events: seq<Event>, identifiers: set<string>) {
    forall id :: id in identifiers <==> !FreshId(events, id)
  }

  lemma IdSetSnoc(events: seq<Event>, identifiers: set<string>, e: Event)
    requires IsIdSet(events, identifiers)
    ensures IsIdSet(events + [e], identifiers + {e.body.eventId})
  {
    var all := events + [e];
    assert all[|events|] == e;
    forall id ensures FreshId(all, id) <==> FreshId(events, id) && id != e.body.eventId
    {
      assert forall i :: 0 <= i < |events| ==> all[i] == events[i];
    }
  }

  function LastTime(z: Scheme, events: seq<Event>): Option<int> {
    if events == [] then None else Some(Time(z, events[|events| - 1]))
  }

  lemma LastSnoc(z: Scheme, events: seq<Event>, e: Event)
    ensures LastTime(z, events + [e]) == Some(Time(z, e)) && DigestBefore(events + [e], |events| + 1) == e.digest
  {
  }

  /** Where the loop of `parse_ledger_text` stands after `n` lines. */
  ghost predicate ParsedSoFar(z: Scheme, lines: seq<string>, n: nat, events: seq<Event>)
    requires n <= |lines|
  {
    DecodeAll(z, lines[..n]) == Some(events) && ValidChain(z, events)
  }

  /** What the loop remembers of the events so far. */
  ghost predicate Remembers(
      z: Scheme, events: seq<Event>, previous: string, previousTime: Option<int>, identifiers: set<string>)
  {
    previous == DigestBefore(events, |events|) && IsIdSet(events, identifiers) && previousTime == LastTime(z, events)
  }

  lemma RememberNext(
      z: Scheme, events: seq<Event>, previous: string, previousTime: Option<int>, identifiers: set<string>, e: Event)
    requires Remembers(z, events, previous, previousTime, identifiers)
    ensures CheckNext(z, previous, previousTime, identifiers, e).None? <==> MayFollow(z, events, e)
    ensures Remembers(z, events + [e], e.digest, Some(Time(z, e)), identifiers + {e.body.eventId})
  {
    IdSetSnoc(events, identifiers, e);
    LastSnoc(z, events, e);
  }

  lemma ParseNext(z: Scheme, lines: seq<string>, n: nat, events: seq<Event>, e: Event)
    requires n < |lines| && ParsedSoFar(z, lines, n, events) && !Blank(lines[n]) && z.decode(lines[n]) == Some(e)
    ensures if MayFollow(z, events, e) then ParsedSoFar(z, lines, n + 1, events + [e])
            else forall all :: DecodeAll(z, lines) == Some(all) ==> !ValidChain(z, all)
  {
    DecodeSnoc(z, lines, n);
    ValidChainSnoc(z, events, e);
    if !MayFollow(z, events, e) { NotExtended(z, lines, n, events, e); }
  }

  /** `parse_ledger_text`. */
  method ParseLedger(z: Scheme, text: string) returns (r: Result<seq<Event>, LedgerError>)
    ensures r.Ok? ==> IsLedger(z, text, r.value)
    ensures r.Err? ==> forall events :: !IsLedger(z, text, events)
  {
    var lines := SplitLines(text);
    var events: seq<Event> := [];
    var previous := ZERO_DIGEST;
    var previousTime: Option<int> := None;
    var identifiers: set<string> := {};
    for n := 0 to |lines|
      invariant ParsedSoFar(z, lines, n, events) && Remembers(z, events, previous, previousTime, identifiers)
    {
      if Blank(lines[n]) {
        DecodeSnoc(z, lines, n);
        continue;
      }
      var event := z.decode(lines[n]);
      if event.None? {
        DecodeSnoc(z, lines, n);
        Refuted(z, lines, n);
        return Err(BadJson);
      }
      var e := event.value;
      RememberNext(z, events, previous, previousTime, identifiers, e);
      ParseNext(z, lines, n, events, e);
      var problem := CheckNext(z, previous, previousTime, identifiers, e);
      if problem.Some? {
        return Err(problem.value);
      }
      identifiers := identifiers + {e.body.eventId};
      previous, previousTime, events := e.digest, Some(Time(z, e)), events + [e];
    }
    assert lines[..|lines|] == lines;
    if events == [] {
      return Err(Empty);
    }
    return Ok(events);
  }

  lemma DecodeSnoc(z: Scheme, lines: seq<string>, n: nat)
    requires n < |lines|
    ensures DecodeAll(z, lines[..n + 1]) ==
            match DecodeAll(z, lines[..n])
            case None => None
            case Some(events) =>
              if Blank(lines[n]) then Some(events)
              else match z.decode(lines[n]) case None => None case Some(e) => Some(events + [e])
  {
    assert lines[..n + 1][..n] == lines[..n];
  }

  function CheckNext(z: Scheme, previous: string, previousTime: Option<int>, identifiers: set<string>,
        e: Event): (r: Option<LedgerError>)
    ensures r.None? <==>
            Sealed(z, e) && e.previousDigest == previous && e.body.eventId !in identifiers
            && (previousTime.Some? ==> previousTime.value <= Time(z, e))
  {
    if !ValidBody(z, e.body) then Some(BadEvent)
    else if e.body.eventId in identifiers then Some(DuplicateId)
    else if e.previousDigest != previous then Some(BrokenChain)
    else if !IsHex(e.digest, 64) || z.hash(e.body, e.previousDigest) != e.digest then Some(DigestMismatch)
    else if previousTime.Some? && Time(z, e) < previousTime.value then Some(TimeMovesBack)
    else None
  }

  lemma Refuted(z: Scheme, lines: seq<string>, n: nat)
    requires n < |lines| && DecodeAll(z, lines[..n + 1]).None?
    ensures DecodeAll(z, lines).None?
  {
    if DecodeAll(z, lines).Some? {
      DecodePrefix(z, lines, n + 1);
    }
  }

  lemma NotExtended(z: Scheme, lines: seq<string>, n: nat, events: seq<Event>, e: Event)
    requires n < |lines| && DecodeAll(z, lines[..n + 1]) == Some(events + [e]) && !ValidChain(z, events + [e])
    ensures forall all :: DecodeAll(z, lines) == Some(all) ==> !ValidChain(z, all)
  {
    if DecodeAll(z, lines).Some? {
      DecodePrefix(z, lines, n + 1);
      InvalidPrefix(z, events + [e], DecodeAll(z, lines).value);
    }
  }

  lemma InvalidPrefix(z: Scheme, events: seq<Event>, all: seq<Event>)
    requires events <= all && !ValidChain(z, events)
    ensures !ValidChain(z, all)
  {
    assert all[..|events|] == events;
    if ValidChain(z, all) {
      ValidChainPrefix(z, all, |events|);
    }
  }

  /** What `verify_ledger_append_only` accepts. */
  ghost predicate AppendOnly(z: Scheme, baseText: string, headText: string) {
    && (exists events :: IsLedger(z, baseText, events))
    && (exists events :: IsLedger(z, headText, events))
    && (headText == baseText || (EndsWithNewline(baseText) && baseText <= headText && EndsWithNewline(headText)))
  }

  method VerifyAppendOnly(z: Scheme, baseText: string, headText: string) returns (r: Result<seq<Event>, LedgerError>)
    ensures r.Ok? <==> AppendOnly(z, baseText, headText)
    ensures r.Ok? ==> IsLedger(z, headText, r.value)
  {
    var base := ParseLedger(z, baseText);
    if base.Err? {
      return Err(base.error);
    }
    var head := ParseLedger(z, headText);
    if head.Err? {
      return Err(head.error);
    }
    if headText != baseText {
      if !EndsWithNewline(baseText) {
        return Err(NoBoundary);
      }
      if !(baseText <= headText) {
        return Err(PrefixRewritten);
      }
      if !EndsWithNewline(headText) {
        return Err(NoFinalNewline);
      }
    }
    return head;
  }

  /** An event as it is handed in: schema, id and time may be missing. */
  datatype Draft = Draft(schema: Option<string>, eventId: Option<string>, occurredAt: Option<string>, rest: Body)

  /** What `seal_event` takes for missing members: the schema, a new id and the current time. */
  datatype Defaults = Defaults(eventId: string, now: string)

  function Filled(given: Option<string>, default: string): string {
    if given.Some? then given.value else default
  }

  function Complete(d: Draft, defaults: Defaults): Body {
    d.rest.(schema := Filled(d.schema, EVENT_SCHEMA),
            eventId := Filled(d.eventId, defaults.eventId),
            occurredAt := Filled(d.occurredAt, defaults.now))
  }

  /** `seal_event`. */
  function Seal(z: Scheme, d: Draft, defaults: Defaults, previousDigest: string): (r: Result<Event, LedgerError>)
    ensures r.Ok? <==> IsHex(previousDigest, 64) && ValidBody(z, Complete(d, defaults))
    ensures r.Ok? ==> r.value.body == Complete(d, defaults) && r.value.previousDigest == previousDigest
    ensures r.Ok? && IsHex(r.value.digest, 64) ==> Sealed(z, r.value)
  {
    var body := Complete(d, defaults);
    if !IsHex(previousDigest, 64) then Err(BadPreviousDigest)
    else if !ValidBody(z, body) then Err(BadEvent)
    else Ok(Event(body, previousDigest, z.hash(body, previousDigest)))
  }

  /** `global_paused`: the latest pause or resume decides; without one there is no answer. */
  function GlobalState(events: seq<Event>): Option<bool>
    decreases |events|
  {
    if events == [] then None
    else if events[|events| - 1].body.kind.GlobalPaused? then Some(true)
    else if events[|events| - 1].body.kind.GlobalResumed? then Some(false)
    else GlobalState(events[..|events| - 1])
  }

  /** The ledger file. */
  class LedgerFile {
    var text: string

    constructor (text: string)
      ensures this.text == text
    {
      this.text := text;
    }

    /** `append_event`: the file must parse, and the event is sealed onto the last digest. */
    method AppendEvent(z: Scheme, d: Draft, defaults: Defaults) returns (r: Result<Event, LedgerError>)
      modifies this
      ensures r.Ok? ==> exists events: seq<Event> ::
                IsLedger(z, old(text), events) && Seal(z, d, defaults, events[|events| - 1].digest) == r
                && text == old(text) + (z.encode(r.value) + "\n")
      ensures r.Err? ==> text == old(text)
      ensures r.Err? ==> !ValidBody(z, Complete(d, defaults)) || forall events :: !IsLedger(z, old(text), events)
    {
      var parsed := ParseLedger(z, text);
      if parsed.Err? {
        return Err(parsed.error);
      }
      r := Seal(z, d, defaults, parsed.value[|parsed.value| - 1].digest);
      assert Sealed(z, parsed.value[|parsed.value| - 1]);
      if r.Ok? {
        text := text + (z.encode(r.value) + "\n");
      }
    }
  }
}
