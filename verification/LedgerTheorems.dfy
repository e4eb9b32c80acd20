/** What holds of the ledger across updates. */
module LedgerTheorems {
  import opened Wrappers
  import opened Sequences
  import opened LineText
  import opened GovernanceLedger

  lemma {:induction false} DecodeConcat(z: Scheme, a: seq<string>, b: seq<string>)
    ensures DecodeAll(z, a + b) ==
            match (DecodeAll(z, a), DecodeAll(z, b))
            case (Some(x), Some(y)) => Some(x + y)
            case _ => None
    decreases |b|
  {
    if b == [] {
      assert a + b == a;
      if DecodeAll(z, a).Some? { assert DecodeAll(z, a).value + [] == DecodeAll(z, a).value; }
    } else {
      var n := |b| - 1;
      DecodeConcat(z, a, b[..n]);
      assert (a + b)[..|a| + n] == a + b[..n] && (a + b)[|a| + n] == b[n];
      if DecodeAll(z, a).Some? && DecodeAll(z, b[..n]).Some? && z.decode(b[n]).Some? {
        Associative(DecodeAll(z, a).value, DecodeAll(z, b[..n]).value, [z.decode(b[n]).value]);
      }
    }
  }

  /** An accepted update keeps every event of the ledger it starts from. */
  lemma AcceptedUpdateKeepsEvents(z: Scheme, baseText: string, headText: string, base: seq<Event>, head: seq<Event>)
    requires AppendOnly(z, baseText, headText)
    requires IsLedger(z, baseText, base) && IsLedger(z, headText, head)
    ensures base <= head
  {
    if headText != baseText {
      var added := headText[|baseText|..];
      assert baseText + added == headText;
      SplitAtBoundary(baseText, added);
      DecodeConcat(z, SplitLines(baseText), SplitLines(added));
    }
  }

  /** Along any run of accepted updates every earlier ledger is a prefix of every later one. */
  lemma {:induction false} UpdatesKeepEvents(z: Scheme, texts: seq<string>, ledgers: seq<seq<Event>>, i: nat, j: nat)
    requires |texts| == |ledgers| && i <= j < |texts|
    requires forall k :: 0 <= k < |texts| ==> IsLedger(z, texts[k], ledgers[k])
    requires forall k :: 0 < k < |texts| ==> AppendOnly(z, texts[k - 1], texts[k])
    ensures ledgers[i] <= ledgers[j]
    decreases j
  {
    if i < j {
      UpdatesKeepEvents(z, texts, ledgers, i, j - 1);
      AcceptedUpdateKeepsEvents(z, texts[j - 1], texts[j], ledgers[j - 1], ledgers[j]);
    }
  }

  /** Counted from their ends, `a` and `b` hold two different events with one digest `n` places back. */
  predicate CollideAt(a: seq<Event>, b: seq<Event>, n: nat) {
    n < |a| && n < |b| && a[|a| - 1 - n] != b[|b| - 1 - n] && a[|a| - 1 - n].digest == b[|b| - 1 - n].digest
  }

  /** `a` is longer than `b`, and its event just before the part as long as `b` has the zero digest. */
  predicate HitsZero(a: seq<Event>, b: seq<Event>) {
    |b| < |a| && a[|a| - 1 - |b|].digest == ZERO_DIGEST
  }

  /** The two ledgers themselves exhibit inputs that the digest fails to tell apart. */
  ghost predicate ShowCollision(a: seq<Event>, b: seq<Event>) {
    (exists n: nat :: CollideAt(a, b, n)) || HitsZero(a, b) || HitsZero(b, a)
  }

  lemma SplitLast(z: Scheme, a: seq<Event>) returns (init: seq<Event>, last: Event)
    requires ValidChain(z, a) && a != []
    ensures a == init + [last] && DigestBefore(a, |a|) == last.digest
        && DigestBefore(init, |init|) == last.previousDigest
    ensures ValidChain(z, init)
  {
    init, last := a[..|a| - 1], a[|a| - 1];
    assert a == init + [last];
    ValidChainSnoc(z, init, last);
  }

  lemma CollisionStays(a: seq<Event>, b: seq<Event>, x: Event, y: Event)
    requires ShowCollision(a, b)
    ensures ShowCollision(a + [x], b + [y])
  {
    if n: nat :| CollideAt(a, b, n) {
      assert CollideAt(a + [x], b + [y], n + 1);
    }
  }

  /** Two valid ledgers with one last digest are equal, or a collision can be pointed out in the ledgers themselves. */
  lemma {:induction false} DigestFixesLedger(z: Scheme, a: seq<Event>, b: seq<Event>)
    requires ValidChain(z, a) && ValidChain(z, b)
    requires DigestBefore(a, |a|) == DigestBefore(b, |b|)
    ensures a == b <==> !ShowCollision(a, b)
    decreases |a|
  {
    if a != [] && b != [] {
      var a', x := SplitLast(z, a);
      var b', y := SplitLast(z, b);
      if x != y {
        assert CollideAt(a, b, 0);
      } else {
        DigestFixesLedger(z, a', b');
        if a' != b' { CollisionStays(a', b', x, y); }
      }
    }
  }

  /** The events pointed out really are two inputs of the digest function with one result. */
  lemma CollisionIsReal(z: Scheme, a: seq<Event>, b: seq<Event>, n: nat)
    requires ValidChain(z, a) && ValidChain(z, b) && CollideAt(a, b, n)
    ensures
      var x, y := a[|a| - 1 - n], b[|b| - 1 - n];
      (x.body, x.previousDigest) != (y.body, y.previousDigest)
          && z.hash(x.body, x.previousDigest) == z.hash(y.body, y.previousDigest)
  {
    assert Sealed(z, a[|a| - 1 - n]) && Sealed(z, b[|b| - 1 - n]);
  }

  ghost predicate HexDigests(z: Scheme) {
    forall b, p :: IsHex(z.hash(b, p), 64)
  }

  ghost predicate RoundTrips(z: Scheme) {
    forall e :: z.decode(z.encode(e)) == Some(e) && z.encode(e) != "" && !IsSpace(z.encode(e)[0])
  }

  /** A started object is not a value, neither alone nor behind a value. */
  ghost predicate NoPartialValue(z: Scheme) {
    forall e, t, n :: 0 < n < |z.encode(e)| && (Blank(t) || z.decode(t).Some?) ==> z.decode(t + z.encode(e)[..n]).None?
  }

  /** Two values in a row are not a value. */
  ghost predicate NoTwoValues(z: Scheme) {
    forall e, t :: z.decode(t).Some? ==> z.decode(t + z.encode(e)).None?
  }

  /** Leading blanks either belong to the JSON syntax or make the line invalid. */
  ghost predicate BlanksAreNeutral(z: Scheme) {
    forall e, t :: Blank(t) ==> z.decode(t + z.encode(e)) == Some(e) || z.decode(t + z.encode(e)).None?
  }

  /** What is taken for granted about the digest and the JSON codec. */
  ghost predicate IsFaithful(z: Scheme) {
    HexDigests(z) && RoundTrips(z) && NoPartialValue(z) && NoTwoValues(z) && BlanksAreNeutral(z)
  }

  lemma CutBeforeTail(head: string, tail: string, more: string)
    requires head != "" ==> IsBreak(head[|head| - 1])
    requires Unbroken(tail) && more != "" && more[0] != '\n'
    ensures head == "" || (Boundary(head, tail) && Boundary(head, tail + more))
  {
    assert tail != "" ==> tail[0] != '\n';
    assert (tail + more)[0] == if tail == "" then more[0] else tail[0];
  }

  lemma LinesBehind(head: string, tail: string, more: string)
    requires head != "" ==> IsBreak(head[|head| - 1])
    requires Unbroken(tail) && more != "" && more[0] != '\n'
    ensures SplitLines(head + tail) == SplitLines(head) + (if tail == "" then [] else [tail])
    ensures SplitLines(head + (tail + more)) == SplitLines(head) + SplitLines(tail + more)
  {
    CutBeforeTail(head, tail, more);
    SplitAtBoundary(head, tail);
    SplitAtBoundary(head, tail + more);
    SplitOneLine(tail);
  }

  lemma TailCut(text: string)
    ensures
      var head := text[..|text| - |Tail(text)|];
      head + Tail(text) == text && (head != "" ==> IsBreak(head[|head| - 1]))
  {
  }

  /** The lines of a ledger after `more` is written behind it. */
  lemma LinesAfterAppend(text: string, more: string)
    requires more != "" && more[0] != '\n'
    ensures
      var head := text[..|text| - |Tail(text)|];
      && SplitLines(text) == SplitLines(head) + (if Tail(text) == "" then [] else [Tail(text)])
      && SplitLines(text + more) == SplitLines(head) + SplitLines(Tail(text) + more)
  {
    var tail := Tail(text);
    var head := text[..|text| - |tail|];
    TailCut(text);
    Associative(head, tail, more);
    LinesBehind(head, tail, more);
  }

  /**
   * The text added for event `e` after an unterminated `tail` decodes to `e` exactly when it stays on one readable
   * line.
   */
  lemma AppendedLineDecodes(z: Scheme, tail: string, e: Event)
    requires IsFaithful(z) && Unbroken(tail) && (Blank(tail) || z.decode(tail).Some?)
    ensures
      var r := DecodeAll(z, SplitLines(tail + (z.encode(e) + "\n")));
      if Unbroken(z.encode(e)) && z.decode(tail + z.encode(e)) == Some(e) then r == Some([e]) else r.None?
  {
    var enc := z.encode(e);
    assert !IsSpace(enc[0]);
    assert tail + (enc + "\n") == (tail + enc) + "\n";
    if Unbroken(enc) {
      SplitOneLine(tail + enc);
      assert (tail + enc)[|tail|] == enc[0] && !Blank(tail + enc);
      DecodeSingle(z, tail + enc);
    } else {
      var n := FirstBreak(enc);
      var text := tail + enc + "\n";
      assert text[..|tail| + n] == tail + enc[..n] && text[|tail| + n] == enc[n];
      SplitBrokenLine(text, |tail| + n);
      assert (tail + enc[..n])[|tail|] == enc[0] && !Blank(tail + enc[..n]);
      FirstLineMustDecode(z, SplitLines(text));
    }
  }

  lemma DecodeSingle(z: Scheme, line: string)
    requires !Blank(line)
    ensures DecodeAll(z, [line]) == match z.decode(line) case None => None case Some(e) => Some([e])
  {
    assert [line][..0] == [];
    assert DecodeAll(z, []) == Some([]);
    if z.decode(line).Some? { assert [] + [z.decode(line).value] == [z.decode(line).value]; }
  }

  lemma FirstLineMustDecode(z: Scheme, lines: seq<string>)
    requires lines != [] && !Blank(lines[0]) && z.decode(lines[0]).None?
    ensures DecodeAll(z, lines).None?
  {
    DecodeSingle(z, lines[0]);
    assert lines == [lines[0]] + lines[1..];
    DecodeConcat(z, [lines[0]], lines[1..]);
  }

  lemma TailDecodes(z: Scheme, text: string, events: seq<Event>)
    requires IsLedger(z, text, events)
    ensures Blank(Tail(text)) || z.decode(Tail(text)).Some?
    ensures
      var head := DecodeAll(z, SplitLines(text[..|text| - |Tail(text)|]));
      head.Some? && (Blank(Tail(text)) ==> head.value == events)
  {
    var tail := Tail(text);
    var head := text[..|text| - |tail|];
    LinesAfterAppend(text, "x");
    var last := if tail == "" then [] else [tail];
    DecodeConcat(z, SplitLines(head), last);
    if tail != "" && Blank(tail) {
      assert [tail][..0] == [] && DecodeAll(z, [tail]) == Some([]);
    } else if tail != "" {
      DecodeSingle(z, tail);
    }
  }

  /**
   * Appending a sealed event leaves a valid ledger exactly when its id is fresh, its time is not before the last one,
   * its encoding holds no line boundary and it is not glued to an unterminated last line. `append_event` checks none
   * of these.
   */
  lemma AppendKeepsLedgerIff(z: Scheme, text: string, events: seq<Event>, body: Body)
    requires IsFaithful(z) && IsLedger(z, text, events) && ValidBody(z, body)
    ensures
      var e := Event(body, DigestBefore(events, |events|), z.hash(body, DigestBefore(events, |events|)));
      IsLedger(z, text + (z.encode(e) + "\n"), events + [e])
      <==> && FreshId(events, body.eventId) && NotBeforeLast(z, events, e)
           && Unbroken(z.encode(e)) && z.decode(Tail(text) + z.encode(e)) == Some(e)
    ensures
      var e := Event(body, DigestBefore(events, |events|), z.hash(body, DigestBefore(events, |events|)));
      forall other :: IsLedger(z, text + (z.encode(e) + "\n"), other) ==> other == events + [e]
  {
    var e := Event(body, DigestBefore(events, |events|), z.hash(body, DigestBefore(events, |events|)));
    var more := z.encode(e) + "\n";
    var tail := Tail(text);
    var head := text[..|text| - |tail|];
    assert !IsSpace(z.encode(e)[0]) && more[0] == z.encode(e)[0];
    LinesAfterAppend(text, more);
    TailDecodes(z, text, events);
    AppendedLineDecodes(z, tail, e);
    DecodeConcat(z, SplitLines(head), SplitLines(tail + more));
    if z.decode(tail + z.encode(e)) == Some(e) {
      assert Blank(tail);
    }
    ValidChainSnoc(z, events, e);
  }

  /** `body` sealed onto the last event. */
  function SealedNext(z: Scheme, events: seq<Event>, body: Body): Event {
    var previous := DigestBefore(events, |events|);
    Event(body, previous, z.hash(body, previous))
  }

  function Appended(z: Scheme, text: string, events: seq<Event>, body: Body): string {
    text + (z.encode(SealedNext(z, events, body)) + "\n")
  }

  /** Behind a newline the last of these conditions holds by itself; behind an open line it never does. */
  lemma AppendByTermination(z: Scheme, text: string, events: seq<Event>, body: Body)
    requires IsFaithful(z) && IsLedger(z, text, events) && ValidBody(z, body)
    requires EndsWithNewline(text) || !Blank(Tail(text))
    ensures
      var e := SealedNext(z, events, body);
      var fits := FreshId(events, body.eventId) && NotBeforeLast(z, events, e) && Unbroken(z.encode(e))
          && EndsWithNewline(text);
      if fits then IsLedger(z, Appended(z, text, events, body), events + [e])
      else forall other :: !IsLedger(z, Appended(z, text, events, body), other)
  {
    var e := SealedNext(z, events, body);
    AppendKeepsLedgerIff(z, text, events, body);
    if EndsWithNewline(text) {
      assert Tail(text) == "" && "" + z.encode(e) == z.encode(e);
    } else {
      TailDecodes(z, text, events);
      assert z.decode(Tail(text) + z.encode(e)).None?;
    }
  }

  function WithEnd(line: string, terminated: bool): string {
    if terminated then line + "\n" else line
  }

  /** A line that decodes to a valid chain of one event is a ledger, with or without its newline. */
  lemma OneLineLedger(z: Scheme, line: string, e: Event, terminated: bool)
    requires Unbroken(line) && !Blank(line) && z.decode(line) == Some(e) && ValidChain(z, [e])
    ensures IsLedger(z, WithEnd(line, terminated), [e])
    ensures if terminated then EndsWithNewline(WithEnd(line, terminated)) else !Blank(Tail(WithEnd(line, terminated)))
  {
    SplitOneLine(line);
    DecodeSingle(z, line);
    var t := Tail(line);
    assert |t| == |line| && line[0..] == line;
  }

  /** `body` can be appended to the ledger of `e` alone, or it spoils that ledger. */
  ghost predicate AppendsIf(z: Scheme, e: Event, body: Body, terminated: bool, fits: bool) {
    var text := WithEnd(z.encode(e), terminated);
    && IsLedger(z, text, [e]) && ValidBody(z, body) && FreshId([e], body.eventId)
    && if fits then IsLedger(z, Appended(z, text, [e], body), [e] + [SealedNext(z, [e], body)])
       else forall other :: !IsLedger(z, Appended(z, text, [e], body), other)
  }

  lemma AppendToFirst(z: Scheme, e: Event, body: Body, terminated: bool)
    requires IsFaithful(z) && ValidChain(z, [e]) && Unbroken(z.encode(e))
    requires ValidBody(z, body) && body.eventId != e.body.eventId
    ensures
      var next := SealedNext(z, [e], body);
      AppendsIf(z, e, body, terminated, Time(z, e) <= Time(z, next) && Unbroken(z.encode(next)) && terminated)
  {
    var line := z.encode(e);
    assert !IsSpace(line[0]) && z.decode(line) == Some(e);
    OneLineLedger(z, line, e, terminated);
    AppendByTermination(z, WithEnd(line, terminated), [e], body);
  }

  /** Writing an event again is one way `append_event` turns a valid ledger into one nobody can read. */
  lemma RepeatedEventBreaksLedger(z: Scheme, text: string, events: seq<Event>, k: nat)
    requires IsFaithful(z) && IsLedger(z, text, events) && k < |events|
    ensures
      var previous := DigestBefore(events, |events|);
      var e := Event(events[k].body, previous, z.hash(events[k].body, previous));
      forall other :: !IsLedger(z, text + (z.encode(e) + "\n"), other)
  {
    assert Sealed(z, events[k]);
    AppendKeepsLedgerIff(z, text, events, events[k].body);
  }

  predicate IsTransition(e: Event) {
    e.body.kind.GlobalPaused? || e.body.kind.GlobalResumed?
  }

  ghost predicate IsLatestTransition(events: seq<Event>, i: nat) {
    i < |events| && IsTransition(events[i]) && forall j :: i < j < |events| ==> !IsTransition(events[j])
  }

  /** The repository is paused exactly when the latest transition is a pause, and undecided exactly without one. */
  lemma {:induction false} GlobalStateIsLatestTransition(events: seq<Event>)
    ensures GlobalState(events).None? <==> forall i :: 0 <= i < |events| ==> !IsTransition(events[i])
    ensures forall i: nat :: IsLatestTransition(events, i) ==>
        GlobalState(events) == Some(events[i].body.kind.GlobalPaused?)
    decreases |events|
  {
    if events != [] {
      var n := |events| - 1;
      GlobalStateIsLatestTransition(events[..n]);
      forall i: nat | IsLatestTransition(events, i)
          ensures GlobalState(events) == Some(events[i].body.kind.GlobalPaused?)
      {
        if i < n { assert IsLatestTransition(events[..n], i); }
      }
      assert forall i :: 0 <= i < n ==> events[..n][i] == events[i];
    }
  }
}
