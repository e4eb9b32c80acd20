/** A digest and a line codec that are faithful, and ledgers written with them that `append_event` spoils. */
module LedgerSamples {
  import opened Wrappers
  import opened LineText
  import opened GovernanceLedger
  import opened LedgerTheorems

  /** A text with its end marked. */
  function Code(s: string): (r: string)
    ensures r != "" && (r[0] == '!' || r[0] == '.')
  {
    if s == "" then "!" else ['.', s[0]] + Code(s[1..])
  }

  function CodeAll(ts: seq<string>): string {
    if ts == [] then "" else Code(ts[0]) + CodeAll(ts[1..])
  }

  /** No coded text is the beginning of another one. */
  lemma {:induction false} CodePrefixFree(a: string, b: string, x: string, y: string)
    requires Code(a) + x == Code(b) + y
    ensures a == b && x == y
    decreases |a|
  {
    var left, right := Code(a) + x, Code(b) + y;
    assert left[0] == Code(a)[0] && right[0] == Code(b)[0];
    if a == "" || b == "" {
      assert left[1..] == x && right[1..] == y;
    } else {
      assert left[1] == a[0] && right[1] == b[0];
      assert left[2..] == Code(a[1..]) + x && right[2..] == Code(b[1..]) + y;
      CodePrefixFree(a[1..], b[1..], x, y);
      assert a == [a[0]] + a[1..] && b == [b[0]] + b[1..];
    }
  }

  lemma {:induction false} CodeAllPrefixFree(a: seq<string>, b: seq<string>, x: string, y: string)
    requires |a| == |b| && CodeAll(a) + x == CodeAll(b) + y
    ensures a == b && x == y
    decreases |a|
  {
    if a == [] {
      assert x == "" + x && y == "" + y;
    } else {
      assert CodeAll(a) + x == Code(a[0]) + (CodeAll(a[1..]) + x);
      assert CodeAll(b) + y == Code(b[0]) + (CodeAll(b[1..]) + y);
      CodePrefixFree(a[0], b[0], CodeAll(a[1..]) + x, CodeAll(b[1..]) + y);
      CodeAllPrefixFree(a[1..], b[1..], x, y);
      assert a == [a[0]] + a[1..] && b == [b[0]] + b[1..];
    }
  }

  function KindText(k: Kind): string {
    match k
    case LeaseStarted => "a" case LeaseHeartbeat => "b" case LeasePaused => "c" case LeaseTerminal => "d"
    case RepairTerminal => "e" case ReviewTerminal => "f" case TrainOpened => "g" case TrainTerminal => "h"
    case Merged => "i" case GlobalPaused => "j" case GlobalResumed => "k" case GovernanceModeChanged => "l"
    case Unsupported => "m"
  }

  lemma KindTextInjective(k: Kind, l: Kind)
    requires KindText(k) == KindText(l)
    ensures k == l
  {
    assert KindText(k)[0] == KindText(l)[0];
  }

  function Tally(n: nat): (s: string)
    ensures |s| == n
  {
    if n == 0 then "" else "1" + Tally(n - 1)
  }

  function NumberText(n: Option<int>): string {
    match n case None => "" case Some(k) => if k < 0 then "-" + Tally(-k) else "+" + Tally(k)
  }

  lemma NumberTextInjective(m: Option<int>, n: Option<int>)
    requires NumberText(m) == NumberText(n)
    ensures m == n
  {
    if m.Some? && n.Some? {
      assert NumberText(m)[0] == NumberText(n)[0] && |NumberText(m)| == |NumberText(n)|;
    }
  }

  function OptionText(s: Option<string>): string {
    match s case None => "" case Some(t) => "+" + t
  }

  lemma OptionTextInjective(s: Option<string>, t: Option<string>)
    requires OptionText(s) == OptionText(t)
    ensures s == t
  {
    if s.Some? && t.Some? {
      assert OptionText(s)[1..] == s.value && OptionText(t)[1..] == t.value;
    }
  }

  function Texts(e: Event): (r: seq<string>)
    ensures |r| == 11
  {
    [e.body.schema, e.body.eventId, e.body.occurredAt, KindText(e.body.kind), NumberText(e.body.pr),
        OptionText(e.body.baseSha),
     OptionText(e.body.headSha), e.body.actorTaskId, e.body.extra, e.previousDigest, e.digest]
  }

  lemma TextsInjective(e: Event, f: Event)
    requires Texts(e) == Texts(f)
    ensures e == f
  {
    var a, b := Texts(e), Texts(f);
    assert a[0] == b[0] && a[1] == b[1] && a[2] == b[2] && a[7] == b[7] && a[8] == b[8] && a[9] == b[9]
        && a[10] == b[10];
    assert a[3] == b[3] && a[4] == b[4] && a[5] == b[5] && a[6] == b[6];
    KindTextInjective(e.body.kind, f.body.kind);
    NumberTextInjective(e.body.pr, f.body.pr);
    OptionTextInjective(e.body.baseSha, f.body.baseSha);
    OptionTextInjective(e.body.headSha, f.body.headSha);
  }

  function Encode(e: Event): string {
    CodeAll(Texts(e))
  }

  lemma EncodePrefixFree(e: Event, f: Event, x: string, y: string)
    requires Encode(e) + x == Encode(f) + y
    ensures e == f && x == y
  {
    CodeAllPrefixFree(Texts(e), Texts(f), x, y);
    TextsInjective(e, f);
  }

  ghost function Decode(line: string): Option<Event> {
    if e :| Encode(e) == line then Some(e) else None
  }

  lemma DecodesTo(e: Event)
    ensures Decode(Encode(e)) == Some(e)
  {
    var f := Decode(Encode(e)).value;
    assert Encode(e) + "" == Encode(f) + "";
    EncodePrefixFree(e, f, "", "");
  }

  lemma EncodeStarts(e: Event)
    ensures Encode(e) != "" && !IsSpace(Encode(e)[0])
  {
    assert Encode(e)[0] == Code(Texts(e)[0])[0];
  }

  /** One digest `d` for everything, and a time that is the length of its text. */
  ghost function Sample(d: string): Scheme {
    Scheme((b, p) => d, t => Some(|t|), line => Decode(line), e => Encode(e))
  }

  lemma FirstOfConcat(t: string, x: string)
    requires t != ""
    ensures (t + x)[0] == t[0]
  {
  }

  lemma NotAfterBlank(e: Event, t: string, x: string)
    requires Blank(t) && Decode(t + x) == Some(e)
    ensures t == ""
  {
    EncodeStarts(e);
    if t != "" { FirstOfConcat(t, x); }
  }

  lemma NothingFollows(t: string, x: string)
    requires Decode(t).Some? && x != ""
    ensures Decode(t + x).None?
  {
    if Decode(t + x).Some? {
      var f, g := Decode(t).value, Decode(t + x).value;
      assert Encode(g) + "" == Encode(f) + x;
      EncodePrefixFree(g, f, "", x);
    }
  }

  lemma NoProperPrefix(e: Event, n: nat)
    requires n < |Encode(e)|
    ensures Decode(Encode(e)[..n]).None?
  {
    if Decode(Encode(e)[..n]).Some? {
      var f := Decode(Encode(e)[..n]).value;
      assert Encode(f) + Encode(e)[n..] == Encode(e) + "";
      EncodePrefixFree(f, e, Encode(e)[n..], "");
    }
  }

  lemma PrefixDoesNotDecode(e: Event, t: string, n: nat)
    requires 0 < n < |Encode(e)| && (Blank(t) || Decode(t).Some?)
    ensures Decode(t + Encode(e)[..n]).None?
  {
    var x := Encode(e)[..n];
    if Decode(t).Some? {
      NothingFollows(t, x);
    } else if Decode(t + x).Some? {
      NotAfterBlank(Decode(t + x).value, t, x);
      assert t + x == x;
      NoProperPrefix(e, n);
    }
  }

  lemma BlankBefore(e: Event, t: string)
    requires Blank(t)
    ensures Decode(t + Encode(e)) == Some(e) || Decode(t + Encode(e)).None?
  {
    if Decode(t + Encode(e)).Some? {
      NotAfterBlank(Decode(t + Encode(e)).value, t, Encode(e));
      assert t + Encode(e) == Encode(e);
      DecodesTo(e);
    }
  }

  /** The sample scheme is faithful for every hexadecimal digest. */
  lemma SampleIsFaithful(d: string)
    requires IsHex(d, 64)
    ensures IsFaithful(Sample(d))
  {
    SampleRoundTrips(d);
    SampleHasNoPartialValue(d);
    SampleHasNoTwoValues(d);
    SampleBlanksAreNeutral(d);
  }

  lemma SampleRoundTrips(d: string)
    ensures RoundTrips(Sample(d))
  {
    forall e ensures Decode(Encode(e)) == Some(e) && Encode(e) != "" && !IsSpace(Encode(e)[0])
    {
      DecodesTo(e);
      EncodeStarts(e);
    }
  }

  lemma SampleHasNoPartialValue(d: string)
    ensures NoPartialValue(Sample(d))
  {
    forall e, t, n | 0 < n < |Encode(e)| && (Blank(t) || Decode(t).Some?) ensures Decode(t + Encode(e)[..n]).None?
    {
      PrefixDoesNotDecode(e, t, n);
    }
  }

  lemma SampleHasNoTwoValues(d: string)
    ensures NoTwoValues(Sample(d))
  {
    forall e, t | Decode(t).Some? ensures Decode(t + Encode(e)).None?
    {
      EncodeStarts(e);
      NothingFollows(t, Encode(e));
    }
  }

  lemma SampleBlanksAreNeutral(d: string)
    ensures BlanksAreNeutral(Sample(d))
  {
    forall e, t | Blank(t) ensures Decode(t + Encode(e)) == Some(e) || Decode(t + Encode(e)).None?
    {
      BlankBefore(e, t);
    }
  }

  lemma {:induction false} CodeBreaks(s: string)
    ensures Unbroken(Code(s)) <==> Unbroken(s)
    decreases |s|
  {
    if s != "" {
      CodeBreaks(s[1..]);
      assert s == [s[0]] + s[1..];
      UnbrokenConcat([s[0]], s[1..]);
      UnbrokenConcat(['.', s[0]], Code(s[1..]));
      assert ['.', s[0]][1] == s[0] && [s[0]][0] == s[0];
    }
  }

  lemma UnbrokenConcat(a: string, b: string)
    ensures Unbroken(a + b) <==> Unbroken(a) && Unbroken(b)
  {
    assert forall i :: 0 <= i < |a| ==> (a + b)[i] == a[i];
    assert forall i :: 0 <= i < |b| ==> (a + b)[|a| + i] == b[i];
  }

  lemma {:induction false} CodeAllBreaks(ts: seq<string>)
    ensures Unbroken(CodeAll(ts)) <==> forall i :: 0 <= i < |ts| ==> Unbroken(ts[i])
    decreases |ts|
  {
    if ts != [] {
      CodeBreaks(ts[0]);
      CodeAllBreaks(ts[1..]);
      UnbrokenConcat(Code(ts[0]), CodeAll(ts[1..]));
      assert forall i :: 0 < i < |ts| ==> ts[i] == ts[1..][i - 1];
    }
  }

  /** Two events to write one after the other, all of them with digest `d`. */
  datatype Pair = Pair(d: string, firstId: string, firstTime: string, secondId: string, secondTime: string,
        extra: string)

  predicate IsPair(c: Pair) {
    && IsHex(c.d, 64) && c.firstId != "" && c.secondId != "" && c.firstId != c.secondId
    && Unbroken(c.firstId) && Unbroken(c.firstTime) && Unbroken(c.secondId) && Unbroken(c.secondTime)
  }

  function SampleBody(id: string, time: string, extra: string): Body {
    Body(EVENT_SCHEMA, id, time, GlobalResumed, None, None, None, "t", extra)
  }

  function First(c: Pair): Event {
    Event(SampleBody(c.firstId, c.firstTime, ""), ZERO_DIGEST, c.d)
  }

  lemma Eleven(ts: seq<string>)
    requires |ts| == 11
    ensures (forall i :: 0 <= i < |ts| ==> Unbroken(ts[i])) <==>
            && Unbroken(ts[0]) && Unbroken(ts[1]) && Unbroken(ts[2]) && Unbroken(ts[3]) && Unbroken(ts[4])
               && Unbroken(ts[5])
            && Unbroken(ts[6]) && Unbroken(ts[7]) && Unbroken(ts[8]) && Unbroken(ts[9]) && Unbroken(ts[10])
  {
  }

  lemma SchemaIsUnbroken()
    ensures Unbroken(EVENT_SCHEMA)
  {
    UnbrokenConcat("hartevo-throughput", "-event/v1");
    assert EVENT_SCHEMA == "hartevo-throughput" + "-event/v1";
  }

  lemma LettersAreUnbroken()
    ensures Unbroken("k") && Unbroken("t") && Unbroken("")
  {
  }

  lemma EventBreaks(e: Event)
    requires Unbroken(e.body.schema) && Unbroken(KindText(e.body.kind)) && Unbroken(NumberText(e.body.pr))
    requires Unbroken(OptionText(e.body.baseSha)) && Unbroken(OptionText(e.body.headSha))
        && Unbroken(e.body.actorTaskId)
    requires Unbroken(e.body.eventId) && Unbroken(e.body.occurredAt) && Unbroken(e.previousDigest) && Unbroken(e.digest)
    ensures Unbroken(Encode(e)) <==> Unbroken(e.body.extra)
  {
    CodeAllBreaks(Texts(e));
    Eleven(Texts(e));
  }

  /** The encoded event is one line exactly when its extra text holds no break. */
  lemma SampleBreaks(id: string, time: string, extra: string, previous: string, d: string)
    requires Unbroken(id) && Unbroken(time) && Unbroken(previous) && Unbroken(d)
    ensures Unbroken(Encode(Event(SampleBody(id, time, extra), previous, d))) <==> Unbroken(extra)
  {
    SchemaIsUnbroken();
    LettersAreUnbroken();
    EventBreaks(Event(SampleBody(id, time, extra), previous, d));
  }

  lemma HexIsUnbroken(s: string, n: nat)
    requires IsHex(s, n)
    ensures Unbroken(s)
  {
  }

  lemma {:induction false} ZerosAreUnbroken(n: nat)
    ensures Unbroken(Zeros(n))
    decreases n
  {
    if n > 0 {
      ZerosAreUnbroken(n - 1);
      UnbrokenConcat(Zeros(n - 1), "0");
    }
  }

  lemma SampleIsValid(d: string, id: string, time: string, extra: string)
    requires id != ""
    ensures ValidBody(Sample(d), SampleBody(id, time, extra))
  {
  }

  lemma FirstIsChain(c: Pair)
    requires IsPair(c)
    ensures ValidChain(Sample(c.d), [First(c)])
  {
    SampleIsValid(c.d, c.firstId, c.firstTime, "");
    assert [] + [First(c)] == [First(c)];
    ValidChainSnoc(Sample(c.d), [], First(c));
  }

  lemma FirstIsUnbroken(c: Pair)
    requires IsPair(c)
    ensures Unbroken(Encode(First(c)))
  {
    HexIsUnbroken(c.d, 64);
    ZerosAreUnbroken(64);
    SampleBreaks(c.firstId, c.firstTime, "", ZERO_DIGEST, c.d);
  }

  /**
   * The second event is valid and new. Appending it gives the ledger of both exactly when it is not earlier, holds no
   * line boundary and the file ended in a newline; otherwise what is left is no ledger at all.
   */
  lemma AppendSecond(c: Pair, terminated: bool)
    requires IsPair(c)
    ensures IsFaithful(Sample(c.d))
    ensures AppendsIf(Sample(c.d), First(c), SampleBody(c.secondId, c.secondTime, c.extra), terminated,
                      |c.firstTime| <= |c.secondTime| && Unbroken(c.extra) && terminated)
  {
    var z, body := Sample(c.d), SampleBody(c.secondId, c.secondTime, c.extra);
    SampleIsFaithful(c.d);
    FirstIsChain(c);
    FirstIsUnbroken(c);
    SampleIsValid(c.d, c.secondId, c.secondTime, c.extra);
    AppendToFirst(z, First(c), body, terminated);
    HexIsUnbroken(c.d, 64);
    SampleBreaks(c.secondId, c.secondTime, c.extra, c.d, c.d);
    SecondIsNext(z, c, body);
  }

  lemma SecondIsNext(z: Scheme, c: Pair, body: Body)
    requires z == Sample(c.d) && body == SampleBody(c.secondId, c.secondTime, c.extra)
    ensures SealedNext(z, [First(c)], body) == Event(body, c.d, c.d)
    ensures Time(z, First(c)) == |c.firstTime| && Time(z, Event(body, c.d, c.d)) == |c.secondTime|
  {
  }

  /** An event that is earlier than the last one spoils the ledger. */
  lemma EarlierTimeSpoilsLedger(d: string)
    requires IsHex(d, 64)
    ensures
      var c := Pair(d, "1", "xx", "2", "x", "");
      AppendsIf(Sample(d), First(c), SampleBody("2", "x", ""), true, false)
  {
    AppendSecond(Pair(d, "1", "xx", "2", "x", ""), true);
  }

  /** So does an event whose text holds a line separator. */
  lemma LineSeparatorSpoilsLedger(d: string)
    requires IsHex(d, 64)
    ensures
      var c := Pair(d, "1", "x", "2", "x", "\U{2028}");
      AppendsIf(Sample(d), First(c), SampleBody("2", "x", "\U{2028}"), true, false)
  {
    assert IsBreak("\U{2028}"[0]);
    AppendSecond(Pair(d, "1", "x", "2", "x", "\U{2028}"), true);
  }

  /** So does any event behind a last line without its newline. */
  lemma UnterminatedFileSpoilsLedger(d: string)
    requires IsHex(d, 64)
    ensures
      var c := Pair(d, "1", "x", "2", "x", "");
      AppendsIf(Sample(d), First(c), SampleBody("2", "x", ""), false, false)
  {
    AppendSecond(Pair(d, "1", "x", "2", "x", ""), false);
  }
}
