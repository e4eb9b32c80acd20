/** Reading Airtable records page by page along opaque offsets. */
module RecordPages {
  import opened Wrappers

  const MAX_PAGE_SIZE := 100

  type Offset = string

  datatype Record = Record(id: string, scope: string, content: string)

  datatype Page = Page(records: seq<Record>, next: Option<Offset>)

  /** Pages by the offset that asks for them; the first page has none. */
  type Pages = map<Option<Offset>, Page>

  /** The offset of page `n` of the chain, if the chain gets there. */
  function OffsetAt(pages: Pages, n: nat): Option<Option<Offset>> {
    if n == 0 then Some(None)
    else
      match OffsetAt(pages, n - 1)
      case None => None
      case Some(o) => if o in pages && pages[o].next.Some? then Some(Some(pages[o].next.value)) else None
  }

  predicate HasPage(pages: Pages, n: nat) {
    OffsetAt(pages, n).Some? && OffsetAt(pages, n).value in pages
  }

  function PageAt(pages: Pages, n: nat): Page
    requires HasPage(pages, n)
  {
    pages[OffsetAt(pages, n).value]
  }

  /** All records of the first `n` pages of the chain, in order. */
  function FirstRecords(pages: Pages, n: nat): seq<Record> {
    if n == 0 then []
    else FirstRecords(pages, n - 1) + if HasPage(pages, n - 1) then PageAt(pages, n - 1).records else []
  }

  /** The number of records at which a limit stops the reading: a limit of zero is noticed only after one record. */
  function Cutoff(limit: Option<nat>): Option<nat> {
    match limit case None => None case Some(m) => Some(if m == 0 then 1 else m)
  }

  predicate Reaches(limit: Option<nat>, count: nat) {
    Cutoff(limit).Some? && Cutoff(limit).value <= count
  }

  function Cut(limit: Option<nat>, records: seq<Record>): seq<Record> {
    if Reaches(limit, |records|) then records[..Cutoff(limit).value] else records
  }

  predicate InScope(records: seq<Record>, scope: string) {
    forall i :: 0 <= i < |records| ==> records[i].scope == scope
  }

  /** The first `n` pages exist, are small enough and lie at different offsets. */
  ghost predicate SoundChain(pages: Pages, size: nat, n: nat) {
    && (forall i: nat :: i < n ==> HasPage(pages, i) && |PageAt(pages, i).records| <= size)
    && forall i: nat, j: nat :: i < j < n ==> OffsetAt(pages, i) != OffsetAt(pages, j)
  }

  /** Reading succeeds with the `n`-th page: the limit is reached in it, or the chain ends there. */
  ghost predicate StopsAt(pages: Pages, scope: string, size: nat, limit: Option<nat>, n: nat) {
    && n >= 1 && SoundChain(pages, size, n)
    && !Reaches(limit, |FirstRecords(pages, n - 1)|)
    && (Reaches(limit, |FirstRecords(pages, n)|) || OffsetAt(pages, n).None?)
    && InScope(Cut(limit, FirstRecords(pages, n)), scope)
  }

  lemma {:induction false} FirstRecordsGrow(pages: Pages, m: nat, n: nat)
    requires m <= n
    ensures FirstRecords(pages, m) <= FirstRecords(pages, n)
    decreases n
  {
    if m < n {
      FirstRecordsGrow(pages, m, n - 1);
    }
  }

  lemma {:induction false} ChainGoesThrough(pages: Pages, m: nat, n: nat)
    requires m <= n && OffsetAt(pages, n).Some?
    ensures OffsetAt(pages, m).Some? && (m < n ==> HasPage(pages, m))
    decreases n
  {
    if m < n {
      ChainGoesThrough(pages, m, n - 1);
    }
  }

  /** While the chain goes on below the limit, reading has not stopped. */
  lemma NotYetStopped(pages: Pages, scope: string, size: nat, limit: Option<nat>, n: nat, k: nat)
    requires OffsetAt(pages, n).Some? && !Reaches(limit, |FirstRecords(pages, n)|) && k <= n
    ensures !StopsAt(pages, scope, size, limit, k)
  {
    ChainGoesThrough(pages, k, n);
    FirstRecordsGrow(pages, k, n);
  }

  /** Reading stops with one page only. */
  lemma StopIsUnique(pages: Pages, scope: string, size: nat, limit: Option<nat>, m: nat, n: nat)
    requires StopsAt(pages, scope, size, limit, m) && StopsAt(pages, scope, size, limit, n)
    ensures m == n
  {
    if m < n {
      StopNotBefore(pages, scope, size, limit, m, n);
    } else if n < m {
      StopNotBefore(pages, scope, size, limit, n, m);
    }
  }

  lemma StopNotBefore(pages: Pages, scope: string, size: nat, limit: Option<nat>, m: nat, n: nat)
    requires m < n && StopsAt(pages, scope, size, limit, n)
    ensures !StopsAt(pages, scope, size, limit, m)
  {
    assert HasPage(pages, n - 1);
    NotYetStopped(pages, scope, size, limit, n - 1, m);
  }

  datatype ReadError = InvalidPageSize | ProviderScope | PageTooLarge | Queued(code: int) | NotFound | Oversized
        | RecordScope | RepeatedOffset

  datatype Receipt = Receipt(pages: nat, records: nat, offsets: seq<Offset>)

  datatype Reading = Reading(records: seq<Record>, receipt: Receipt)

  datatype Request = Request(offset: Option<Offset>, size: nat)

  /** The recording provider: answers from its pages, after its queued errors, and logs what it was asked. */
  class RecordingProvider {
    const scope: string
    const maxPageSize: nat
    var pages: Pages
    var queued: seq<ReadError>
    var requests: seq<Request>

    constructor (scope: string, maxPageSize: nat)
      ensures this.scope == scope && this.maxPageSize == maxPageSize
      ensures pages == map[] && queued == [] && requests == []
    {
      this.scope, this.maxPageSize := scope, maxPageSize;
      pages, queued, requests := map[], [], [];
    }

    method SetPage(offset: Option<Offset>, page: Page) returns (ok: bool)
      modifies this`pages
      ensures ok <==> InScope(page.records, scope)
      ensures pages == if ok then old(pages)[offset := page] else old(pages)
    {
      ok := InScope(page.records, scope);
      if ok {
        pages := pages[offset := page];
      }
    }

    method ListRecords(scope: string, request: Request) returns (r: Result<Page, ReadError>)
      modifies this`queued, this`requests
      ensures
        if scope != this.scope then r == Err(ProviderScope) && requests == old(requests) && queued == old(queued)
        else if request.size > maxPageSize then r == Err(PageTooLarge) && requests == old(requests)
            && queued == old(queued)
        else
          && requests == old(requests) + [request]
          && if old(queued) != [] then r == Err(old(queued)[0]) && queued == old(queued)[1..]
             else queued == [] && r == if request.offset in pages then Ok(pages[request.offset]) else Err(NotFound)
    {
      if scope != this.scope {
        return Err(ProviderScope);
      }
      if request.size > maxPageSize {
        return Err(PageTooLarge);
      }
      requests := requests + [request];
      if queued != [] {
        var error := queued[0];
        queued := queued[1..];
        return Err(error);
      }
      return if request.offset in pages then Ok(pages[request.offset]) else Err(NotFound);
    }
  }

  datatype PageOutcome = Full | Foreign | Through

  /** A record of another scope before the cutoff spoils the reading. */
  lemma ForeignRecord(all: seq<Record>, scope: string, limit: Option<nat>, n: nat)
    requires n < |all| && !Reaches(limit, n) && all[n].scope != scope
    ensures !InScope(Cut(limit, all), scope)
  {
    assert Cut(limit, all)[n] == all[n];
  }

  /** Where the limit is reached, the records so far are the cut. */
  lemma CutAt(all: seq<Record>, limit: Option<nat>, n: nat)
    requires 0 < n <= |all| && !Reaches(limit, n - 1) && Reaches(limit, n)
    ensures Reaches(limit, |all|) && Cut(limit, all) == all[..n]
  {
  }

  lemma InScopeSnoc(records: seq<Record>, r: Record, scope: string)
    requires InScope(records, scope) && r.scope == scope
    ensures InScope(records + [r], scope)
  {
  }

  /** The loop over one page: push records until the limit is reached or a record of another scope turns up. */
  method TakePage(taken: seq<Record>, page: seq<Record>, scope: string, limit: Option<nat>)
    returns (records: seq<Record>, outcome: PageOutcome)
    requires !Reaches(limit, |taken|) && InScope(taken, scope)
    ensures outcome.Full? <==> Reaches(limit, |taken + page|) && InScope(Cut(limit, taken + page), scope)
    ensures outcome.Through? <==> !Reaches(limit, |taken + page|) && InScope(taken + page, scope)
    ensures !outcome.Foreign? ==> records == Cut(limit, taken + page)
  {
    records := taken;
    ghost var all := taken + page;
    assert all[..|taken|] == taken;
    for i := 0 to |page|
      invariant records == all[..|taken| + i] && InScope(records, scope) && !Reaches(limit, |records|)
    {
      assert all[|taken| + i] == page[i] && all[..|taken| + i + 1] == all[..|taken| + i] + [page[i]];
      if page[i].scope != scope {
        ForeignRecord(all, scope, limit, |taken| + i);
        return records, Foreign;
      }
      InScopeSnoc(records, page[i], scope);
      records := records + [page[i]];
      if limit.Some? && |records| >= limit.value {
        CutAt(all, limit, |taken| + i + 1);
        return records, Full;
      }
    }
    assert all[..|all|] == all;
    return records, Through;
  }

  /** The offsets the chain goes on with after each of its first `n` pages. */
  ghost predicate AreOffsets(pages: Pages, offsets: seq<Offset>) {
    forall i: nat :: i < |offsets| ==> OffsetAt(pages, i + 1) == Some(Some(offsets[i]))
  }

  ghost predicate IsReading(pages: Pages, scope: string, size: nat, limit: Option<nat>, r: Reading) {
    && StopsAt(pages, scope, size, limit, r.receipt.pages)
    && r.records == Cut(limit, FirstRecords(pages, r.receipt.pages))
    && r.receipt.records == |r.records|
    && |r.receipt.offsets| == r.receipt.pages - 1 && AreOffsets(pages, r.receipt.offsets)
  }

  ghost predicate Unreadable(pages: Pages, scope: string, size: nat, limit: Option<nat>) {
    forall n: nat :: !StopsAt(pages, scope, size, limit, n)
  }

  /** Where the reading stands after `n` pages: they are sound, in scope and below the limit, and the chain goes on. */
  ghost predicate Underway(pages: Pages, scope: string, size: nat, limit: Option<nat>, n: nat, records: seq<Record>,
        asked: set<Option<Offset>>) {
    && OffsetAt(pages, n).Some? && SoundChain(pages, size, n)
    && records == FirstRecords(pages, n) && InScope(records, scope) && !Reaches(limit, |records|)
    && asked <= pages.Keys && |asked| == n && !Visited(pages, n, OffsetAt(pages, n).value)
    && forall o :: o in asked <==> Visited(pages, n, o)
  }

  /** One of the first `n` pages of the chain lies at `o`. */
  ghost predicate Visited(pages: Pages, n: nat, o: Option<Offset>) {
    exists i: nat :: i < n && OffsetAt(pages, i) == Some(o)
  }

  lemma VisitedSnoc(pages: Pages, n: nat, o: Option<Offset>)
    ensures Visited(pages, n + 1, o) <==> Visited(pages, n, o) || OffsetAt(pages, n) == Some(o)
  {
    if Visited(pages, n, o) {
      var i: nat :| i < n && OffsetAt(pages, i) == Some(o);
      assert i < n + 1;
    }
  }

  /** A missing or oversized page, or a foreign record in it, leaves nothing to read. */
  lemma DeadEnd(pages: Pages, scope: string, size: nat, limit: Option<nat>, n: nat, records: seq<Record>,
        asked: set<Option<Offset>>)
    requires Underway(pages, scope, size, limit, n, records, asked)
    requires !HasPage(pages, n) || |PageAt(pages, n).records| > size
             || !InScope(Cut(limit, records + PageAt(pages, n).records), scope)
    ensures Unreadable(pages, scope, size, limit)
  {
    forall k: nat ensures !StopsAt(pages, scope, size, limit, k)
    {
      if k <= n {
        NotYetStopped(pages, scope, size, limit, n, k);
      } else if StopsAt(pages, scope, size, limit, k) {
        assert HasPage(pages, n) && |PageAt(pages, n).records| <= size;
        assert FirstRecords(pages, n + 1) == records + PageAt(pages, n).records;
        FirstRecordsGrow(pages, n + 1, k);
        CutGrows(limit, FirstRecords(pages, n + 1), FirstRecords(pages, k));
      }
    }
  }

  lemma CutGrows(limit: Option<nat>, a: seq<Record>, b: seq<Record>)
    requires a <= b
    ensures Cut(limit, a) <= Cut(limit, b)
  {
  }

  /** A repeated offset leaves nothing to read either. */
  lemma RepeatedOffsetDeadEnd(pages: Pages, scope: string, size: nat, limit: Option<nat>, n: nat, i: nat)
    requires OffsetAt(pages, n).Some? && !Reaches(limit, |FirstRecords(pages, n)|)
    requires i < n && OffsetAt(pages, i) == OffsetAt(pages, n)
    ensures Unreadable(pages, scope, size, limit)
  {
    forall k: nat ensures !StopsAt(pages, scope, size, limit, k)
    {
      if k <= n {
        NotYetStopped(pages, scope, size, limit, n, k);
      }
    }
  }

  /** Page `n` read in full, with a new offset to go on. */
  lemma NextPage(pages: Pages, scope: string, size: nat, limit: Option<nat>, n: nat, records: seq<Record>,
        asked: set<Option<Offset>>)
    requires Underway(pages, scope, size, limit, n, records, asked)
    requires HasPage(pages, n) && |PageAt(pages, n).records| <= size && OffsetAt(pages, n + 1).Some?
    requires InScope(records + PageAt(pages, n).records, scope) && !Reaches(limit, |records + PageAt(pages, n).records|)
    requires !Visited(pages, n + 1, OffsetAt(pages, n + 1).value)
    ensures Underway(pages, scope, size, limit, n + 1, records + PageAt(pages, n).records,
        asked + {OffsetAt(pages, n).value})
  {
    SoundChainSnoc(pages, size, n);
    forall o ensures o in asked + {OffsetAt(pages, n).value} <==> Visited(pages, n + 1, o)
    {
      VisitedSnoc(pages, n, o);
    }
  }

  /** The offsets seen so far are those of the chain up to and including page `n`. */
  ghost predicate SeenSoFar(pages: Pages, n: nat, seen: set<Offset>) {
    forall x :: x in seen <==> Visited(pages, n + 1, Some(x))
  }

  lemma SeenNext(pages: Pages, n: nat, seen: set<Offset>, next: Offset)
    requires SeenSoFar(pages, n, seen) && OffsetAt(pages, n + 1) == Some(Some(next))
    ensures SeenSoFar(pages, n + 1, seen + {next})
  {
    forall x ensures x in seen + {next} <==> Visited(pages, n + 2, Some(x))
    {
      VisitedSnoc(pages, n + 1, Some(x));
    }
  }

  /** Page `n` of the chain is `page`, and not too large. */
  ghost predicate GoodPage(pages: Pages, size: nat, n: nat, page: Page) {
    HasPage(pages, n) && PageAt(pages, n) == page && |page.records| <= size
  }

  lemma PageFits(pages: Pages, scope: string, size: nat, limit: Option<nat>, n: nat, records: seq<Record>,
        asked: set<Option<Offset>>)
    requires Underway(pages, scope, size, limit, n, records, asked) && HasPage(pages, n)
    ensures n + 1 <= |pages|
  {
    OneMoreKey(pages, asked, OffsetAt(pages, n).value);
  }

  /** The reading ends with page `n`: the limit is reached in it or no page follows. */
  lemma PageEnds(pages: Pages, scope: string, size: nat, limit: Option<nat>, n: nat, records: seq<Record>,
        asked: set<Option<Offset>>, page: Page, offsets: seq<Offset>)
    requires Underway(pages, scope, size, limit, n, records, asked) && GoodPage(pages, size, n, page)
    requires InScope(Cut(limit, records + page.records), scope)
    requires Reaches(limit, |records + page.records|) || page.next.None?
    requires |offsets| == n && AreOffsets(pages, offsets)
    ensures
      var all := Cut(limit, records + page.records);
      IsReading(pages, scope, size, limit, Reading(all, Receipt(n + 1, |all|, offsets)))
  {
    SoundChainSnoc(pages, size, n);
    assert FirstRecords(pages, n + 1) == records + page.records;
    assert StopsAt(pages, scope, size, limit, n + 1);
  }

  lemma PageRepeats(pages: Pages, scope: string, size: nat, limit: Option<nat>, n: nat, records: seq<Record>,
        asked: set<Option<Offset>>, page: Page, seen: set<Offset>)
    requires Underway(pages, scope, size, limit, n, records, asked) && GoodPage(pages, size, n, page)
    requires !Reaches(limit, |records + page.records|) && page.next.Some?
    requires SeenSoFar(pages, n, seen) && (OffsetAt(pages, n) == Some(page.next) || page.next.value in seen)
    ensures Unreadable(pages, scope, size, limit)
  {
    VisitedSnoc(pages, n, page.next);
    var i: nat :| i < n + 1 && OffsetAt(pages, i) == Some(page.next);
    assert FirstRecords(pages, n + 1) == records + page.records;
    RepeatedOffsetDeadEnd(pages, scope, size, limit, n + 1, i);
  }

  lemma PageGoesOn(pages: Pages, scope: string, size: nat, limit: Option<nat>, n: nat, records: seq<Record>,
        asked: set<Option<Offset>>, page: Page, seen: set<Offset>, offsets: seq<Offset>)
    requires Underway(pages, scope, size, limit, n, records, asked) && GoodPage(pages, size, n, page)
    requires InScope(records + page.records, scope) && !Reaches(limit, |records + page.records|) && page.next.Some?
    requires SeenSoFar(pages, n, seen) && OffsetAt(pages, n) != Some(page.next) && page.next.value !in seen
    requires |offsets| == n && AreOffsets(pages, offsets)
    ensures OffsetAt(pages, n + 1) == Some(page.next)
    ensures Underway(pages, scope, size, limit, n + 1, records + page.records, asked + {OffsetAt(pages, n).value})
    ensures SeenSoFar(pages, n + 1, seen + {page.next.value}) && AreOffsets(pages, offsets + [page.next.value])
  {
    assert OffsetAt(pages, n + 1) == Some(page.next);
    NextPage(pages, scope, size, limit, n, records, asked);
    SeenNext(pages, n, seen, page.next.value);
    AreOffsetsSnoc(pages, offsets, page.next.value);
  }

  lemma AreOffsetsSnoc(pages: Pages, offsets: seq<Offset>, next: Offset)
    requires AreOffsets(pages, offsets) && OffsetAt(pages, |offsets| + 1) == Some(Some(next))
    ensures AreOffsets(pages, offsets + [next])
  {
    var longer := offsets + [next];
    forall i: nat | i < |longer| ensures OffsetAt(pages, i + 1) == Some(Some(longer[i]))
    {
      if i < |offsets| {
        assert longer[i] == offsets[i];
      }
    }
  }

  /** What one page came to: the records taken so far and the offset to go on with, if any. */
  datatype PageRead = PageRead(records: seq<Record>, next: Option<Offset>)

  /** One round of the loop of `read_records`. */
  method ReadPage(provider: RecordingProvider, scope: string, size: nat, limit: Option<nat>, offset: Option<Offset>,
        records: seq<Record>, read: nat, offsets: seq<Offset>, seen: set<Offset>, ghost asked: set<Option<Offset>>)
    returns (r: Result<PageRead, ReadError>)
    requires OffsetAt(provider.pages, read) == Some(offset)
        && Underway(provider.pages, scope, size, limit, read, records, asked)
    requires SeenSoFar(provider.pages, read, seen) && |offsets| == read && AreOffsets(provider.pages, offsets)
    modifies provider`queued, provider`requests
    ensures |provider.requests| <= |old(provider.requests)| + 1
    ensures old(provider.queued) == [] ==> provider.queued == []
    ensures old(provider.queued) == [] && scope == provider.scope && size <= provider.maxPageSize && r.Err? ==>
              Unreadable(provider.pages, scope, size, limit)
    ensures r.Ok? ==> read + 1 <= |provider.pages|
    ensures r.Ok? && r.value.next.None? ==>
              IsReading(provider.pages, scope, size, limit,
                  Reading(r.value.records, Receipt(read + 1, |r.value.records|, offsets)))
    ensures r.Ok? && r.value.next.Some? ==>
              && OffsetAt(provider.pages, read + 1) == Some(r.value.next)
              && Underway(provider.pages, scope, size, limit, read + 1, r.value.records, asked + {offset})
              && SeenSoFar(provider.pages, read + 1, seen + {r.value.next.value})
              && AreOffsets(provider.pages, offsets + [r.value.next.value])
  {
    ghost var pages := provider.pages;
    var answer := provider.ListRecords(scope, Request(offset, size));
    if answer.Err? {
      if offset !in pages { DeadEnd(pages, scope, size, limit, read, records, asked); }
      return Err(answer.error);
    }
    var page := answer.value;
    if |page.records| > size {
      DeadEnd(pages, scope, size, limit, read, records, asked);
      return Err(Oversized);
    }
    PageFits(pages, scope, size, limit, read, records, asked);
    var taken, outcome := TakePage(records, page.records, scope, limit);
    if outcome.Foreign? {
      DeadEnd(pages, scope, size, limit, read, records, asked);
      return Err(RecordScope);
    }
    if outcome.Full? || page.next.None? {
      PageEnds(pages, scope, size, limit, read, records, asked, page, offsets);
      return Ok(PageRead(taken, None));
    }
    if page.next == offset || page.next.value in seen {
      PageRepeats(pages, scope, size, limit, read, records, asked, page, seen);
      return Err(RepeatedOffset);
    }
    PageGoesOn(pages, scope, size, limit, read, records, asked, page, seen, offsets);
    return Ok(PageRead(taken, page.next));
  }

  /** The provider has no queued error, and the request is one it serves. */
  predicate IsFree(provider: RecordingProvider, scope: string, size: nat)
    reads provider
  {
    provider.queued == [] && scope == provider.scope && 1 <= size <= MAX_PAGE_SIZE && size <= provider.maxPageSize
  }

  /** `read_records`. */
  method ReadRecords(provider: RecordingProvider, scope: string, size: nat, limit: Option<nat>)
        returns (r: Result<Reading, ReadError>)
    modifies provider`queued, provider`requests
    ensures r.Ok? ==> IsReading(provider.pages, scope, size, limit, r.value)
    ensures |provider.requests| <= |old(provider.requests)| + |provider.pages| + 1
    ensures old(IsFree(provider, scope, size)) ==> (r.Err? <==> Unreadable(provider.pages, scope, size, limit))
  {
    if !(1 <= size <= MAX_PAGE_SIZE) {
      return Err(InvalidPageSize);
    }
    ghost var pages := provider.pages;
    var offset: Option<Offset> := None;
    var records: seq<Record> := [];
    var read := 0;
    var offsets: seq<Offset> := [];
    var seen: set<Offset> := {};
    ghost var asked: set<Option<Offset>> := {};
    while true
      invariant provider.pages == pages && read <= |pages|
      invariant old(provider.queued) == [] ==> provider.queued == []
      invariant |provider.requests| <= |old(provider.requests)| + read
      invariant OffsetAt(pages, read) == Some(offset)
      invariant Underway(pages, scope, size, limit, read, records, asked)
      invariant SeenSoFar(pages, read, seen)
      invariant |offsets| == read && AreOffsets(pages, offsets)
      decreases |pages| - read
    {
      var page := ReadPage(provider, scope, size, limit, offset, records, read, offsets, seen, asked);
      if page.Err? {
        return Err(page.error);
      }
      records := page.value.records;
      if page.value.next.None? {
        return Ok(Reading(records, Receipt(read + 1, |records|, offsets)));
      }
      seen, asked := seen + {page.value.next.value}, asked + {offset};
      offsets, offset, read := offsets + [page.value.next.value], page.value.next, read + 1;
    }
  }

  lemma OneMoreKey(pages: Pages, asked: set<Option<Offset>>, o: Option<Offset>)
    requires asked <= pages.Keys && o in pages && o !in asked
    ensures |asked| + 1 <= |pages|
  {
    SubsetSize(asked + {o}, pages.Keys);
  }

  lemma SubsetSize<T>(a: set<T>, b: set<T>)
    requires a <= b
    ensures |a| <= |b|
  {
    assert |b| == |a| + |b - a|;
  }

  lemma SoundChainSnoc(pages: Pages, size: nat, n: nat)
    requires SoundChain(pages, size, n) && HasPage(pages, n) && |PageAt(pages, n).records| <= size
    requires !Visited(pages, n, OffsetAt(pages, n).value)
    ensures SoundChain(pages, size, n + 1)
  {
  }

  lemma {:induction false} NothingAfterEnd(pages: Pages, n: nat, m: nat)
    requires n <= m && OffsetAt(pages, n).None?
    ensures FirstRecords(pages, m) == FirstRecords(pages, n) && OffsetAt(pages, m).None?
    decreases m
  {
    if n < m {
      NothingAfterEnd(pages, n, m - 1);
    }
  }

  /** What is read is the whole chain, or its first records up to the cutoff, however far the chain goes on. */
  lemma ReadingCutsWholeChain(pages: Pages, scope: string, size: nat, limit: Option<nat>, r: Reading, m: nat)
    requires IsReading(pages, scope, size, limit, r) && r.receipt.pages <= m
    ensures r.records == Cut(limit, FirstRecords(pages, m))
    ensures InScope(r.records, scope)
    ensures |r.records| == if Reaches(limit, |FirstRecords(pages, m)|) then Cutoff(limit).value
        else |FirstRecords(pages, m)|
  {
    var n := r.receipt.pages;
    if Reaches(limit, |FirstRecords(pages, n)|) {
      FirstRecordsGrow(pages, n, m);
      CutGrows(limit, FirstRecords(pages, n), FirstRecords(pages, m));
    } else {
      NothingAfterEnd(pages, n, m);
    }
  }

  /** A reading stays within its limit exactly when the limit is not zero or no page of the chain has a record. */
  lemma WithinLimitIff(pages: Pages, scope: string, size: nat, m: nat, r: Reading)
    requires IsReading(pages, scope, size, Some(m), r)
    ensures |r.records| <= m <==> m > 0 || forall n: nat :: FirstRecords(pages, n) == []
  {
    ReadingCutsWholeChain(pages, scope, size, Some(m), r, r.receipt.pages);
    if m == 0 && r.records == [] {
      forall n: nat ensures FirstRecords(pages, n) == []
      {
        if n <= r.receipt.pages {
          FirstRecordsGrow(pages, n, r.receipt.pages);
        } else {
          ReadingCutsWholeChain(pages, scope, size, Some(m), r, n);
        }
      }
    }
  }

  /** A limit of zero, and one page of one record: that record is read. */
  lemma ZeroLimitReadsOne(record: Record)
    ensures
      var pages: Pages := map[None := Page([record], None)];
      IsReading(pages, record.scope, 1, Some(0), Reading([record], Receipt(1, 1, [])))
  {
    var pages: Pages := map[None := Page([record], None)];
    assert OffsetAt(pages, 0) == Some(None) && HasPage(pages, 0) && OffsetAt(pages, 1).None?;
    assert FirstRecords(pages, 0) == [] && FirstRecords(pages, 1) == [] + [record];
    assert StopsAt(pages, record.scope, 1, Some(0), 1);
  }
}
