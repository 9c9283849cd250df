/** Reads through a point in time: a cursor loop that gives the whole result or raises. */
module ReadAdapter {
  import opened Basics
  import opened Text
  import opened Json

  datatype ReadError =
    | InvalidIndices
    | PartialOpen
    | PartialOrTimedOutSearch
    | MalformedHits
    | MissingOrRepeatedCursor
    | SourceUnavailable
    | PageBudgetExhausted
    | TransportError

  type Cursor = seq<Value>

  /** A search hit: its sort values, where they are a list, and its source, where that is a dictionary. */
  datatype Hit = NotADictionary | Hit(sort: Option<Cursor>, source: Option<map<string, Value>>, rest: Value)

  datatype HitList = Absent | NotAList | Hits(items: seq<Hit>)

  /** What a search gives: a decoded body, or an exception of the transport's own. A body without a readable
      shard report has no count of failed shards; one that reports none has the count zero. */
  datatype Reply =
    | Raised
    | Reply(pit: Option<string>, timedOut: bool, failedShards: Option<nat>, terminatedEarly: bool, hits: HitList)

  datatype Opening = NotOpened | Opening(pit: string, failedShards: Option<nat>)

  datatype Request = Request(pit: string, size: nat, after: Option<Cursor>)

  datatype Exchange = Exchange(request: Request, reply: Reply)

  const HEADS := ["nw-ops-raw-core", "nw-ops-raw-chnl", "nw-ops-raw-info",
                  "nw-core-job-run", "nw-chnl-job-run", "nw-info-job-run", "nw-unmapped-job-run"]

  predicate IsMonthSuffix(s: string)
    requires |s| == 8
  {
    && s[0] == '-' && AllDigits(s[1..5]) && s[5] == '-'
    && ((s[6] == '0' && '1' <= s[7] <= '9') || (s[6] == '1' && '0' <= s[7] <= '2'))
  }

  predicate IsReadableIndex(index: Value) {
    index.Str? && |index.text| > 8 && index.text[..|index.text| - 8] in HEADS
      && IsMonthSuffix(index.text[|index.text| - 8..])
  }

  predicate Readable(indices: seq<Value>) {
    indices != [] && forall i | i in indices :: IsReadableIndex(i)
  }

  /** The point in time a reply leaves current. */
  function PitAfter(pit: string, reply: Reply): string {
    if reply.Reply? && reply.pit.Some? then reply.pit.value else pit
  }

  function Degradation(reply: Reply): Option<ReadError>
    requires reply.Reply?
  {
    if reply.timedOut then Some(PartialOrTimedOutSearch)
    else if reply.failedShards.None? then Some(TransportError)
    else if reply.failedShards.value != 0 || reply.terminatedEarly then Some(PartialOrTimedOutSearch)
    else None
  }

  predicate HasSource(hit: Hit) {
    hit.Hit? && hit.source.Some?
  }

  /** A cursor that moves the scan on. */
  predicate Advances(cursor: Option<Cursor>, after: Option<Cursor>) {
    cursor.Some? && cursor.value != [] && after != cursor
  }

  datatype Page =
    | Broken(sound: seq<Hit>, error: ReadError)
    | Last
    | Full(hits: seq<Hit>, next: Cursor)

  /** Hits up to the first one without a source. */
  function SoundPrefix(hits: seq<Hit>): (r: seq<Hit>)
    ensures r <= hits && forall h | h in r :: HasSource(h)
    ensures |r| < |hits| ==> !HasSource(hits[|r|])
  {
    if hits == [] || !HasSource(hits[0]) then [] else [hits[0]] + SoundPrefix(hits[1..])
  }

  function PageOf(reply: Reply, after: Option<Cursor>): Page {
    if reply.Raised? then Broken([], TransportError)
    else if Degradation(reply).Some? then Broken([], Degradation(reply).value)
    else if reply.hits.Absent? then Broken([], TransportError)
    else if reply.hits.NotAList? then Broken([], MalformedHits)
    else if reply.hits.items == [] then Last
    else
      var hits := reply.hits.items;
      var last := hits[|hits| - 1];
      if !last.Hit? then Broken([], TransportError)
      else if !Advances(last.sort, after) then Broken([], MissingOrRepeatedCursor)
      else
        var sound := SoundPrefix(hits);
        if sound == hits then Full(hits, last.sort.value)
        else Broken(sound, if hits[|sound|].Hit? then SourceUnavailable else TransportError)
  }

  // ---- The scan as a function of the transport's answers --------------------------------------

  /** How the transport answers: by the number of searches made before, so that a history of answers
      of any kind is possible. */
  type Answers = (nat, Request) -> Reply

  datatype Trace = Trace(yielded: seq<Hit>, failure: Option<ReadError>, pit: string, exchanges: seq<Exchange>)

  function Walk(answers: Answers, made: nat, size: nat, pit: string, after: Option<Cursor>, budget: nat): Trace
    decreases budget
  {
    if budget == 0 then Trace([], Some(PageBudgetExhausted), pit, [])
    else
      var request := Request(pit, size, after);
      var reply := answers(made, request);
      match PageOf(reply, after)
      case Broken(sound, error) => Trace(sound, Some(error), PitAfter(pit, reply), [Exchange(request, reply)])
      case Last => Trace([], None, PitAfter(pit, reply), [Exchange(request, reply)])
      case Full(hits, next) =>
        var rest := Walk(answers, made + 1, size, PitAfter(pit, reply), Some(next), budget - 1);
        rest.(yielded := hits + rest.yielded, exchanges := [Exchange(request, reply)] + rest.exchanges)
  }

  lemma SoundPrefixSteps(page: seq<Hit>, i: nat)
    requires i < |page|
    ensures SoundPrefix(page[i..]) == if HasSource(page[i]) then [page[i]] + SoundPrefix(page[i + 1..]) else []
  {
    assert page[i..][0] == page[i] && page[i..][1..] == page[i + 1..];
  }

  lemma OneMoreHit(page: seq<Hit>, i: nat, rest: seq<Hit>)
    requires i < |page|
    ensures page[..i] + ([page[i]] + rest) == page[..i + 1] + rest
    ensures page[..i] + [] == page[..i] && page[..i] != page
  {}

  /** A trace is what was yielded and exchanged so far, followed by the rest of it. */
  ghost predicate Remains(whole: Trace, base: seq<Exchange>, yielded: seq<Hit>, exchanges: seq<Exchange>, rest: Trace) {
    && whole.yielded == yielded + rest.yielded && whole.failure == rest.failure && whole.pit == rest.pit
    && base + whole.exchanges == exchanges + rest.exchanges
  }

  lemma RemainsAfter(whole: Trace, base: seq<Exchange>, yielded: seq<Hit>, exchanges: seq<Exchange>, w: Trace,
                     hits: seq<Hit>, x: Exchange, rest: Trace)
    requires Remains(whole, base, yielded, exchanges, w)
    requires w == rest.(yielded := hits + rest.yielded, exchanges := [x] + rest.exchanges)
    ensures Remains(whole, base, yielded + hits, exchanges + [x], rest)
  {
    assert yielded + (hits + rest.yielded) == (yielded + hits) + rest.yielded;
    assert exchanges + ([x] + rest.exchanges) == (exchanges + [x]) + rest.exchanges;
  }

  /** One round of the scan, from what its reply means. */
  lemma WalkSteps(answers: Answers, made: nat, size: nat, pit: string, after: Option<Cursor>, budget: nat, w: Trace)
    requires budget > 0 && w == Walk(answers, made, size, pit, after, budget)
    ensures var request := Request(pit, size, after);
            var reply := answers(made, request);
            match PageOf(reply, after)
            case Broken(sound, error) =>
              w == Trace(sound, Some(error), PitAfter(pit, reply), [Exchange(request, reply)])
            case Last => w == Trace([], None, PitAfter(pit, reply), [Exchange(request, reply)])
            case Full(hits, next) =>
              var rest := Walk(answers, made + 1, size, PitAfter(pit, reply), Some(next), budget - 1);
              w == rest.(yielded := hits + rest.yielded, exchanges := [Exchange(request, reply)] + rest.exchanges)
  {}

  class Transport {
    const opens: seq<Value> -> Opening
    const answers: Answers
    const closes: string -> bool
    var openings: seq<seq<Value>>
    var exchanges: seq<Exchange>
    var closed: seq<string>

    constructor (opens: seq<Value> -> Opening, answers: Answers, closes: string -> bool)
      ensures this.opens == opens && this.answers == answers && this.closes == closes
      ensures openings == [] && exchanges == [] && closed == []
    {
      this.opens, this.answers, this.closes := opens, answers, closes;
      openings, exchanges, closed := [], [], [];
    }

    method OpenPointInTime(indices: seq<Value>) returns (reply: Opening)
      modifies this`openings
      ensures reply == opens(indices) && openings == old(openings) + [indices]
    {
      reply := opens(indices);
      openings := openings + [indices];
    }

    method Search(request: Request) returns (reply: Reply)
      modifies this`exchanges
      ensures reply == answers(|old(exchanges)|, request) && exchanges == old(exchanges) + [Exchange(request, reply)]
    {
      reply := answers(|exchanges|, request);
      exchanges := exchanges + [Exchange(request, reply)];
    }

    method ClosePointInTime(pit: string) returns (ok: bool)
      modifies this`closed
      ensures ok == closes(pit) && closed == old(closed) + [pit]
    {
      ok := closes(pit);
      closed := closed + [pit];
    }
  }

  /** What a scan that opened its point in time yields, before it is closed. */
  function Scanned(opening: Opening, answers: Answers, made: nat, size: nat, budget: nat): Trace
    requires opening.Opening?
  {
    var pit := opening.pit;
    if opening.failedShards.None? then Trace([], Some(TransportError), pit, [])
    else if opening.failedShards.value != 0 then Trace([], Some(PartialOpen), pit, [])
    else Walk(answers, made, size, pit, None, budget)
  }

  function BatchOf(scanned: Trace, closes: bool): Result<seq<Hit>, ReadError> {
    if !closes then Err(TransportError)
    else if scanned.failure.Some? then Err(scanned.failure.value)
    else Ok(scanned.yielded)
  }

  class ElasticsearchReadAdapter {
    const transport: Transport
    const pageSize: nat
    const maxPages: nat

    constructor (transport: Transport, pageSize: nat, maxPages: nat)
      requires 1 <= pageSize <= 1000 && maxPages >= 1
      ensures this.transport == transport && this.pageSize == pageSize && this.maxPages == maxPages
    {
      this.transport, this.pageSize, this.maxPages := transport, pageSize, maxPages;
    }

    static method Create(transport: Transport, pageSize: int, maxPages: int)
      returns (adapter: Option<ElasticsearchReadAdapter>)
      ensures adapter.Some? <==> 1 <= pageSize <= 1000 && maxPages >= 1
      ensures adapter.Some? ==> adapter.value.transport == transport
                                && adapter.value.pageSize == pageSize && adapter.value.maxPages == maxPages
    {
      if !(1 <= pageSize <= 1000) || maxPages < 1 {
        return None;
      }
      var made := new ElasticsearchReadAdapter(transport, pageSize, maxPages);
      adapter := Some(made);
    }

    /** Decides what one reply means for the scan. */
    method Examine(reply: Reply, after: Option<Cursor>) returns (page: Page)
      ensures page == PageOf(reply, after)
    {
      if reply.Raised? {
        return Broken([], TransportError);
      }
      var degraded := Degradation(reply);
      if degraded.Some? {
        return Broken([], degraded.value);
      }
      if reply.hits.Absent? {
        return Broken([], TransportError);
      }
      if reply.hits.NotAList? {
        return Broken([], MalformedHits);
      }
      var items := reply.hits.items;
      if items == [] {
        return Last;
      }
      if !items[|items| - 1].Hit? {
        return Broken([], TransportError);
      }
      var next := items[|items| - 1].sort;
      if !Advances(next, after) {
        return Broken([], MissingOrRepeatedCursor);
      }
      var sound, fault := YieldAll(items);
      page := if fault.Some? then Broken(sound, fault.value) else Full(items, next.value);
    }

    /** Hands the hits of one page on, up to the first without a source. */
    method YieldAll(page: seq<Hit>) returns (sound: seq<Hit>, fault: Option<ReadError>)
      ensures sound == SoundPrefix(page)
      ensures fault.None? <==> sound == page
      ensures fault.Some? ==> fault.value == if page[|sound|].Hit? then SourceUnavailable else TransportError
    {
      var i := 0;
      while i < |page|
        invariant 0 <= i <= |page|
        invariant SoundPrefix(page) == page[..i] + SoundPrefix(page[i..])
      {
        SoundPrefixSteps(page, i);
        OneMoreHit(page, i, SoundPrefix(page[i + 1..]));
        if !page[i].Hit? {
          return page[..i], Some(TransportError);
        }
        if page[i].source.None? {
          return page[..i], Some(SourceUnavailable);
        }
        i := i + 1;
      }
      sound, fault := page, None;
    }

    /** The cursor loop, from an opened point in time to where it is to be closed. */
    method Loop(start: string) returns (yielded: seq<Hit>, failure: Option<ReadError>, pit: string)
      modifies transport`exchanges
      ensures var w := Walk(transport.answers, |old(transport.exchanges)|, pageSize, start, None, maxPages);
              && yielded == w.yielded && failure == w.failure && pit == w.pit
              && transport.exchanges == old(transport.exchanges) + w.exchanges
    {
      pit := start;
      yielded := [];
      var after: Option<Cursor> := None;
      var pages := 0;
      ghost var whole := Walk(transport.answers, |old(transport.exchanges)|, pageSize, start, None, maxPages);
      ghost var rest := whole;
      while pages < maxPages
        invariant pages <= maxPages
        invariant rest == Walk(transport.answers, |transport.exchanges|, pageSize, pit, after, maxPages - pages)
        invariant Remains(whole, old(transport.exchanges), yielded, transport.exchanges, rest)
      {
        ghost var w, before, sofar := rest, transport.exchanges, yielded;
        WalkSteps(transport.answers, |transport.exchanges|, pageSize, pit, after, maxPages - pages, w);
        var reply := transport.Search(Request(pit, pageSize, after));
        pit := PitAfter(pit, reply);
        var page := Examine(reply, after);
        match page {
          case Broken(sound, error) =>
            return yielded + sound, Some(error), pit;
          case Last =>
            return yielded, None, pit;
          case Full(hits, next) =>
            yielded := yielded + hits;
            after := Some(next);
            pages := pages + 1;
            rest := Walk(transport.answers, |transport.exchanges|, pageSize, pit, after, maxPages - pages);
            RemainsAfter(whole, old(transport.exchanges), sofar, before, w, hits, transport.exchanges[|before|], rest);
        }
      }
      failure := Some(PageBudgetExhausted);
    }

    /** `scan`, run to its end: the point in time is closed once, as last named, whatever happened. */
    method ReadBatch(indices: seq<Value>) returns (batch: Result<seq<Hit>, ReadError>)
      modifies transport
      ensures !Readable(indices) ==> batch == Err(InvalidIndices) && unchanged(transport)
      ensures Readable(indices) && transport.opens(indices).NotOpened? ==>
                batch == Err(TransportError) && unchanged(transport`exchanges, transport`closed)
      ensures Readable(indices) && transport.opens(indices).Opening? ==>
                var scanned := Scanned(transport.opens(indices), transport.answers, |old(transport.exchanges)|,
                                       pageSize, maxPages);
                && batch == BatchOf(scanned, transport.closes(scanned.pit))
                && transport.exchanges == old(transport.exchanges) + scanned.exchanges
                && transport.closed == old(transport.closed) + [scanned.pit]
    {
      if !Readable(indices) {
        return Err(InvalidIndices);
      }
      var opening := transport.OpenPointInTime(indices);
      if opening.NotOpened? {
        return Err(TransportError);
      }
      var pit := opening.pit;
      var hits: seq<Hit>, failure: Option<ReadError> := [], None;
      if opening.failedShards.None? {
        failure := Some(TransportError);
      } else if opening.failedShards.value != 0 {
        failure := Some(PartialOpen);
      } else {
        hits, failure, pit := Loop(pit);
      }
      var ok := transport.ClosePointInTime(pit);
      if !ok {
        return Err(TransportError);
      }
      batch := if failure.Some? then Err(failure.value) else Ok(hits);
    }
  }

  // ---- All or nothing -----------------------------------------------------------------------

  function AllHits(exchanges: seq<Exchange>): seq<Hit> {
    if exchanges == [] then [] else ServedBy(exchanges[0].reply) + AllHits(exchanges[1..])
  }

  /** The hits of a reply, if it lists any. */
  function ServedBy(reply: Reply): seq<Hit> {
    if reply.Reply? && reply.hits.Hits? then reply.hits.items else []
  }

  predicate Clean(x: Exchange) {
    && x.reply.Reply? && !x.reply.timedOut && !x.reply.terminatedEarly && x.reply.failedShards == Some(0)
    && x.reply.hits.Hits?
    && forall h | h in ServedBy(x.reply) :: HasSource(h)
  }

  /** The sort values of the last hit. */
  function LastSort(hits: seq<Hit>): Option<Cursor> {
    if hits != [] && hits[|hits| - 1].Hit? then hits[|hits| - 1].sort else None
  }

  /** The request continues where the exchange before it stopped. */
  predicate Continues(x: Exchange, y: Exchange) {
    && y.request.after == LastSort(ServedBy(x.reply)) && Advances(y.request.after, x.request.after)
    && y.request.pit == PitAfter(x.request.pit, x.reply) && y.request.size == x.request.size
  }

  /** A chain of clean pages, each continuing the one before, of which only the last is empty. */
  predicate CompleteChain(exchanges: seq<Exchange>) {
    && exchanges != [] && Clean(exchanges[0])
    && if |exchanges| == 1 then ServedBy(exchanges[0].reply) == []
       else Continues(exchanges[0], exchanges[1]) && CompleteChain(exchanges[1..])
  }

  /** So one timed-out, partial, terminated, malformed or sourceless page anywhere breaks it. */
  lemma {:induction false} ChainsAreClean(exchanges: seq<Exchange>, x: Exchange)
    requires CompleteChain(exchanges) && x in exchanges
    ensures Clean(x)
  {
    if x != exchanges[0] {
      assert exchanges == [exchanges[0]] + exchanges[1..];
      ChainsAreClean(exchanges[1..], x);
    }
  }

  lemma CleanPages(x: Exchange)
    ensures var page := PageOf(x.reply, x.request.after);
            && (page.Last? <==> Clean(x) && ServedBy(x.reply) == [])
            && (page.Full? ==> Clean(x) && page.hits == ServedBy(x.reply) != [])
            && (page.Full? ==>
                  Some(page.next) == LastSort(ServedBy(x.reply)) && Advances(Some(page.next), x.request.after))
            && (page.Broken? && Clean(x) ==>
                  ServedBy(x.reply) != [] && !Advances(LastSort(ServedBy(x.reply)), x.request.after))
            && (page.Broken? ==> page.sound <= ServedBy(x.reply))
  {
    var hits := ServedBy(x.reply);
    if hits != [] {
      assert hits[|hits| - 1] in hits;
    }
  }

  lemma ChainHead(x: Exchange, rest: seq<Exchange>)
    requires Clean(x) && rest != [] && Continues(x, rest[0])
    ensures CompleteChain([x] + rest) <==> CompleteChain(rest)
  {
    assert ([x] + rest)[1..] == rest;
  }

  lemma HitsOfFirst(x: Exchange, rest: seq<Exchange>)
    ensures AllHits([x] + rest) == ServedBy(x.reply) + AllHits(rest)
  {
    assert ([x] + rest)[1..] == rest;
  }

  lemma WalkStarts(answers: Answers, made: nat, size: nat, pit: string, after: Option<Cursor>, budget: nat)
    ensures var w := Walk(answers, made, size, pit, after, budget);
            && (w.exchanges == [] <==> budget == 0)
            && (w.exchanges != [] ==> w.exchanges[0].request == Request(pit, size, after))
  {}

  /** A scan succeeds exactly when its exchanges form a complete chain of clean pages, and it then
      yields the hits of those pages, in order; a failing scan has yielded a prefix of them. */
  predicate Faithful(w: Trace) {
    && (w.failure.None? <==> CompleteChain(w.exchanges))
    && w.yielded <= AllHits(w.exchanges)
    && (w.failure.None? ==> w.yielded == AllHits(w.exchanges))
  }

  lemma LonePageIsFaithful(x: Exchange, w: Trace)
    requires w.exchanges == [x] && match PageOf(x.reply, x.request.after)
                                   case Last => w.failure.None? && w.yielded == []
                                   case Broken(sound, error) => w.failure == Some(error) && w.yielded == sound
                                   case Full(_, _) => false
    ensures Faithful(w)
  {
    CleanPages(x);
    HitsOfFirst(x, []);
  }

  lemma FullPageIsFaithful(x: Exchange, rest: Trace, w: Trace)
    requires PageOf(x.reply, x.request.after).Full? && Faithful(rest)
    requires rest.exchanges != [] ==> Continues(x, rest.exchanges[0])
    requires w == rest.(yielded := ServedBy(x.reply) + rest.yielded, exchanges := [x] + rest.exchanges)
    ensures Faithful(w)
  {
    CleanPages(x);
    HitsOfFirst(x, rest.exchanges);
    if rest.exchanges != [] {
      ChainHead(x, rest.exchanges);
    }
  }

  lemma Continuation(x: Exchange, y: Exchange)
    requires PageOf(x.reply, x.request.after).Full?
    requires y.request == Request(PitAfter(x.request.pit, x.reply), x.request.size,
                                  Some(PageOf(x.reply, x.request.after).next))
    ensures Continues(x, y)
  {
    CleanPages(x);
  }

  lemma {:induction false} WalkIsFaithful(answers: Answers, made: nat, size: nat, pit: string, after: Option<Cursor>,
                                          budget: nat, w: Trace)
    requires w == Walk(answers, made, size, pit, after, budget)
    ensures Faithful(w)
    decreases budget
  {
    if budget > 0 {
      var x := Exchange(Request(pit, size, after), answers(made, Request(pit, size, after)));
      if PageOf(x.reply, after).Full? {
        var next := Some(PageOf(x.reply, after).next);
        var rest := Walk(answers, made + 1, size, PitAfter(pit, x.reply), next, budget - 1);
        WalkIsFaithful(answers, made + 1, size, PitAfter(pit, x.reply), next, budget - 1, rest);
        WalkStarts(answers, made + 1, size, PitAfter(pit, x.reply), next, budget - 1);
        ContinuedIsFaithful(x, rest, w);
      } else {
        LonePageIsFaithful(x, w);
      }
    }
  }

  lemma {:induction false} WalkKeepsBudget(answers: Answers, made: nat, size: nat, pit: string, after: Option<Cursor>,
                                           budget: nat, w: Trace)
    requires w == Walk(answers, made, size, pit, after, budget)
    ensures |w.exchanges| <= budget
    decreases budget
  {
    if budget > 0 {
      var reply := answers(made, Request(pit, size, after));
      if PageOf(reply, after).Full? {
        var next := Some(PageOf(reply, after).next);
        WalkKeepsBudget(answers, made + 1, size, PitAfter(pit, reply), next, budget - 1,
                        Walk(answers, made + 1, size, PitAfter(pit, reply), next, budget - 1));
      }
    }
  }

  lemma ContinuedIsFaithful(x: Exchange, rest: Trace, w: Trace)
    requires PageOf(x.reply, x.request.after).Full? && Faithful(rest)
    requires var next := Request(PitAfter(x.request.pit, x.reply), x.request.size,
                                 Some(PageOf(x.reply, x.request.after).next));
             rest.exchanges != [] ==> rest.exchanges[0].request == next
    requires w == rest.(yielded := PageOf(x.reply, x.request.after).hits + rest.yielded,
                        exchanges := [x] + rest.exchanges)
    ensures Faithful(w)
  {
    CleanPages(x);
    if rest.exchanges != [] {
      Continuation(x, rest.exchanges[0]);
    }
    FullPageIsFaithful(x, rest, w);
  }

  /** The point in time last named by the transport. */
  function LatestPit(start: string, exchanges: seq<Exchange>): string {
    if exchanges == [] then start
    else PitAfter(LatestPit(start, exchanges[..|exchanges| - 1]), exchanges[|exchanges| - 1].reply)
  }

  lemma {:induction false} LatestPitFromFirst(start: string, x: Exchange, rest: seq<Exchange>)
    ensures LatestPit(start, [x] + rest) == LatestPit(PitAfter(start, x.reply), rest)
  {
    var all := [x] + rest;
    if rest == [] {
      assert all[..|all| - 1] == [];
    } else {
      assert all[..|all| - 1] == [x] + rest[..|rest| - 1];
      LatestPitFromFirst(start, x, rest[..|rest| - 1]);
    }
  }

  /** Where the scan ends, by success or by any failure, it holds the latest point in time. */
  lemma {:induction false} WalkHoldsLatestPit(answers: Answers, made: nat, size: nat, pit: string,
                                              after: Option<Cursor>, budget: nat, w: Trace)
    requires w == Walk(answers, made, size, pit, after, budget)
    ensures w.pit == LatestPit(pit, w.exchanges)
    decreases budget
  {
    if budget > 0 {
      var x := Exchange(Request(pit, size, after), answers(made, Request(pit, size, after)));
      LatestPitFromFirst(pit, x, []);
      if PageOf(x.reply, after).Full? {
        var next := Some(PageOf(x.reply, after).next);
        var rest := Walk(answers, made + 1, size, PitAfter(pit, x.reply), next, budget - 1);
        WalkHoldsLatestPit(answers, made + 1, size, PitAfter(pit, x.reply), next, budget - 1, rest);
        LatestPitFromFirst(pit, x, rest.exchanges);
      }
    }
  }

  /** A batch is given out exactly when every reply was clean: start on all shards, an unbroken chain of
      clean pages down to an empty one, and closed. It is then all their hits. */
  lemma BatchIsAllOrNothing(opening: Opening, answers: Answers, size: nat, budget: nat, closes: bool)
    requires opening.Opening?
    ensures var scanned := Scanned(opening, answers, 0, size, budget);
            && (BatchOf(scanned, closes).Ok? <==>
                 closes && opening.failedShards == Some(0) && CompleteChain(scanned.exchanges))
            && (BatchOf(scanned, closes).Ok? ==> BatchOf(scanned, closes).value == AllHits(scanned.exchanges))
            && scanned.pit == LatestPit(opening.pit, scanned.exchanges)
            && |scanned.exchanges| <= budget
  {
    var w := Walk(answers, 0, size, opening.pit, None, budget);
    WalkIsFaithful(answers, 0, size, opening.pit, None, budget, w);
    WalkKeepsBudget(answers, 0, size, opening.pit, None, budget, w);
    WalkHoldsLatestPit(answers, 0, size, opening.pit, None, budget, w);
  }

  // ---- A healthy transport ------------------------------------------------------------------

  /** Hits that carry sources and cursors, in strictly increasing order of cursor. */
  ghost predicate Ordered(all: seq<Hit>, rank: Cursor -> int) {
    && (forall i :: 0 <= i < |all| ==> HasSource(all[i]) && all[i].sort.Some? && all[i].sort.value != [])
    && (forall i, j :: 0 <= i < j < |all| ==> rank(all[i].sort.value) < rank(all[j].sort.value))
  }

  function Beyond(all: seq<Hit>, rank: Cursor -> int, cursor: Cursor): seq<Hit> {
    if all == [] then []
    else
      (if all[0].Hit? && all[0].sort.Some? && rank(all[0].sort.value) > rank(cursor) then [all[0]] else [])
      + Beyond(all[1..], rank, cursor)
  }

  function Matching(all: seq<Hit>, rank: Cursor -> int, after: Option<Cursor>): seq<Hit> {
    if after.None? then all else Beyond(all, rank, after.value)
  }

  function Take(hits: seq<Hit>, size: nat): seq<Hit> {
    if |hits| <= size then hits else hits[..size]
  }

  ghost predicate Serves(reply: Reply, page: seq<Hit>) {
    reply.Reply? && Degradation(reply).None? && reply.hits == Hits(page)
  }

  ghost predicate ServesFrom(answers: Answers, all: seq<Hit>, rank: Cursor -> int, n: nat, request: Request) {
    Serves(answers(n, request), Take(Matching(all, rank, request.after), request.size))
  }

  /** Every search is answered by the first hits beyond its cursor. */
  ghost predicate Healthy(answers: Answers, all: seq<Hit>, rank: Cursor -> int) {
    forall n, request :: ServesFrom(answers, all, rank, n, request)
  }

  lemma {:induction false} BeyondAll(all: seq<Hit>, rank: Cursor -> int, cursor: Cursor)
    requires forall i :: 0 <= i < |all| ==> all[i].Hit? && all[i].sort.Some? && rank(all[i].sort.value) > rank(cursor)
    ensures Beyond(all, rank, cursor) == all
  {
    if all != [] {
      BeyondAll(all[1..], rank, cursor);
    }
  }

  lemma {:induction false} BeyondIsSuffix(all: seq<Hit>, rank: Cursor -> int, k: nat)
    requires Ordered(all, rank) && 0 < k <= |all|
    ensures Beyond(all, rank, all[k - 1].sort.value) == all[k..]
  {
    var rest := all[1..];
    assert Ordered(rest, rank);
    if k == 1 {
      BeyondAll(rest, rank, all[0].sort.value);
    } else {
      assert rest[k - 2] == all[k - 1];
      BeyondIsSuffix(rest, rank, k - 1);
      assert rest[k - 1..] == all[k..];
    }
  }

  lemma {:induction false} AllSound(hits: seq<Hit>)
    requires forall h | h in hits :: HasSource(h)
    ensures SoundPrefix(hits) == hits
  {
    if hits != [] {
      AllSound(hits[1..]);
    }
  }

  /** How many non-empty pages it takes. */
  function PageCount(n: nat, size: nat): nat
    requires size >= 1
  {
    if n == 0 then 0 else 1 + PageCount(if n <= size then 0 else n - size, size)
  }

  lemma {:induction false} MultiplesApart(x: int, y: int, d: nat)
    requires x < y
    ensures x * d + d <= y * d
    decreases y - x
  {
    assert y * d == (y - 1) * d + d;
    if x < y - 1 {
      MultiplesApart(x, y - 1, d);
    }
  }

  lemma QuotientIs(a: nat, d: nat, q: nat)
    requires d >= 1 && q * d <= a < q * d + d
    ensures a / d == q
  {
    if a / d < q {
      MultiplesApart(a / d, q, d);
    } else if a / d > q {
      MultiplesApart(q, a / d, d);
    }
  }

  lemma {:induction false} PageCountBounds(n: nat, size: nat)
    requires size >= 1
    ensures PageCount(n, size) * size <= n + size - 1 < PageCount(n, size) * size + size
  {
    if n > size {
      PageCountBounds(n - size, size);
      assert PageCount(n, size) * size == PageCount(n - size, size) * size + size;
    } else if n > 0 {
      assert PageCount(0, size) == 0;
    }
  }

  lemma PageCountIsCeiling(n: nat, size: nat)
    requires size >= 1
    ensures PageCount(n, size) == (n + size - 1) / size
  {
    PageCountBounds(n, size);
    QuotientIs(n + size - 1, size, PageCount(n, size));
  }

  function CursorAt(all: seq<Hit>, k: nat): Option<Cursor>
    requires k <= |all|
  {
    if k > 0 && all[k - 1].Hit? then all[k - 1].sort else None
  }

  function PageEnd(all: seq<Hit>, k: nat, size: nat): (end: nat)
    requires k <= |all| && size >= 1
    ensures k <= end <= |all| && (k < |all| ==> k < end)
  {
    if |all| - k <= size then |all| else k + size
  }

  lemma HealthyHits(all: seq<Hit>, rank: Cursor -> int, k: nat, size: nat)
    requires Ordered(all, rank) && k <= |all| && size >= 1
    ensures Take(Matching(all, rank, CursorAt(all, k)), size) == all[k..PageEnd(all, k, size)]
  {
    if k > 0 {
      BeyondIsSuffix(all, rank, k);
    }
    assert Matching(all, rank, CursorAt(all, k)) == all[k..];
  }

  lemma ServedPage(reply: Reply, after: Option<Cursor>, page: seq<Hit>)
    requires Serves(reply, page) && forall h | h in page :: HasSource(h)
    requires page != [] ==> Advances(LastSort(page), after)
    ensures PageOf(reply, after) == if page == [] then Last else Full(page, LastSort(page).value)
  {
    AllSound(page);
  }

  lemma HealthyPage(all: seq<Hit>, rank: Cursor -> int, k: nat, size: nat, reply: Reply)
    requires Ordered(all, rank) && k <= |all| && size >= 1
    requires Serves(reply, Take(Matching(all, rank, CursorAt(all, k)), size))
    ensures PageOf(reply, CursorAt(all, k)).Last? <==> k == |all|
    ensures k < |all| ==> PageOf(reply, CursorAt(all, k)).Full?
    ensures k < |all| ==> PageOf(reply, CursorAt(all, k)).hits == all[k..PageEnd(all, k, size)]
    ensures k < |all| ==> Some(PageOf(reply, CursorAt(all, k)).next) == CursorAt(all, PageEnd(all, k, size))
  {
    HealthyHits(all, rank, k, size);
    var end := PageEnd(all, k, size);
    var page := all[k..end];
    if k < |all| {
      assert page[|page| - 1] == all[end - 1];
    }
    ServedPage(reply, CursorAt(all, k), page);
  }

  lemma SlicesJoin(all: seq<Hit>, k: nat, end: nat)
    requires k <= end <= |all|
    ensures all[k..end] + all[end..] == all[k..]
  {}

  ghost predicate Outcome(w: Trace, rest: seq<Hit>, size: nat, budget: nat)
    requires size >= 1
  {
    if PageCount(|rest|, size) + 1 <= budget then w.failure.None? && w.yielded == rest
    else w.failure == Some(PageBudgetExhausted)
  }

  lemma OutcomeOfFull(w: Trace, page: seq<Hit>, rest: seq<Hit>, size: nat, budget: nat, later: Trace)
    requires size >= 1 && budget > 0 && page != [] && |page| <= size && (rest != [] ==> |page| == size)
    requires Outcome(later, rest, size, budget - 1) && w.failure == later.failure && w.yielded == page + later.yielded
    ensures Outcome(w, page + rest, size, budget)
  {}

  lemma HealthyStep(answers: Answers, all: seq<Hit>, rank: Cursor -> int, k: nat, made: nat, size: nat, pit: string,
                    budget: nat)
    requires Healthy(answers, all, rank) && Ordered(all, rank) && k <= |all| && size >= 1 && budget > 0
    ensures var reply, w := answers(made, Request(pit, size, CursorAt(all, k))),
            Walk(answers, made, size, pit, CursorAt(all, k), budget);
            if k == |all| then w.failure.None? && w.yielded == []
            else
              var end := PageEnd(all, k, size);
              var later := Walk(answers, made + 1, size, PitAfter(pit, reply), CursorAt(all, end), budget - 1);
              w.failure == later.failure && w.yielded == all[k..end] + later.yielded
  {
    assert ServesFrom(answers, all, rank, made, Request(pit, size, CursorAt(all, k)));
    HealthyPage(all, rank, k, size, answers(made, Request(pit, size, CursorAt(all, k))));
  }

  lemma HealthyTail(answers: Answers, all: seq<Hit>, rank: Cursor -> int, k: nat, made: nat, size: nat, pit: string,
                    budget: nat, w: Trace, later: Trace)
    requires Healthy(answers, all, rank) && Ordered(all, rank) && k < |all| && size >= 1 && budget > 0
    requires w == Walk(answers, made, size, pit, CursorAt(all, k), budget)
    requires later == Walk(answers, made + 1, size, PitAfter(pit, answers(made, Request(pit, size, CursorAt(all, k)))),
                           CursorAt(all, PageEnd(all, k, size)), budget - 1)
    requires Outcome(later, all[PageEnd(all, k, size)..], size, budget - 1)
    ensures Outcome(w, all[k..], size, budget)
  {
    HealthyStep(answers, all, rank, k, made, size, pit, budget);
    SlicesJoin(all, k, PageEnd(all, k, size));
    OutcomeOfFull(w, all[k..PageEnd(all, k, size)], all[PageEnd(all, k, size)..], size, budget, later);
  }

  lemma HealthyEnd(answers: Answers, all: seq<Hit>, rank: Cursor -> int, made: nat, size: nat, pit: string, budget: nat)
    requires Healthy(answers, all, rank) && Ordered(all, rank) && size >= 1 && budget > 0
    ensures Outcome(Walk(answers, made, size, pit, CursorAt(all, |all|), budget), [], size, budget)
  {
    HealthyStep(answers, all, rank, |all|, made, size, pit, budget);
  }

  lemma {:induction false} HealthyWalk(answers: Answers, all: seq<Hit>, rank: Cursor -> int, k: nat, made: nat,
                                       size: nat, pit: string, budget: nat, w: Trace)
    requires Healthy(answers, all, rank) && Ordered(all, rank) && k <= |all| && size >= 1
    requires w == Walk(answers, made, size, pit, CursorAt(all, k), budget)
    ensures Outcome(w, all[k..], size, budget)
    decreases budget
  {
    if budget > 0 && k == |all| {
      HealthyEnd(answers, all, rank, made, size, pit, budget);
      assert all[k..] == [];
    } else if budget > 0 {
      var renewed := PitAfter(pit, answers(made, Request(pit, size, CursorAt(all, k))));
      var later := Walk(answers, made + 1, size, renewed, CursorAt(all, PageEnd(all, k, size)), budget - 1);
      HealthyWalk(answers, all, rank, PageEnd(all, k, size), made + 1, size, renewed, budget - 1, later);
      HealthyTail(answers, all, rank, k, made, size, pit, budget, w, later);
    }
  }

  /** Over a healthy transport the read gives every hit, in order, exactly when the page budget covers
      the pages and one empty page more; otherwise it raises. */
  lemma HealthyReadIsComplete(opening: Opening, answers: Answers, all: seq<Hit>, rank: Cursor -> int, size: nat,
                              budget: nat)
    requires opening.Opening? && opening.failedShards == Some(0)
    requires Healthy(answers, all, rank) && Ordered(all, rank) && size >= 1
    ensures BatchOf(Scanned(opening, answers, 0, size, budget), true)
         == if (|all| + size - 1) / size + 1 <= budget then Ok(all) else Err(PageBudgetExhausted)
  {
    HealthyWalk(answers, all, rank, 0, 0, size, opening.pit, budget,
                Walk(answers, 0, size, opening.pit, None, budget));
    PageCountIsCeiling(|all|, size);
    assert all[0..] == all;
  }

  // ---- Requests and replies in their own terms ------------------------------------------------------------

  ghost predicate NamesMonth(month: string) {
    month in {"01", "02", "03", "04", "05", "06", "07", "08", "09", "10", "11", "12"}
  }

  ghost predicate NamesFamily(head: string) {
    head in {"nw-ops-raw-core", "nw-ops-raw-chnl", "nw-ops-raw-info", "nw-core-job-run", "nw-chnl-job-run",
             "nw-info-job-run", "nw-unmapped-job-run"}
  }

  /** The monthly indices that may be read. */
  ghost predicate IsMonthly(name: string) {
    exists head, year, month :: Spelled(name, head, year, month)
  }

  ghost predicate Spelled(name: string, head: string, year: string, month: string) {
    && name == head + "-" + year + "-" + month
    && NamesFamily(head) && |year| == 4 && AllDigits(year) && NamesMonth(month)
  }

  lemma MonthsInDigits(a: char, b: char)
    ensures (a == '0' && '1' <= b <= '9') || (a == '1' && '0' <= b <= '2') <==>
            NamesMonth([a, b])
  {
    assert a == '0' && '1' <= b <= '9' ==> b in {'1', '2', '3', '4', '5', '6', '7', '8', '9'};
    assert a == '1' && '0' <= b <= '2' ==> b in {'0', '1', '2'};
  }

  lemma SuffixIsMonth(suffix: string, year: string, month: string)
    requires |suffix| == 8 && |year| == 4 && |month| == 2 && suffix == "-" + year + "-" + month
    ensures IsMonthSuffix(suffix) <==> AllDigits(year) && NamesMonth(month)
  {
    assert suffix[1..5] == year && suffix[5] == '-' && suffix[6] == month[0] && suffix[7] == month[1];
    assert month == [month[0], month[1]];
    MonthsInDigits(month[0], month[1]);
  }

  /** An index is readable exactly when it is a monthly RAW index of a source or a monthly job-run index. */
  lemma ReadableExactly(index: Value)
    ensures IsReadableIndex(index) <==> index.Str? && IsMonthly(index.text)
  {
    if IsReadableIndex(index) {
      var n := |index.text| - 8;
      var head, suffix := index.text[..n], index.text[n..];
      var year, month := suffix[1..5], suffix[6..];
      assert suffix == "-" + year + "-" + month;
      SuffixIsMonth(suffix, year, month);
      assert index.text == head + "-" + year + "-" + month;
      FamiliesAreHeads(head);
      assert Spelled(index.text, head, year, month);
    }
    if index.Str? && IsMonthly(index.text) {
      var head, year, month :| Spelled(index.text, head, year, month);
      SpelledIsReadable(index.text, head, year, month);
    }
  }

  lemma FamiliesAreHeads(head: string)
    ensures NamesFamily(head) <==> head in HEADS
    ensures NamesFamily(head) ==> head != ""
  {
    assert head in HEADS <==> head == HEADS[0] || head == HEADS[1] || head == HEADS[2] || head == HEADS[3]
                              || head == HEADS[4] || head == HEADS[5] || head == HEADS[6];
  }

  lemma MonthsHaveTwoDigits(month: string)
    requires NamesMonth(month)
    ensures |month| == 2
  {}

  lemma SpelledSplits(name: string, head: string, year: string, month: string)
    requires name == head + "-" + year + "-" + month
    ensures name == head + ("-" + year + "-" + month)
  {}

  lemma SpelledIsReadable(name: string, head: string, year: string, month: string)
    requires Spelled(name, head, year, month)
    ensures IsReadableIndex(Str(name))
  {
    SpelledSplits(name, head, year, month);
    MonthsHaveTwoDigits(month);
    FamiliesAreHeads(head);
    SuffixIsMonth("-" + year + "-" + month, year, month);
    SplitIsReadable(name, head, "-" + year + "-" + month);
  }

  lemma SplitIsReadable(name: string, head: string, suffix: string)
    requires |suffix| == 8 && name == head + suffix && head != "" && head in HEADS && IsMonthSuffix(suffix)
    ensures IsReadableIndex(Str(name))
  {
    assert name[..|name| - 8] == head && name[|name| - 8..] == suffix;
  }

  /** In a complete chain every page but the last has hits, ends in a usable cursor that differs from the one it was
      asked for, and the next request carries that cursor and the point in time then current. */
  lemma {:induction false} ChainsAdvance(exchanges: seq<Exchange>, i: nat)
    requires CompleteChain(exchanges) && i < |exchanges| - 1
    ensures var x, y := exchanges[i], exchanges[i + 1];
            && x.reply.Reply? && x.reply.hits.Hits? && x.reply.hits.items != []
            && var last := x.reply.hits.items[|x.reply.hits.items| - 1];
               && last.Hit? && last.sort.Some? && last.sort.value != [] && last.sort != x.request.after
               && y.request.after == last.sort && y.request.size == x.request.size
               && y.request.pit == (if x.reply.pit.Some? then x.reply.pit.value else x.request.pit)
  {
    if i == 0 {
      assert Continues(exchanges[0], exchanges[1]);
      ChainsAreClean(exchanges, exchanges[0]);
    } else {
      ChainsAdvance(exchanges[1..], i - 1);
    }
  }

  /** The last page of a complete chain is empty, and every page is whole: nothing timed out, failed or was cut short,
      and every hit has its source. */
  lemma ChainPagesAreWhole(exchanges: seq<Exchange>, i: nat)
    requires CompleteChain(exchanges) && i < |exchanges|
    ensures var r := exchanges[i].reply;
            && r.Reply? && !r.timedOut && !r.terminatedEarly && r.failedShards == Some(0) && r.hits.Hits?
            && forall h | h in r.hits.items :: h.Hit? && h.source.Some?
  {
    var x := exchanges[i];
    assert x in exchanges;
    ChainsAreClean(exchanges, x);
    assert x.reply.hits.items == ServedBy(x.reply);
    forall h | h in x.reply.hits.items ensures h.Hit? && h.source.Some? {
      assert h in ServedBy(x.reply);
      assert HasSource(h);
    }
  }

  /** What a reply that ends the scan badly says. */
  lemma BrokenPagesSayWhy(reply: Reply, after: Option<Cursor>)
    requires PageOf(reply, after).Broken?
    ensures match PageOf(reply, after).error
            case TransportError =>
              reply.Raised? || reply.failedShards.None? || reply.hits.Absent?
              || (reply.hits.Hits? && exists h :: h in reply.hits.items && h.NotADictionary?)
            case PartialOrTimedOutSearch =>
              && reply.Reply?
              && (reply.timedOut || reply.terminatedEarly
                  || (reply.failedShards.Some? && reply.failedShards != Some(0)))
            case MalformedHits => reply.Reply? && reply.hits.NotAList?
            case MissingOrRepeatedCursor =>
              && reply.Reply? && reply.hits.Hits? && reply.hits.items != []
              && var last := reply.hits.items[|reply.hits.items| - 1];
                 last.Hit? && (last.sort.None? || last.sort.value == [] || last.sort == after)
            case SourceUnavailable =>
              reply.Reply? && reply.hits.Hits? && exists h :: h in reply.hits.items && h.Hit? && h.source.None?
            case _ => false
  {
    var hits := ServedBy(reply);
    if hits != [] {
      assert hits[|hits| - 1] in hits;
      if |SoundPrefix(hits)| < |hits| {
        assert hits[|SoundPrefix(hits)|] in hits;
      }
    }
  }

  /** A page that ends where it began is refused. */
  lemma RepeatedCursorsAreRefused(reply: Reply, after: Option<Cursor>)
    requires reply.Reply? && reply.hits.Hits? && reply.hits.items != []
    requires var last := reply.hits.items[|reply.hits.items| - 1]; last.Hit? && (last.sort.None? || last.sort == after)
    ensures PageOf(reply, after).Broken?
  {}

  /** The point in time that is closed is the one the last reply to name any named, or the one opened. */
  lemma {:induction false} LatestPitIsLastNamed(start: string, exchanges: seq<Exchange>)
    ensures (forall x | x in exchanges :: x.reply.Raised? || x.reply.pit.None?) ==> LatestPit(start, exchanges) == start
    ensures forall i | 0 <= i < |exchanges| && exchanges[i].reply.Reply? && exchanges[i].reply.pit.Some?
                       && (forall j | i < j < |exchanges| ::
                             exchanges[j].reply.Raised? || exchanges[j].reply.pit.None?) ::
              LatestPit(start, exchanges) == exchanges[i].reply.pit.value
  {
    if exchanges != [] {
      var before, last := exchanges[..|exchanges| - 1], exchanges[|exchanges| - 1];
      assert exchanges == before + [last];
      LatestPitIsLastNamed(start, before);
      forall i | 0 <= i < |exchanges| && exchanges[i].reply.Reply? && exchanges[i].reply.pit.Some?
                 && (forall j | i < j < |exchanges| :: exchanges[j].reply.Raised? || exchanges[j].reply.pit.None?)
        ensures LatestPit(start, exchanges) == exchanges[i].reply.pit.value
      {
        if i < |before| {
          assert exchanges[|before|] == last;
          assert before[i] == exchanges[i];
        }
      }
    }
  }
}
