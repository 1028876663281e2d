/** The two paging loops against the plain meaning "every page, in order". */
module Paging {
  import opened Wrappers

  type Bytes = seq<bv8>
  type Json = string  // raw JSON text

  // ----- DoPaginated

  const MAX_PAGES := 100

  /** What decoding the body of a successful answer gives. */
  datatype Page =
    | Envelope(data: Option<Json>, nextPage: string, raw: Json)
    | OtherJson(raw: Json)
    | NotJson

  datatype Answer = Failed | Got(page: Page)

  /** The server: how it answers the request for a path, as the i-th request. */
  type Server = (nat, string) -> Answer

  datatype Sent = Sent(path: string, body: Option<Bytes>)

  datatype Outcome =
    | Pages(data: seq<Json>)
    | Truncated(data: seq<Json>)
    | RequestFailed
    | Malformed(page: nat)
    | NoData

  /** Whether request `i` was answered with a page that announces another. */
  predicate GoesOn(server: Server, path: string, i: nat) {
    var a := server(i, PathAt(server, path, i));
    a.Got? && a.page.Envelope? && a.page.nextPage != ""
  }

  /** The path of page `i`: the start, then wherever each page points. */
  function PathAt(server: Server, path: string, i: nat): string {
    if i == 0 then path
    else
      var a := server(i - 1, PathAt(server, path, i - 1));
      if a.Got? && a.page.Envelope? then a.page.nextPage else ""
  }

  function AnswerAt(server: Server, path: string, i: nat): Answer {
    server(i, PathAt(server, path, i))
  }

  /** The one element a page contributes. */
  function Element(page: Page): Json {
    match page
    case Envelope(Some(data), _, _) => data
    case Envelope(None, _, raw) => raw
    case OtherJson(raw) => raw
    case NotJson => ""
  }

  predicate Usable(a: Answer) { a.Got? && !a.page.NotJson? }

  /** The elements of the first `n` pages. */
  function Elements(server: Server, path: string, n: nat): (r: seq<Json>)
    ensures |r| == n
  {
    if n == 0 then []
    else
      var a := AnswerAt(server, path, n - 1);
      Elements(server, path, n - 1) + [if a.Got? then Element(a.page) else ""]
  }

  /** The requests for the first `n` pages: each carries the whole body. */
  function Requests(server: Server, path: string, body: Option<Bytes>, n: nat): (r: seq<Sent>)
    ensures |r| == n
  {
    if n == 0 then []
    else Requests(server, path, body, n - 1) + [Sent(PathAt(server, path, n - 1), body)]
  }

  /** The first `n` pages all announce another. */
  predicate ChainReaches(server: Server, path: string, n: nat) {
    forall i | 0 <= i < n :: GoesOn(server, path, i)
  }

  /** A single-use request body: `rest` is what is still to be read. */
  class Reader {
    var rest: Bytes

    constructor (content: Bytes)
      ensures rest == content
    {
      rest := content;
    }

    method ReadAll() returns (content: Bytes)
      modifies this
      ensures content == old(rest) && rest == []
    {
      content := rest;
      rest := [];
    }
  }

  /** The last page DoPaginated asks for, from page `i` on. */
  function LastFrom(server: Server, path: string, i: nat): nat
    requires i < MAX_PAGES
    decreases MAX_PAGES - i
  {
    if GoesOn(server, path, i) && i + 1 < MAX_PAGES then LastFrom(server, path, i + 1) else i
  }

  /** The outcome, read off the last page asked for. */
  function Meaning(server: Server, path: string): Outcome {
    var last := LastFrom(server, path, 0);
    var data := Elements(server, path, last + 1);
    match AnswerAt(server, path, last)
    case Failed => RequestFailed
    case Got(NotJson) => Malformed(last + 1)
    case Got(_) => if GoesOn(server, path, last) then Truncated(data) else Pages(data)
  }

  /** The answer to the i-th of these requests. */
  function Answered(server: Server, log: seq<Sent>, i: nat): Answer
    requires i < |log|
  {
    server(i, log[i].path)
  }

  /** Request `i` is followed by one for the page its answer announced. */
  predicate LeadsOn(server: Server, log: seq<Sent>, i: nat)
    requires i + 1 < |log|
  {
    var a := Answered(server, log, i);
    a.Got? && a.page.Envelope? && log[i + 1].path != "" && a.page.nextPage == log[i + 1].path
  }

  /** The first request is for the path as given, every later one for the page the
      answer before announced; all carry the whole body, and there are at most a
      hundred. */
  predicate FollowsPages(server: Server, path: string, body: Option<Bytes>, log: seq<Sent>) {
    && 0 < |log| <= 100 && log[0].path == path
    && (forall i | 0 <= i < |log| :: log[i].body == body)
    && forall i | 0 <= i < |log| - 1 :: LeadsOn(server, log, i)
  }

  /** What page `i` contributes: the `data` of its envelope, or else its raw body. */
  predicate HoldsPage(server: Server, log: seq<Sent>, i: nat, value: Json)
    requires i < |log|
  {
    match Answered(server, log, i)
    case Got(Envelope(Some(member), _, _)) => value == member
    case Got(Envelope(None, _, raw)) => value == raw
    case Got(OtherJson(raw)) => value == raw
    case _ => false
  }

  /** One element for each page, in order. */
  predicate HoldsPages(server: Server, log: seq<Sent>, data: seq<Json>) {
    |data| == |log| && forall i | 0 <= i < |log| :: HoldsPage(server, log, i, data[i])
  }

  /** What is returned after these requests, by the answer to the last. */
  predicate Returns(server: Server, log: seq<Sent>, r: Outcome)
    requires log != []
  {
    match Answered(server, log, |log| - 1)
    case Failed => r == RequestFailed
    case Got(NotJson) => r == Malformed(|log|)
    case Got(OtherJson(_)) => r.Pages? && HoldsPages(server, log, r.data)
    case Got(Envelope(_, nextPage, _)) =>
      if nextPage == "" then r.Pages? && HoldsPages(server, log, r.data)
      else |log| == 100 && r.Truncated? && HoldsPages(server, log, r.data)
  }

  /** DoPaginated: its requests follow the announced pages, each with the whole
      body, and it returns what they hold. */
  method DoPaginated(server: Server, path: string, reader: Reader?) returns (r: Outcome, log: seq<Sent>)
    modifies reader
    ensures FollowsPages(server, path, if reader == null then None else Some(old(reader.rest)), log)
    ensures Returns(server, log, r)
    ensures r == Meaning(server, path)
    ensures log == Requests(server, path, if reader == null then None else Some(old(reader.rest)),
                            LastFrom(server, path, 0) + 1)
  {
    var buffered: Option<Bytes> := None;
    if reader != null {
      var content := reader.ReadAll();
      buffered := Some(content);
    }
    r, log := FetchPages(server, path, buffered);
    MeaningIsReturned(server, path, buffered);
  }

  /** What the transport reads from the fresh reader over the buffered body. */
  method PageBody(buffered: Option<Bytes>) returns (body: Option<Bytes>)
    ensures body == buffered
  {
    body := None;
    if buffered.Some? {
      var pageReader := new Reader(buffered.value);
      var content := pageReader.ReadAll();
      body := Some(content);
    }
  }

  /** The page loop. The branch after it that finds no data is never taken. */
  method FetchPages(server: Server, path: string, buffered: Option<Bytes>) returns (r: Outcome, log: seq<Sent>)
    ensures r == Meaning(server, path)
    ensures log == Requests(server, path, buffered, LastFrom(server, path, 0) + 1)
  {
    var allData: seq<Json> := [];
    log := [];
    var currentPath := path;
    var page := 0;
    while page < MAX_PAGES
      invariant 0 <= page < MAX_PAGES
      invariant currentPath == PathAt(server, path, page)
      invariant LastFrom(server, path, page) == LastFrom(server, path, 0)
      invariant allData == Elements(server, path, page)
      invariant log == Requests(server, path, buffered, page)
    {
      var pageBody := PageBody(buffered);
      log := log + [Sent(currentPath, pageBody)];
      var answer := server(page, currentPath);
      assert answer == AnswerAt(server, path, page);
      if answer.Failed? {
        return RequestFailed, log;
      }
      match answer.page {
        case NotJson =>
          return Malformed(page + 1), log;
        case OtherJson(raw) =>
          return Pages(allData + [raw]), log;
        case Envelope(data, nextPage, raw) =>
          allData := allData + [if data.Some? then data.value else raw];
          assert allData == Elements(server, path, page + 1);
          if nextPage == "" {
            break;
          }
          currentPath := nextPage;
          if page == MAX_PAGES - 1 {
            return Truncated(allData), log;
          }
      }
      page := page + 1;
    }
    if |allData| == 0 {
      return NoData, log;
    }
    return Pages(allData), log;
  }

  lemma {:induction false} RequestAt(server: Server, path: string, body: Option<Bytes>, n: nat, i: nat)
    requires i < n
    ensures Requests(server, path, body, n)[i] == Sent(PathAt(server, path, i), body)
  {
    if i < n - 1 {
      RequestAt(server, path, body, n - 1, i);
    }
  }

  lemma {:induction false} ElementAt(server: Server, path: string, n: nat, i: nat)
    requires i < n
    ensures var a := AnswerAt(server, path, i);
            Elements(server, path, n)[i] == if a.Got? then Element(a.page) else ""
  {
    if i < n - 1 {
      ElementAt(server, path, n - 1, i);
    }
  }

  lemma LogAnswers(server: Server, path: string, body: Option<Bytes>, n: nat, i: nat)
    requires i < n
    ensures var log := Requests(server, path, body, n);
            log[i] == Sent(PathAt(server, path, i), body) && Answered(server, log, i) == AnswerAt(server, path, i)
  {
    RequestAt(server, path, body, n, i);
  }

  lemma LogLeadsOn(server: Server, path: string, body: Option<Bytes>, n: nat, i: nat)
    requires i + 1 < n && GoesOn(server, path, i)
    ensures LeadsOn(server, Requests(server, path, body, n), i)
  {
    LogAnswers(server, path, body, n, i);
    LogAnswers(server, path, body, n, i + 1);
  }

  lemma ElementsHold(server: Server, path: string, body: Option<Bytes>, n: nat)
    requires forall i: nat | i < n :: AnswerAt(server, path, i).Got? && !AnswerAt(server, path, i).page.NotJson?
    ensures HoldsPages(server, Requests(server, path, body, n), Elements(server, path, n))
  {
    forall i: nat | i < n
      ensures HoldsPage(server, Requests(server, path, body, n), i, Elements(server, path, n)[i])
    {
      LogAnswers(server, path, body, n, i);
      ElementAt(server, path, n, i);
    }
  }

  /** The meaning of a chain, spelled out: the pages it follows and what it makes
      of them. */
  lemma MeaningIsReturned(server: Server, path: string, body: Option<Bytes>)
    ensures var log := Requests(server, path, body, LastFrom(server, path, 0) + 1);
            FollowsPages(server, path, body, log) && Returns(server, log, Meaning(server, path))
  {
    var last := LastFrom(server, path, 0);
    var log := Requests(server, path, body, last + 1);
    LastStopsChain(server, path, 0);
    forall i: nat | i <= last ensures log[i].body == body { LogAnswers(server, path, body, last + 1, i); }
    forall i: nat | i < last ensures LeadsOn(server, log, i) { LogLeadsOn(server, path, body, last + 1, i); }
    LogAnswers(server, path, body, last + 1, 0);
    LogAnswers(server, path, body, last + 1, last);
    if Usable(AnswerAt(server, path, last)) {
      forall i: nat | i <= last ensures AnswerAt(server, path, i).Got? && !AnswerAt(server, path, i).page.NotJson? {
        assert i < last ==> GoesOn(server, path, i);
      }
      ElementsHold(server, path, body, last + 1);
    }
  }

  lemma {:induction false} LastStopsChain(server: Server, path: string, i: nat)
    requires i < MAX_PAGES && ChainReaches(server, path, i)
    ensures var last := LastFrom(server, path, i);
            && i <= last < MAX_PAGES && ChainReaches(server, path, last)
            && (GoesOn(server, path, last) ==> last == MAX_PAGES - 1)
    decreases MAX_PAGES - i
  {
    if GoesOn(server, path, i) && i + 1 < MAX_PAGES {
      LastStopsChain(server, path, i + 1);
    }
  }

  /** Page `n` is where the chain ends: every earlier page announces another, and
      this one does not. */
  predicate EndsAt(server: Server, path: string, n: nat) {
    ChainReaches(server, path, n) && !GoesOn(server, path, n)
  }

  lemma LastIsEnd(server: Server, path: string, n: nat)
    requires EndsAt(server, path, n) && n < MAX_PAGES
    ensures LastFrom(server, path, 0) == n
  {
    LastStopsChain(server, path, 0);
    assert LastFrom(server, path, 0) >= n;
  }

  /** Success means exactly that the chain ended with a usable page within the
      limit, and then the data is one element for each page of it, in order. */
  lemma SuccessMeansWholeChain(server: Server, path: string)
    ensures Meaning(server, path).Pages? <==>
            exists n: nat :: n < MAX_PAGES && EndsAt(server, path, n) && Usable(AnswerAt(server, path, n))
    ensures forall n: nat | n < MAX_PAGES && EndsAt(server, path, n) && Usable(AnswerAt(server, path, n)) ::
              Meaning(server, path) == Pages(Elements(server, path, n + 1))
  {
    LastStopsChain(server, path, 0);
    forall n: nat | n < MAX_PAGES && EndsAt(server, path, n) && Usable(AnswerAt(server, path, n))
      ensures Meaning(server, path) == Pages(Elements(server, path, n + 1))
    {
      LastIsEnd(server, path, n);
    }
    if Meaning(server, path).Pages? {
      assert EndsAt(server, path, LastFrom(server, path, 0));
    }
  }

  /** Data returned together with an error means exactly that a hundred pages
      were fetched and the last one announced a further page. */
  lemma TruncationMeansMorePages(server: Server, path: string)
    ensures Meaning(server, path).Truncated? <==> ChainReaches(server, path, MAX_PAGES)
    ensures Meaning(server, path).Truncated? ==> Meaning(server, path).data == Elements(server, path, MAX_PAGES)
    ensures LastFrom(server, path, 0) + 1 <= MAX_PAGES
  {
    LastStopsChain(server, path, 0);
    var last := LastFrom(server, path, 0);
    if ChainReaches(server, path, MAX_PAGES) {
      assert GoesOn(server, path, last);
    }
  }

  /** A chain that keeps pointing to another page, a cycle in particular, is cut
      after a hundred pages. */
  lemma EndlessChainsAreCut(server: Server, path: string)
    requires forall i, p :: server(i, p).Got? && server(i, p).page.Envelope? && server(i, p).page.nextPage != ""
    ensures Meaning(server, path) == Truncated(Elements(server, path, MAX_PAGES))
  {
    TruncationMeansMorePages(server, path);
  }
}
