/** The request loop as the client runs it: a mutable request whose body reader
    every send consumes, a shared budget and two nested loops. */
module RetryClient {
  import opened Wrappers
  import opened RetryPolicy
  import opened RetryLaws
  import opened RetryOutcomes

  /** An http.Request. `body` is what its reader still has to give. */
  class Request {
    const verb: string
    const url: string
    var headers: Headers
    var body: Option<Bytes>

    constructor (verb: string, url: string, headers: Headers, body: Option<Bytes>)
      ensures this.verb == verb && this.url == url && this.headers == headers && this.body == body
    {
      this.verb, this.url, this.headers, this.body := verb, url, headers, body;
    }

    function Snapshot(): Wire
      reads this
    {
      Wire(verb, url, headers, body)
    }
  }

  /** The number of sends both loops may still make. */
  class Budget {
    var left: int

    constructor (n: int)
      ensures left == n
    {
      left := n;
    }
  }

  /** Everything outside the client: network and server, clock, token source
      and the context. Each answer is arbitrary; the context stays cancelled
      once it is. */
  class World {
    var trace: Trace
    var cancelled: bool
    var server: Server
    ghost var baseline: Server  // the server when the current call started

    ghost predicate Valid()
      reads this
    {
      && (Seen(trace) ==> cancelled)
      && server == ServerAfter(baseline, trace)
    }

    method StartCall()
      modifies this`trace, this`baseline
      ensures trace == Start && baseline == server && Valid()
    {
      trace, baseline := Start, server;
    }

    method PassTime()
      modifies this`cancelled
      ensures old(cancelled) ==> cancelled
    {
      if !cancelled {
        cancelled := *;
      }
    }

    method ContextDone() returns (done: bool)
      requires Valid()
      modifies this
      ensures Valid() && server == old(server) && baseline == old(baseline)
      ensures trace == Then(old(trace), Check(done)) && (Seen(old(trace)) ==> done)
    {
      PassTime();
      done := cancelled;
      trace := Then(trace, Check(done));
    }

    /** Sleeps for `ns`, or less when the context is cancelled meanwhile. */
    method Pause(kind: SleepKind, ns: int) returns (cut: bool)
      requires Valid()
      modifies this
      ensures Valid() && server == old(server) && baseline == old(baseline)
      ensures trace == Then(old(trace), Sleep(kind, ns, cut))
      ensures ns <= 0 && Seen(old(trace)) ==> cut
    {
      PassTime();
      cut := cancelled;
      trace := Then(trace, Sleep(kind, ns, cut));
    }

    method Jitter(below: int) returns (j: int)
      requires below > 0
      ensures 0 <= j < below
    {
      j :| 0 <= j < below;
    }

    /** Transmits what the request holds; its body reader is left wherever the
        transport stopped reading. */
    method Transmit(req: Request) returns (outcome: Outcome, ghost executed: bool, ghost done: bool)
      requires Valid()
      modifies this, req`body
      ensures Valid() && baseline == old(baseline)
      ensures trace == Then(old(trace), Send(old(req.Snapshot()), outcome, executed, done))
      ensures Seen(old(trace)) ==> done
      ensures req.body.Some? <==> old(req.body).Some?
      ensures server == Receive(old(server), trace.event)
    {
      PassTime();
      outcome := *;
      var acted: bool := *;
      executed, done := acted, cancelled;
      var event := Send(req.Snapshot(), outcome, acted, cancelled);
      server := Receive(server, event);
      trace := Then(trace, event);
      if req.body.Some? {
        var rest: Bytes := *;
        req.body := Some(rest);
      }
    }

    /** The forced token refresh. */
    method RefreshToken() returns (token: Option<string>)
      requires Valid()
      modifies this
      ensures Valid() && server == old(server) && baseline == old(baseline)
      ensures trace == Then(old(trace), Refresh(token))
    {
      PassTime();
      token := *;
      trace := Then(trace, Refresh(token));
    }

    method FetchToken() returns (token: Option<string>)
    {
      token := *;
    }

    /** newIdempotencyKey: random, and never blank. */
    method NewKey() returns (key: string)
      ensures key != ""
    {
      var suffix: string := *;
      key := "zr-" + suffix;
    }
  }

  method BackoffDuration(world: World, attempt: nat) returns (ns: int)
    requires attempt > 0
    ensures InBackoffRange(attempt, ns)
  {
    var base := Pow2(attempt - 1) * SECOND;
    PowPositive(attempt - 1);
    var j := world.Jitter(base / 2);
    ns := base + j;
  }

  lemma PowPositive(n: nat)
    ensures Pow2(n) > 0
  {
  }

  datatype Inner = Response(reply: Reply) | Failure(verdict: Verdict)

  /** What ties the client's mutable state to the history. */
  ghost predicate InStep(call: Call, world: World, req: Request, budget: Budget)
    reads world, req, budget
  {
    && world.Valid() && Run(call, world.trace)
    && req.verb == WireVerb(call.verb) && req.url == call.url
    && req.headers == HeadersNow(call, world.trace)
    && budget.left == MAX_SENDS - Sends(world.trace)
  }

  /** The loop variables are what the history says they are. */
  ghost predicate Tally(call: Call, world: World, req: Request, attempt: int, rounds: int, refreshed: bool)
    reads world, req
  {
    && RoundSends(world.trace) == attempt && Rounds(world.trace) == rounds
    && RoundRefreshed(world.trace) == refreshed && HeadersNow(call, world.trace) == req.headers
  }

  /** The top of the inner loop: context check, budget check, backoff and a
      fresh body reader. Without a verdict the request is ready to be sent. */
  method Prepare(ghost call: Call, world: World, req: Request, budget: Budget, saved: Option<Bytes>,
                 lastErr: Option<Verdict>, attempt: nat, skipBackoff: bool, ghost rounds: nat, ghost refreshed: bool)
    returns (stop: Option<Verdict>)
    requires InStep(call, world, req, budget) && Tally(call, world, req, attempt, rounds, refreshed)
    requires NextStep(call, world.trace).Look? && !AwaitsWriteFailure(call, world.trace)
    requires saved == call.body && (req.body.Some? <==> saved.Some?)
    requires attempt > 0 ==> skipBackoff == SkipsBackoff(world.trace)
    requires attempt > 0 ==> lastErr == Some(ErrorOf(LastOutcome(world.trace)))
    requires attempt == 0 ==> req.body == saved && budget.left > 0
    modifies world, req`body
    ensures InStep(call, world, req, budget) && world.baseline == old(world.baseline)
    ensures req.body.Some? <==> saved.Some?
    ensures match stop
      case Some(v) => NextStep(call, world.trace) == Finish(v)
      case None =>
        && NextStep(call, world.trace).Transmit? && budget.left > 0
        && Tally(call, world, req, attempt, rounds, refreshed)
        && req.Snapshot() == WireNow(call, world.trace)
  {
    var done := world.ContextDone();
    if done {
      return Some(Cancelled);
    }
    if budget.left <= 0 {
      return lastErr;
    }
    if attempt > 0 {
      if !skipBackoff {
        assert Tally(call, world, req, attempt, rounds, refreshed);
        var total := BackoffDuration(world, attempt);
        var cut := world.Pause(RetryBackoff, total);
        if cut {
          return Some(Cancelled);
        }
      }
      if saved.Some? {
        req.body := saved;
      }
    }
    return None;
  }

  /** The bottom of the inner loop: what the outcome of a send leads to. Without
      an answer the loop goes round, with the error to report if it cannot. */
  method Settle(ghost call: Call, canRefresh: bool, world: World, req: Request, budget: Budget, outcome: Outcome,
                tokenRefreshed: bool, ghost attempt: nat, ghost rounds: nat)
    returns (r: Option<Inner>, lastErr: Option<Verdict>, refreshed: bool, skipBackoff: bool)
    requires canRefresh == call.canRefresh
    requires InStep(call, world, req, budget) && Tally(call, world, req, attempt, rounds, tokenRefreshed)
    requires world.trace.Then? && world.trace.event.Send? && world.trace.event.outcome == outcome
    modifies world, req`headers
    ensures InStep(call, world, req, budget) && world.baseline == old(world.baseline)
    ensures match r
      case Some(Failure(v)) => NextStep(call, world.trace) == Finish(v)
      case Some(Response(reply)) =>
        && world.trace == old(world.trace) && outcome == Answer(reply)
        && NextStep(call, world.trace) == OuterStep(call, world.trace, reply)
      case None =>
        && NextStep(call, world.trace).Look? && !AwaitsWriteFailure(call, world.trace)
        && Tally(call, world, req, attempt, rounds, refreshed)
        && skipBackoff == SkipsBackoff(world.trace)
        && Sends(world.trace) > 0 && lastErr == Some(ErrorOf(LastOutcome(world.trace)))
  {
    r, lastErr, refreshed, skipBackoff := None, None, tokenRefreshed, false;
    match outcome {
      case RedirectBlocked =>
        r := Some(Failure(RedirectRefused));
      case Broken(message) =>
        if !IsIdempotent(req.verb) {
          var gone := world.ContextDone();
          r := Some(Failure(
            if gone then Cancelled
            else ApiFailed(0, "", message, CarriesKey(req.verb), KeyOf(req.headers))));
          return;
        }
        lastErr := Some(TransportFailed(message));
      case Answer(reply) =>
        if reply.status == 429 {
          lastErr := Some(ApiFailed(reply.status, reply.code, "", false, ""));
          var wait := ParseRetryAfter(reply.retryAfter, reply.dateWait);
          if wait.Some? {
            var cut := world.Pause(RetryAfterWait, CapWait(wait.value));
            if cut {
              r := Some(Failure(Cancelled));
            }
            skipBackoff := true;
          }
        } else if reply.status == 401 && !tokenRefreshed {
          lastErr := Some(ApiFailed(reply.status, reply.code, "", false, ""));
          if !canRefresh {
            r := Some(Failure(lastErr.value));
            return;
          }
          var token := world.RefreshToken();
          if token.None? {
            r := Some(Failure(RefreshFailed));
            return;
          }
          req.headers := req.headers[AUTHORIZATION := "Bearer " + token.value];
          refreshed, skipBackoff := true, true;
        } else if reply.status >= 500 && IsIdempotent(req.verb) {
          lastErr := Some(ApiFailed(reply.status, reply.code, "", false, ""));
        } else if reply.status >= 500 {
          r := Some(Failure(ApiFailed(reply.status, reply.code, "", CarriesKey(req.verb), KeyOf(req.headers))));
        } else {
          r := Some(Response(reply));
        }
    }
  }

  /** doWithRetry: transport errors, 429, 401 and 5xx. It answers with the reply
      the outer loop has to judge, or with the verdict of the whole call. */
  method DoWithRetry(ghost call: Call, canRefresh: bool, world: World, req: Request, budget: Budget)
    returns (r: Inner)
    requires canRefresh == call.canRefresh
    requires InStep(call, world, req, budget) && req.body == call.body
    requires NextStep(call, world.trace).Look? && budget.left > 0
    requires RoundSends(world.trace) == 0 && !RoundRefreshed(world.trace)
    requires !AwaitsWriteFailure(call, world.trace)
    modifies world, req, budget
    ensures InStep(call, world, req, budget) && world.baseline == old(world.baseline)
    ensures r.Response? ==> 0 <= budget.left < old(budget.left)
    ensures req.body.Some? <==> call.body.Some?
    ensures match r
      case Failure(v) => NextStep(call, world.trace) == Finish(v)
      case Response(reply) =>
        && world.trace.Then? && world.trace.event.Send? && world.trace.event.outcome == Answer(reply)
        && NextStep(call, world.trace) == OuterStep(call, world.trace, reply)
        && Rounds(world.trace) == Rounds(old(world.trace))
  {
    var saved := req.body;
    var lastErr: Option<Verdict> := None;
    var tokenRefreshed, skipBackoff, attempt := false, false, 0;
    ghost var rounds := Rounds(world.trace);
    while true
      invariant InStep(call, world, req, budget) && world.baseline == old(world.baseline)
      invariant Tally(call, world, req, attempt, rounds, tokenRefreshed)
      invariant NextStep(call, world.trace).Look? && !AwaitsWriteFailure(call, world.trace)
      invariant saved == call.body && (req.body.Some? <==> saved.Some?)
      invariant attempt > 0 ==> skipBackoff == SkipsBackoff(world.trace)
      invariant attempt > 0 ==> lastErr == Some(ErrorOf(LastOutcome(world.trace)))
      invariant attempt == 0 ==> req.body == saved && budget.left == old(budget.left) > 0
      invariant 0 <= budget.left <= old(budget.left)
      decreases budget.left
    {
      var stop := Prepare(call, world, req, budget, saved, lastErr, attempt, skipBackoff, rounds, tokenRefreshed);
      if stop.Some? {
        return Failure(stop.value);
      }
      budget.left := budget.left - 1;
      var outcome, _, _ := world.Transmit(req);
      attempt := attempt + 1;
      var answer;
      answer, lastErr, tokenRefreshed, skipBackoff :=
        Settle(call, canRefresh, world, req, budget, outcome, tokenRefreshed, attempt, rounds);
      if answer.Some? {
        return answer.value;
      }
    }
  }

  /** Options of one request, as requestConfig holds them. Header names are in
      their canonical form. */
  datatype Options = Options(custom: Headers, body: Option<Bytes>, checkSuccess: bool)

  datatype Client = Client(userAgent: string, zuoraVersion: string, hasTokenSource: bool, hasRefresh: bool)

  const USER_AGENT := "User-Agent"
  const ZUORA_VERSION := "Zuora-Version"
  const CONTENT_TYPE := "Content-Type"

  function Header(name: string, value: Option<string>): Headers {
    if value.Some? then map[name := value.value] else map[]
  }

  function NonBlank(s: string): Option<string> { if s == "" then None else Some(s) }

  /** The request headers: token, standard headers and a fresh key, overridden
      by the caller's own. */
  function Assemble(client: Client, token: Option<string>, verb: string, options: Options, key: string): Headers {
    Header(AUTHORIZATION, if token.Some? then Some("Bearer " + token.value) else None)
    + Header(USER_AGENT, NonBlank(client.userAgent)) + Header(ZUORA_VERSION, NonBlank(client.zuoraVersion))
    + Header(CONTENT_TYPE, if options.body.Some? then Some("application/json") else None)
    + Header(IDEMPOTENCY_KEY, if CarriesKey(verb) then Some(key) else None)
    + options.custom
  }

  /** The value the client itself gives a header. */
  function Standard(client: Client, token: Option<string>, verb: string, options: Options, key: string, name: string)
    : Option<string>
  {
    if name == "Authorization" then if token.Some? then Some("Bearer " + token.value) else None
    else if name == "User-Agent" then if client.userAgent != "" then Some(client.userAgent) else None
    else if name == "Zuora-Version" then if client.zuoraVersion != "" then Some(client.zuoraVersion) else None
    else if name == "Content-Type" then if options.body.Some? then Some("application/json") else None
    else if name == "Idempotency-Key" then if verb == "POST" || verb == "PATCH" then Some(key) else None
    else None
  }

  /** Header by header: the caller's own value, else the client's, else none. */
  ghost predicate HeadersAre(headers: Headers, client: Client, token: Option<string>, verb: string, options: Options,
                             key: string)
  {
    forall name ::
      Has(headers, name, if name in options.custom then Some(options.custom[name])
                         else Standard(client, token, verb, options, key, name))
  }

  predicate Has(headers: Headers, name: string, value: Option<string>) {
    if value.None? then name !in headers else name in headers && headers[name] == value.value
  }

  lemma NamesDiffer()
    ensures AUTHORIZATION != ZUORA_VERSION && AUTHORIZATION[0] == 'A'
    ensures |AUTHORIZATION| == |ZUORA_VERSION| == 13 && |USER_AGENT| == 10 && |CONTENT_TYPE| == 12
    ensures |IDEMPOTENCY_KEY| == 15
  {
    assert ZUORA_VERSION[0] == 'Z';
  }

  /** The last of five headers by that name, for different names. */
  lemma FiveHeaders(n1: string, v1: Option<string>, n2: string, v2: Option<string>, n3: string, v3: Option<string>,
                    n4: string, v4: Option<string>, n5: string, v5: Option<string>, name: string)
    requires n1 != n2 && n1 != n3 && n1 != n4 && n1 != n5 && n2 != n3 && n2 != n4 && n2 != n5
    requires n3 != n4 && n3 != n5 && n4 != n5
    ensures Has(Header(n1, v1) + Header(n2, v2) + Header(n3, v3) + Header(n4, v4) + Header(n5, v5), name,
                if name == n1 then v1 else if name == n2 then v2 else if name == n3 then v3
                else if name == n4 then v4 else if name == n5 then v5 else None)
  {
  }

  lemma AssembledExactly(client: Client, token: Option<string>, verb: string, options: Options, key: string)
    ensures HeadersAre(Assemble(client, token, verb, options, key), client, token, verb, options, key)
  {
    NamesDiffer();
    forall name | name !in options.custom
      ensures Has(Assemble(client, token, verb, options, key), name, Standard(client, token, verb, options, key, name))
    {
      FiveHeaders(AUTHORIZATION, if token.Some? then Some("Bearer " + token.value) else None,
                  USER_AGENT, NonBlank(client.userAgent), ZUORA_VERSION, NonBlank(client.zuoraVersion),
                  CONTENT_TYPE, if options.body.Some? then Some("application/json") else None,
                  IDEMPOTENCY_KEY, if CarriesKey(verb) then Some(key) else None, name);
    }
  }

  /** POST and PATCH alone get a key, unless the caller's headers set it. */
  lemma AssembledKey(headers: Headers, client: Client, token: Option<string>, verb: string, options: Options,
                     key: string)
    requires HeadersAre(headers, client, token, verb, options, key) && key != ""
    ensures IDEMPOTENCY_KEY !in options.custom ==> (verb in {"POST", "PATCH"} <==> KeyOf(headers) != "")
    ensures IDEMPOTENCY_KEY in options.custom ==> KeyOf(headers) == options.custom[IDEMPOTENCY_KEY]
  {
  }

  datatype Result = NoToken | Finished(verdict: Verdict)

  /** The outer loop of Client.Do: success=false answers with a transient code. */
  method Exchange(ghost call: Call, canRefresh: bool, checkSuccess: bool, verb: string,
                  buffered: Option<Bytes>, world: World, req: Request)
    returns (v: Verdict)
    requires canRefresh == call.canRefresh && checkSuccess == call.checkSuccess && verb == call.verb
    requires world.Valid() && world.trace == Start && buffered == call.body
    requires req.Snapshot() == WireNow(call, Start).(body := req.body) && (req.body.Some? <==> call.body.Some?)
    modifies world, req
    ensures world.Valid() && world.baseline == old(world.baseline)
    ensures Run(call, world.trace) && NextStep(call, world.trace) == Finish(v)
  {
    var budget := new Budget(MAX_SENDS);
    var attempt := 0;
    while true
      invariant InStep(call, world, req, budget) && world.baseline == old(world.baseline)
      invariant 0 <= attempt && budget.left > 0
      invariant attempt == 0 ==> world.trace == Start
      invariant req.body.Some? <==> call.body.Some?
      invariant attempt > 0 ==> NextStep(call, world.trace) == BackOff(EnvelopeBackoff, attempt)
      invariant attempt > 0 ==> Rounds(world.trace) == attempt - 1
      decreases budget.left
    {
      if attempt > 0 {
        var total := BackoffDuration(world, attempt);
        var cut := world.Pause(EnvelopeBackoff, total);
        if cut {
          return Cancelled;
        }
      }
      if buffered.Some? {
        req.body := buffered;
      }
      var inner := DoWithRetry(call, canRefresh, world, req, budget);
      match inner {
        case Failure(verdict) => return verdict;
        case Response(reply) =>
          if !reply.readable {
            return BodyUnreadable;
          }
          if reply.status >= 400 {
            return ApiFailed(reply.status, reply.code, "", false, "");
          }
          if checkSuccess && reply.failed {
            if !(budget.left > 0 && IsRetriableEnvelope(reply.code, verb)) {
              return ApiFailed(reply.status, reply.code, "", false, "");
            }
          } else {
            return Delivered(reply);
          }
      }
      attempt := attempt + 1;
    }
  }

  method NewHeaders(client: Client, token: Option<string>, verb: string, options: Options, world: World)
    returns (headers: Headers, ghost newKey: string)
    ensures newKey != "" && HeadersAre(headers, client, token, verb, options, newKey)
  {
    var key := "";
    newKey := "unused";
    if CarriesKey(verb) {
      key := world.NewKey();
      newKey := key;
    }
    headers := Assemble(client, token, verb, options, key);
    AssembledExactly(client, token, verb, options, key);
  }

  /** Client.Do after the host check. `call` is the request as assembled, `token`
      what the token source gave and `newKey` the new key. */
  method Do(client: Client, verb: string, url: string, options: Options, world: World)
    returns (r: Result, ghost call: Call, ghost token: Option<string>, ghost newKey: string)
    modifies world
    ensures call.verb == verb && call.url == url && call.body == options.body
    ensures call.checkSuccess == options.checkSuccess
    ensures call.canRefresh <==> client.hasRefresh || client.hasTokenSource
    ensures newKey != "" && HeadersAre(call.headers, client, token, verb, options, newKey)
    ensures r == NoToken <==> client.hasTokenSource && token.None?
    ensures r == NoToken ==> world.trace == Start
    ensures r.Finished? ==> Run(call, world.trace) && NextStep(call, world.trace) == Finish(r.verdict)
    ensures r.Finished? && r.verdict !in {Cancelled, RefreshFailed} ==>
              && Sends(world.trace) > 0 && (Retriable(call, world.trace) ==> Sends(world.trace) == MAX_SENDS)
              && r.verdict == FinalVerdict(call, LastOutcome(world.trace), Renewed(world.trace))
    ensures world.baseline == old(world.server) && world.server == ServerAfter(old(world.server), world.trace)
    ensures Sends(world.trace) <= MAX_SENDS
    ensures !CanApplyTwice(call) ==> |world.server.applied| <= |old(world.server).applied| + 1
  {
    world.StartCall();
    var given: Option<string> := None;
    if client.hasTokenSource {
      given := world.FetchToken();
    }
    token := given;
    var headers;
    headers, newKey := NewHeaders(client, given, verb, options, world);
    var canRefresh := client.hasRefresh || client.hasTokenSource;
    call := Call(verb, url, headers, options.body, options.checkSuccess, canRefresh);
    if client.hasTokenSource && given.None? {
      return NoToken, call, token, newKey;
    }

    var req := new Request(WireVerb(verb), url, headers, options.body);
    var buffered := req.body;
    if buffered.Some? {
      req.body := Some([]);  // io.ReadAll leaves the reader at its end
    }
    var verdict := Exchange(call, canRefresh, options.checkSuccess, verb, buffered, world, req);
    r := Finished(verdict);
    SendsAreBounded(call, world.trace);
    if verdict !in {Cancelled, RefreshFailed} {
      NeverGivesUpEarly(call, world.trace);
      VerdictExactly(call, world.trace);
    }
    if !CanApplyTwice(call) {
      AtMostOneEffect(call, world.trace, old(world.server));
    }
  }
}
