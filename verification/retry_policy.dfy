/**
 The retry protocol of one API request, as a decision made from its history.

 A `Trace` is everything one call of `Client.Do` has done so far: context
 checks, sleeps, sends and token refreshes. `NextStep` says what the protocol
 does after a given history; it keeps no loop variables, so it is the reference
 the two nested loops in RetryClient are proved against. The environment
 (server, network, jitter, cancellation) is unconstrained except that
 cancellation is never taken back.
 */
module RetryPolicy {
  import opened Wrappers
  import opened GoInts

  const MAX_RETRIES := 3
  const MAX_SENDS := MAX_RETRIES + 1
  const SECOND := 1_000_000_000
  const MAX_RETRY_AFTER := 60_000_000_000  // a minute

  type Bytes = seq<bv8>
  type Headers = map<string, string>

  const AUTHORIZATION := "Authorization"
  const IDEMPOTENCY_KEY := "Idempotency-Key"

  /** http.Header.Get: the empty string when the header is absent. */
  function Get(headers: Headers, name: string): string {
    if name in headers then headers[name] else ""
  }

  /** What one request puts on the wire. */
  datatype Wire = Wire(verb: string, url: string, headers: Headers, body: Option<Bytes>)

  /** A response, with the parts of its body the client derives by JSON
      decoding: whether it could be read, the reason code parseAPIError finds
      and whether it is a success=false envelope. `dateWait` is the time until
      Retry-After when that header is an HTTP date. */
  datatype Reply = Reply(status: int, retryAfter: string, dateWait: Option<int>,
                         readable: bool, code: string, failed: bool)

  datatype Outcome =
    | RedirectBlocked
    | Broken(message: string)
    | Answer(reply: Reply)

  datatype SleepKind = RetryBackoff | EnvelopeBackoff | RetryAfterWait

  /** `done` and `cut` record that the context was cancelled at that moment;
      `executed` whether the server acted on the request. */
  datatype Event =
    | Check(done: bool)
    | Sleep(kind: SleepKind, ns: int, cut: bool)
    | Send(wire: Wire, outcome: Outcome, executed: bool, done: bool)
    | Refresh(token: Option<string>)

  datatype Trace = Start | Then(before: Trace, event: Event)

  /** One call of Do after its prologue: the method as given, the headers as
      assembled and the buffered body. */
  datatype Call = Call(verb: string, url: string, headers: Headers, body: Option<Bytes>,
                       checkSuccess: bool, canRefresh: bool)

  datatype Verdict =
    | Delivered(reply: Reply)
    | Cancelled
    | RedirectRefused
    | TransportFailed(message: string)
    | ApiFailed(status: int, code: string, message: string, safeToRetry: bool, key: string)
    | RefreshFailed
    | BodyUnreadable

  datatype Next =
    | Look
    | Transmit
    | BackOff(kind: SleepKind, attempt: nat)
    | Wait(ns: int)
    | Renew
    | Finish(verdict: Verdict)

  // ----- Classification of methods, codes and headers

  /** http.NewRequest sends an empty method as GET. */
  function WireVerb(verb: string): string { if verb == "" then "GET" else verb }

  predicate IsIdempotent(verb: string) { verb in {"GET", "HEAD", "OPTIONS", "DELETE"} }

  predicate CarriesKey(verb: string) { verb in {"POST", "PATCH"} }

  function KeyOf(headers: Headers): string { Get(headers, IDEMPOTENCY_KEY) }

  predicate IsTransientCode(code: string) {
    match Atoi(code)
    case None => false
    case Some(n) => Rem(n, 100) in {50, 61, 70, 99}
  }

  predicate IsRetriableEnvelope(code: string, verb: string) {
    (IsIdempotent(verb) || CarriesKey(verb)) && IsTransientCode(code)
  }

  predicate IsSpace(c: char) { c in {' ', '\t', '\n', '\r', '\U{B}', '\U{C}'} }

  function TrimLeft(s: string): string {
    if s != "" && IsSpace(s[0]) then TrimLeft(s[1..]) else s
  }

  function TrimRight(s: string): string {
    if s != "" && IsSpace(s[|s| - 1]) then TrimRight(s[..|s| - 1]) else s
  }

  /** The wait a Retry-After header asks for, in int64 nanoseconds. `dateWait`
      is what the HTTP-date reading of the same header gives, if any. */
  function ParseRetryAfter(header: string, dateWait: Option<int>): Option<int> {
    var v := TrimRight(TrimLeft(header));
    if v == "" then None
    else match Atoi(v)
      case Some(n) =>
        var secs := if n < 0 then 0 else n;
        if secs > MAX_INT64 / SECOND then Some(MAX_RETRY_AFTER)
        else Some(Wrap64(secs * SECOND))
      case None =>
        match dateWait
        case Some(d) => Some(if d < 0 then 0 else d)
        case None => None
  }

  function CapWait(ns: int): int { if ns > MAX_RETRY_AFTER then MAX_RETRY_AFTER else ns }

  function Pow2(n: nat): nat { if n == 0 then 1 else 2 * Pow2(n - 1) }

  /** backoffDuration(attempt): base 2^(attempt-1) seconds, plus less than half
      of that. */
  predicate InBackoffRange(attempt: nat, ns: int)
    requires attempt > 0
  {
    var base := Pow2(attempt - 1) * SECOND;
    base <= ns < base + base / 2
  }

  // ----- What a history says

  function Sends(t: Trace): nat {
    if t.Start? then 0 else Sends(t.before) + if t.event.Send? then 1 else 0
  }

  predicate StartsRound(e: Event) { e.Sleep? && e.kind == EnvelopeBackoff }

  /** Completed success=false resends: how often the outer loop went round. */
  function Rounds(t: Trace): nat {
    if t.Start? then 0 else Rounds(t.before) + if StartsRound(t.event) then 1 else 0
  }

  /** Sends since the outer loop last went round. */
  function RoundSends(t: Trace): nat {
    if t.Start? || StartsRound(t.event) then 0
    else RoundSends(t.before) + if t.event.Send? then 1 else 0
  }

  /** Whether the token was refreshed since the outer loop last went round. */
  predicate RoundRefreshed(t: Trace) {
    t.Then? && !StartsRound(t.event) && (t.event.Refresh? || RoundRefreshed(t.before))
  }

  function LastOutcome(t: Trace): Outcome
    requires Sends(t) > 0
  {
    if t.event.Send? then t.event.outcome else LastOutcome(t.before)
  }

  /** Whether some event so far witnessed the cancelled context. */
  predicate Seen(t: Trace) {
    t.Then? && (Seen(t.before) || match t.event
      case Check(done) => done
      case Sleep(_, _, cut) => cut
      case Send(_, _, _, done) => done
      case Refresh(_) => false)
  }

  /** The request headers now: Authorization follows the last refresh. */
  function HeadersNow(call: Call, t: Trace): Headers {
    if t.Start? then call.headers
    else if t.event.Refresh? && t.event.token.Some? then
      HeadersNow(call, t.before)[AUTHORIZATION := "Bearer " + t.event.token.value]
    else HeadersNow(call, t.before)
  }

  function WireNow(call: Call, t: Trace): Wire {
    Wire(WireVerb(call.verb), call.url, HeadersNow(call, t), call.body)
  }

  // ----- The decision

  /** A failed send of a method that must not be resent blindly. */
  predicate AwaitsWriteFailure(call: Call, t: Trace) {
    t.Then? && t.event.Send? && t.event.outcome.Broken? && !IsIdempotent(WireVerb(call.verb))
  }

  /** A wait or a token refresh replaces the backoff before the next send. */
  predicate SkipsBackoff(t: Trace) {
    t.Then? && (t.event.Refresh? || (t.event.Sleep? && t.event.kind == RetryAfterWait))
  }

  function ErrorOf(outcome: Outcome): Verdict {
    match outcome
    case RedirectBlocked => RedirectRefused
    case Broken(message) => TransportFailed(message)
    case Answer(reply) => ApiFailed(reply.status, reply.code, "", false, "")
  }

  /** What follows a send whose outcome the inner loop handles; None when the
      reply is handed to the outer loop. `t` is the history before the send. */
  function InnerStep(call: Call, t: Trace, outcome: Outcome): Option<Next> {
    match outcome
    case RedirectBlocked => Some(Finish(RedirectRefused))
    case Broken(_) => Some(Look)
    case Answer(reply) =>
      if reply.status == 429 then
        match ParseRetryAfter(reply.retryAfter, reply.dateWait)
        case Some(ns) => Some(Wait(CapWait(ns)))
        case None => Some(Look)
      else if reply.status == 401 && !RoundRefreshed(t) then
        if call.canRefresh then Some(Renew) else Some(Finish(ErrorOf(outcome)))
      else if reply.status >= 500 then
        if IsIdempotent(WireVerb(call.verb)) then Some(Look)
        else
          var key := KeyOf(HeadersNow(call, t));
          Some(Finish(ApiFailed(reply.status, reply.code, "", CarriesKey(WireVerb(call.verb)), key)))
      else None
  }

  /** What the outer loop does with a reply handed to it; `t` includes its send. */
  function OuterStep(call: Call, t: Trace, reply: Reply): Next {
    if !reply.readable then Finish(BodyUnreadable)
    else if reply.status >= 400 then Finish(ErrorOf(Answer(reply)))
    else if call.checkSuccess && reply.failed then
      if Sends(t) < MAX_SENDS && IsRetriableEnvelope(reply.code, call.verb)
      then BackOff(EnvelopeBackoff, Rounds(t) + 1)
      else Finish(ErrorOf(Answer(reply)))
    else Finish(Delivered(reply))
  }

  /** The loop-top decision after a context check that passed. */
  function AfterCheck(call: Call, t: Trace): Next {
    if AwaitsWriteFailure(call, t) then
      Finish(ApiFailed(0, "", t.event.outcome.message, CarriesKey(WireVerb(call.verb)), KeyOf(HeadersNow(call, t))))
    else if Sends(t) >= MAX_SENDS then Finish(ErrorOf(LastOutcome(t)))
    else if RoundSends(t) > 0 && !SkipsBackoff(t) then BackOff(RetryBackoff, RoundSends(t))
    else Transmit
  }

  function NextStep(call: Call, t: Trace): Next {
    match t
    case Start => Look
    case Then(before, Check(done)) => if done then Finish(Cancelled) else AfterCheck(call, before)
    case Then(_, Sleep(kind, _, cut)) =>
      if cut then Finish(Cancelled) else if kind == RetryBackoff then Transmit else Look
    case Then(_, Refresh(token)) => if token.None? then Finish(RefreshFailed) else Look
    case Then(before, Send(_, outcome, _, _)) =>
      match InnerStep(call, before, outcome)
      case Some(next) => next
      case None => OuterStep(call, t, outcome.reply)
  }

  /** Whether `e` is what the protocol may do after `t`. The environment picks
      the outcome, the jitter and the moment of cancellation. */
  predicate Follows(call: Call, t: Trace, e: Event) {
    match NextStep(call, t)
    case Look => e.Check? && (Seen(t) ==> e.done)
    case Transmit => e.Send? && e.wire == WireNow(call, t) && (Seen(t) ==> e.done)
    case BackOff(kind, attempt) =>
      e.Sleep? && e.kind == kind && attempt > 0 && InBackoffRange(attempt, e.ns)
    case Wait(ns) =>
      e.Sleep? && e.kind == RetryAfterWait && e.ns == ns && (ns <= 0 && Seen(t) ==> e.cut)
    case Renew => e.Refresh?
    case Finish(_) => false
  }

  /** The traces the protocol can produce, finished or not. */
  predicate Run(call: Call, t: Trace) {
    t.Start? || (Run(call, t.before) && Follows(call, t.before, t.event))
  }

  // ----- The server

  datatype Effect = Effect(verb: string, url: string, body: Option<Bytes>)

  function EffectOf(wire: Wire): Effect { Effect(wire.verb, wire.url, wire.body) }

  /** A server that remembers the keys it acted on. */
  datatype Server = Server(applied: seq<Effect>, keys: set<string>)

  /** 429 and 401 are answered before the request is processed. */
  predicate Rejects(outcome: Outcome) {
    outcome.Answer? && (outcome.reply.status == 429 || outcome.reply.status == 401)
  }

  predicate Applies(server: Server, e: Event) {
    && e.Send? && e.executed && !Rejects(e.outcome)
    && (KeyOf(e.wire.headers) == "" || KeyOf(e.wire.headers) !in server.keys)
  }

  function Receive(server: Server, e: Event): Server {
    if !Applies(server, e) then server
    else
      var key := KeyOf(e.wire.headers);
      Server(server.applied + [EffectOf(e.wire)], if key == "" then server.keys else server.keys + {key})
  }

  function ServerAfter(server: Server, t: Trace): Server {
    if t.Start? then server else Receive(ServerAfter(server, t.before), t.event)
  }
}
