/** What every run of the retry protocol keeps, for every server, network,
    jitter and moment of cancellation. */
module RetryLaws {
  import opened Wrappers
  import opened GoInts
  import opened RetryPolicy

  // ----- Budget

  /** Both loops together send at most maxRetries+1 requests, and never sleep
      for a resend once those are spent. */
  lemma {:induction false} SendsAreBounded(call: Call, t: Trace)
    requires Run(call, t)
    ensures Sends(t) <= MAX_SENDS
    ensures NextStep(call, t).Transmit? || NextStep(call, t).BackOff? ==> Sends(t) < MAX_SENDS
  {
    if t.Then? {
      SendsAreBounded(call, t.before);
    }
  }

  function Length(t: Trace): nat { if t.Start? then 0 else Length(t.before) + 1 }

  /** How far the number of events may exceed three per send, by the step due. */
  function Slack(call: Call, t: Trace): int {
    match NextStep(call, t)
    case Look => if t.Then? && t.event.Send? then -1 else 0
    case Transmit => 1
    case BackOff(kind, _) => if kind == RetryBackoff then 0 else -1
    case Wait(_) => -1
    case Renew => -1
    case Finish(_) => 1
  }

  lemma {:induction false} LengthBySends(call: Call, t: Trace)
    requires Run(call, t)
    ensures Length(t) <= 3 * Sends(t) + Slack(call, t)
  {
    if t.Then? {
      LengthBySends(call, t.before);
    }
  }

  /** The nested loops terminate against every environment: no run has more
      than thirteen events. */
  lemma RunsAreBounded(call: Call, t: Trace)
    requires Run(call, t)
    ensures Length(t) <= 3 * MAX_SENDS + 1
  {
    SendsAreBounded(call, t);
    LengthBySends(call, t);
  }

  /** Whether `v` tells the caller about `outcome`. */
  predicate Reports(call: Call, v: Verdict, outcome: Outcome) {
    match outcome
    case RedirectBlocked => v == RedirectRefused
    case Broken(message) =>
      v == TransportFailed(message) || (v.ApiFailed? && v.status == 0 && v.message == message)
    case Answer(reply) =>
      || v == Delivered(reply)
      || (v == BodyUnreadable && !reply.readable)
      || (v.ApiFailed? && v.status == reply.status && v.code == reply.code)
  }

  /** A finished call either was cancelled, could not refresh its token, or
      reports the outcome of its very last send, never an earlier one. It
      delivers a reply only when that is a readable success, and gives up at
      the loop top only for a write or after all its sends. */
  lemma {:induction false} VerdictIsOfLastSend(call: Call, t: Trace)
    requires Run(call, t) && NextStep(call, t).Finish?
    ensures var v := NextStep(call, t).verdict;
            && (!v.Cancelled? && !v.RefreshFailed? ==> Sends(t) > 0 && Reports(call, v, LastOutcome(t)))
            && (v.RefreshFailed? ==> Sends(t) > 0 && Rejects(LastOutcome(t)))
            && (v.Delivered? ==> v.reply.readable && v.reply.status < 400 && !(call.checkSuccess && v.reply.failed))
            && (v.TransportFailed? ==> IsIdempotent(WireVerb(call.verb)) && Sends(t) == MAX_SENDS)
            && (v.ApiFailed? && v.status == 429 ==> Sends(t) == MAX_SENDS)
            && (v.ApiFailed? && v.status >= 500 && IsIdempotent(WireVerb(call.verb)) ==> Sends(t) == MAX_SENDS)
  {
    SendsAreBounded(call, t);
    if t.Then? && t.event.Check? && Sends(t) > 0 {
      LookFollows(call, t.before);
    }
  }

  /** The loop top is reached from the start, after a wait, a refresh, a round,
      or a send whose failure is not final. */
  lemma {:induction false} LookFollows(call: Call, t: Trace)
    requires Run(call, t) && NextStep(call, t).Look? && Sends(t) > 0
    ensures t.event.Send? || SkipsBackoff(t) || StartsRound(t.event)
    ensures StartsRound(t.event) ==> Sends(t) < MAX_SENDS
    ensures !LastOutcome(t).RedirectBlocked?
    ensures LastOutcome(t).Broken? || Rejects(LastOutcome(t)) || StartsRound(t.event)
            || (LastOutcome(t).reply.status >= 500 && IsIdempotent(WireVerb(call.verb)))
  {
    if t.event.Sleep? || t.event.Refresh? {
      assert t.before.event.Send?;
      SendsAreBounded(call, t.before);
    }
  }

  predicate IsTransientAnswer(reply: Reply) {
    && reply.readable && reply.status < 400 && reply.failed
    && Atoi(reply.code).Some? && Atoi(reply.code).value >= 0 && Atoi(reply.code).value % 100 in {50, 61, 70, 99}
  }

  /** The outcomes after which a call may send once more. */
  predicate MaySendAgain(call: Call, outcome: Outcome) {
    var wireVerb := WireVerb(call.verb);
    match outcome
    case RedirectBlocked => false
    case Broken(_) => wireVerb in {"GET", "HEAD", "OPTIONS", "DELETE"}
    case Answer(reply) =>
      || reply.status == 429
      || (reply.status == 401 && call.canRefresh)
      || (reply.status >= 500 && wireVerb in {"GET", "HEAD", "OPTIONS", "DELETE"})
      || (call.checkSuccess && IsTransientAnswer(reply)
          && call.verb in {"GET", "HEAD", "OPTIONS", "DELETE", "POST", "PATCH"})
  }

  lemma {:induction false} RoundsFollowTransients(call: Call, t: Trace)
    requires Run(call, t) && t.Then? && StartsRound(t.event)
    ensures Sends(t) > 0 && MaySendAgain(call, LastOutcome(t))
  {
    assert t.before.event.Send? && LastOutcome(t) == t.before.event.outcome;
    TransientCodes(t.before.event.outcome.reply.code);
  }

  lemma {:induction false} LooksFollowReasons(call: Call, t: Trace)
    requires Run(call, t) && NextStep(call, t).Look? && Sends(t) > 0 && !AwaitsWriteFailure(call, t)
    ensures MaySendAgain(call, LastOutcome(t))
  {
    if StartsRound(t.event) {
      RoundsFollowTransients(call, t);
    } else if !t.event.Send? {
      assert t.before.event.Send? && LastOutcome(t) == t.before.event.outcome;
    }
  }

  /** The loop top from which a send came. */
  lemma {:induction false} SendsComeFromTheTop(call: Call, t: Trace) returns (top: Trace)
    requires Run(call, t) && NextStep(call, t).Transmit?
    ensures Run(call, top) && NextStep(call, top).Look? && !AwaitsWriteFailure(call, top)
    ensures Sends(top) == Sends(t) && (Sends(t) > 0 ==> LastOutcome(top) == LastOutcome(t))
  {
    if t.event.Check? {
      top := t.before;
    } else {
      assert Run(call, t.before) && Follows(call, t.before, t.event) && t.before.event.Check?;
      top := t.before.before;
      assert Run(call, top) && Follows(call, top, t.before.event);
    }
  }

  /** A second send is only ever made for a reason: the one before was rejected
      with 429 or (given a token source) 401, failed on a method safe to repeat,
      or was reported as transiently failed on a method other than PUT. */
  lemma {:induction false} ResendsHaveReasons(call: Call, t: Trace)
    requires Run(call, t) && t.Then? && t.event.Send? && Sends(t.before) > 0
    ensures MaySendAgain(call, LastOutcome(t.before))
  {
    var top := SendsComeFromTheTop(call, t.before);
    LooksFollowReasons(call, top);
  }

  // ----- Fidelity of resends

  /** Headers other than Authorization never change during a call. */
  lemma {:induction false} OnlyAuthorizationChanges(call: Call, t: Trace)
    ensures HeadersNow(call, t) - {AUTHORIZATION} == call.headers - {AUTHORIZATION}
    ensures KeyOf(HeadersNow(call, t)) == KeyOf(call.headers)
  {
    if t.Then? {
      OnlyAuthorizationChanges(call, t.before);
    }
  }

  predicate CarriesCall(call: Call, wire: Wire) {
    && wire.verb == WireVerb(call.verb) && wire.url == call.url && wire.body == call.body
    && wire.headers - {AUTHORIZATION} == call.headers - {AUTHORIZATION}
    && KeyOf(wire.headers) == KeyOf(call.headers)
  }

  predicate EverySend(call: Call, t: Trace) {
    t.Start? || (EverySend(call, t.before) && (t.event.Send? ==> CarriesCall(call, t.event.wire)))
  }

  function LastWire(t: Trace): Wire
    requires Sends(t) > 0
  {
    if t.event.Send? then t.event.wire else LastWire(t.before)
  }

  /** Two consecutive sends differ only when the first was answered with 401. */
  predicate ChangesOnlyAfter401(t: Trace) {
    t.Start? || (ChangesOnlyAfter401(t.before) &&
      (t.event.Send? && Sends(t.before) > 0 && t.event.wire != LastWire(t.before) ==>
        LastOutcome(t.before).Answer? && LastOutcome(t.before).reply.status == 401))
  }

  /** Every send carries the method, URL, complete body, key and headers of the
      call; only Authorization may change, and only right after a 401. */
  lemma {:induction false} ResendFidelity(call: Call, t: Trace)
    requires Run(call, t)
    ensures EverySend(call, t)
    ensures ChangesOnlyAfter401(t)
    ensures Sends(t) > 0 && LastWire(t) != WireNow(call, t) ==>
              LastOutcome(t).Answer? && LastOutcome(t).reply.status == 401
  {
    if t.Then? {
      ResendFidelity(call, t.before);
      OnlyAuthorizationChanges(call, t.before);
    }
  }

  /** SafeToRetry is promised only for POST and PATCH, and the key it names is
      the one every send carried. */
  lemma {:induction false} SafeToRetryNamesTheKey(call: Call, t: Trace)
    requires Run(call, t) && NextStep(call, t).Finish?
    requires NextStep(call, t).verdict.ApiFailed? && NextStep(call, t).verdict.safeToRetry
    ensures CarriesKey(call.verb) && NextStep(call, t).verdict.key == KeyOf(call.headers)
    ensures Sends(t) > 0 && KeyOf(LastWire(t).headers) == NextStep(call, t).verdict.key
  {
    ResendFidelity(call, t);
    SendOfStep(call, t);
    OnlyAuthorizationChanges(call, t.before);
    EverySendLast(call, t);
  }

  /** A finished call that promises its caller a safe retry without a key. */
  predicate PromisesBlindly(call: Call, t: Trace) {
    && Run(call, t) && NextStep(call, t).Finish? && NextStep(call, t).verdict.ApiFailed?
    && NextStep(call, t).verdict.safeToRetry && NextStep(call, t).verdict.key == ""
  }

  /** A POST or PATCH that the first server to answer fails with status 500. */
  function FailedAtOnce(call: Call): Trace {
    var broken := Answer(Reply(500, "", None, true, "", false));
    Then(Then(Start, Check(false)), Send(WireNow(call, Start), broken, false, false))
  }

  /** SafeToRetry is always backed by a key, except for exactly the POSTs and
      PATCHes whose key was blanked. */
  lemma SafeToRetryIsKeyedExactly(call: Call)
    ensures (forall t :: !PromisesBlindly(call, t)) <==> !(CarriesKey(call.verb) && KeyOf(call.headers) == "")
  {
    forall t | PromisesBlindly(call, t)
      ensures CarriesKey(call.verb) && KeyOf(call.headers) == ""
    {
      SafeToRetryNamesTheKey(call, t);
    }
    if CarriesKey(call.verb) && KeyOf(call.headers) == "" {
      var t := FailedAtOnce(call);
      assert Run(call, t.before.before) && NextStep(call, Start) == Look;
      assert Run(call, t.before) && NextStep(call, t.before) == Transmit;
      OnlyAuthorizationChanges(call, t.before);
      assert WireNow(call, t.before) == WireNow(call, Start);
      assert Run(call, t);
      assert PromisesBlindly(call, t);
    }
  }

  lemma {:induction false} SendOfStep(call: Call, t: Trace)
    requires Run(call, t) && NextStep(call, t).Finish? && NextStep(call, t).verdict.ApiFailed?
    ensures t.Then? && Sends(t) > 0
  {
  }

  lemma {:induction false} EverySendLast(call: Call, t: Trace)
    requires EverySend(call, t) && Sends(t) > 0
    ensures CarriesCall(call, LastWire(t))
  {
    if !t.event.Send? {
      EverySendLast(call, t.before);
    }
  }

  // ----- Effects on the server

  /** A call whose resends the server cannot recognize as such. */
  predicate CanApplyTwice(call: Call) {
    && KeyOf(call.headers) == ""
    && (IsIdempotent(WireVerb(call.verb)) || (CarriesKey(call.verb) && call.checkSuccess))
  }

  predicate EarlierSendsRejected(t: Trace) {
    t.Start? || (EarlierSendsRejected(t.before) &&
      (t.event.Send? && Sends(t.before) > 0 ==> Rejects(LastOutcome(t.before))))
  }

  /** A method that is neither idempotent nor resent on success=false (PUT, or
      POST and PATCH without the envelope check): every send but the last was
      answered with 429 or 401, so at most the last one was processed. */
  lemma {:induction false} WritesResendOnlyRejected(call: Call, t: Trace)
    requires Run(call, t)
    requires !IsIdempotent(WireVerb(call.verb)) && !(CarriesKey(call.verb) && call.checkSuccess)
    ensures EarlierSendsRejected(t)
    ensures Sends(t) > 0 && !Rejects(LastOutcome(t)) ==>
              NextStep(call, t).Finish? || (t.event.Send? && t.event.outcome.Broken?)
  {
    if t.Then? {
      WritesResendOnlyRejected(call, t.before);
    }
  }

  /** Without a key, as many requests are applied as sends went unrejected. */
  lemma {:induction false} AppliedAtMostLast(call: Call, t: Trace, server: Server)
    requires Run(call, t) && EarlierSendsRejected(t)
    ensures |ServerAfter(server, t).applied| <= |server.applied| + 1
    ensures Sends(t) == 0 || Rejects(LastOutcome(t)) ==> ServerAfter(server, t) == server
  {
    if t.Then? {
      AppliedAtMostLast(call, t.before, server);
    }
  }

  /** With a key, the server acts on the first send it accepts and knows the rest. */
  lemma {:induction false} KeyDeduplicates(call: Call, t: Trace, server: Server)
    requires Run(call, t) && KeyOf(call.headers) != ""
    ensures var after := ServerAfter(server, t);
            after == server ||
            (after.applied == server.applied + [Effect(WireVerb(call.verb), call.url, call.body)]
             && KeyOf(call.headers) in after.keys)
  {
    if t.Then? {
      KeyDeduplicates(call, t.before, server);
      OnlyAuthorizationChanges(call, t.before);
    }
  }

  /** At most one effect per call, against every conforming server. */
  lemma {:induction false} AtMostOneEffect(call: Call, t: Trace, server: Server)
    requires Run(call, t) && !CanApplyTwice(call)
    ensures |ServerAfter(server, t).applied| <= |server.applied| + 1
  {
    if KeyOf(call.headers) != "" {
      KeyDeduplicates(call, t, server);
    } else {
      WritesResendOnlyRejected(call, t);
      AppliedAtMostLast(call, t, server);
    }
  }

  /** PUT carries no key, so it relies on never being resent once processed. */
  lemma {:induction false} PutAppliesAtMostOnce(call: Call, t: Trace, server: Server)
    requires Run(call, t) && call.verb == "PUT"
    ensures EarlierSendsRejected(t)
    ensures |ServerAfter(server, t).applied| <= |server.applied| + 1
  {
    WritesResendOnlyRejected(call, t);
    AppliedAtMostLast(call, t, server);
  }

  function Reply200(failed: bool): Reply { Reply(200, "", None, true, "50", failed) }

  /** The run in which the first send is applied, reported as transiently
      failed, and then sent and applied again. */
  function TwiceApplied(call: Call): Trace {
    var wire := WireNow(call, Start);
    var first := if IsIdempotent(WireVerb(call.verb)) then Broken("reset") else Answer(Reply200(true));
    var sent := Then(Then(Start, Check(false)), Send(wire, first, true, false));
    var again := Send(wire, Answer(Reply200(false)), true, false);
    if IsIdempotent(WireVerb(call.verb)) then
      Then(Then(Then(sent, Check(false)), Sleep(RetryBackoff, SECOND, false)), again)
    else
      Then(Then(Then(sent, Sleep(EnvelopeBackoff, SECOND, false)), Check(false)), again)
  }

  lemma FiftyIsTransient()
    ensures IsTransientCode("50")
  {
    ItoaRoundTrip(50);
    assert DigitsValue("5") == 5 by { assert "5"[..0] == ""; }
    assert "50"[..1] == "5";
    assert DigitsValue("50") == 50;
  }

  lemma {:induction false} HeadersStay(call: Call, t: Trace)
    requires Refreshes(t) == 0
    ensures HeadersNow(call, t) == call.headers
  {
    if t.Then? {
      HeadersStay(call, t.before);
    }
  }

  lemma {:induction false} TwiceAppliedRuns(call: Call, server: Server)
    requires CanApplyTwice(call)
    ensures Run(call, TwiceApplied(call))
    ensures |ServerAfter(server, TwiceApplied(call)).applied| == |server.applied| + 2
  {
    FiftyIsTransient();
    assert Pow2(0) == 1;
    var t := TwiceApplied(call);
    var checked := Then(Start, Check(false));
    var sent := t.before.before.before;
    HeadersStay(call, checked);
    HeadersStay(call, sent);
    HeadersStay(call, t.before.before);
    HeadersStay(call, t.before);
    assert Run(call, Start) && Run(call, checked) && !Seen(checked);
    assert NextStep(call, checked) == Transmit && sent.before == checked;
    assert Follows(call, checked, sent.event);
    assert Run(call, sent) && !Seen(sent);
    assert ServerAfter(server, checked) == server;
    assert |ServerAfter(server, sent).applied| == |server.applied| + 1;
    assert Sends(sent) == RoundSends(sent) == 1 && Rounds(sent) == 0 && !RoundRefreshed(sent);
    if IsIdempotent(WireVerb(call.verb)) {
      assert NextStep(call, t.before.before) == BackOff(RetryBackoff, 1);
    } else {
      assert NextStep(call, sent) == BackOff(EnvelopeBackoff, 1);
      assert RoundSends(t.before.before) == 0 && NextStep(call, t.before) == Transmit;
    }
    assert Run(call, t.before.before) && !Seen(t.before.before);
    assert Run(call, t.before) && !Seen(t.before);
    assert ServerAfter(server, t.before) == ServerAfter(server, sent);
  }

  /** The at-most-once promise holds exactly for the calls that carry a key or
      are not resent after processing. In particular a custom header that
      blanks Idempotency-Key breaks it for POST and PATCH. */
  lemma AtMostOneEffectExactly(call: Call, server: Server)
    ensures (forall t | Run(call, t) :: |ServerAfter(server, t).applied| <= |server.applied| + 1)
            <==> !CanApplyTwice(call)
  {
    if CanApplyTwice(call) {
      TwiceAppliedRuns(call, server);
    } else {
      forall t | Run(call, t)
        ensures |ServerAfter(server, t).applied| <= |server.applied| + 1
      {
        AtMostOneEffect(call, t, server);
      }
    }
  }

  /** The state of a server after the sends it acted on, for any meaning of
      processing one request. */
  function StateAfter<S>(state: S, process: (S, Effect) -> S, t: Trace): S {
    if t.Start? then state
    else
      var before := StateAfter(state, process, t.before);
      if t.event.Send? && t.event.executed && !Rejects(t.event.outcome)
      then process(before, EffectOf(t.event.wire)) else before
  }

  /** How many sends the server acted on. */
  function Acted(t: Trace): nat {
    if t.Start? then 0
    else
      Acted(t.before) + if t.event.Send? && t.event.executed && !Rejects(t.event.outcome) then 1 else 0
  }

  function Repeated<S>(state: S, process: (S, Effect) -> S, e: Effect, n: nat): S {
    if n == 0 then state else process(Repeated(state, process, e, n - 1), e)
  }

  function EffectOfCall(call: Call): Effect { Effect(WireVerb(call.verb), call.url, call.body) }

  /** Because every send carries the whole call, the server never sees anything
      but repetitions of one and the same request. */
  lemma {:induction false} ResendsRepeat<S>(call: Call, t: Trace, state: S, process: (S, Effect) -> S)
    requires EverySend(call, t)
    ensures StateAfter(state, process, t) == Repeated(state, process, EffectOfCall(call), Acted(t))
  {
    if t.Then? {
      ResendsRepeat(call, t.before, state, process);
    }
  }

  /** Corollary of ResendFidelity: when processing the request twice equals
      processing it once, all its resends leave the state of none or one. */
  lemma {:induction false} RepeatedIdempotentRequests<S(!new)>(call: Call, t: Trace, state: S,
                                                               process: (S, Effect) -> S)
    requires Run(call, t)
    requires var e := EffectOfCall(call); forall s: S :: process(process(s, e), e) == process(s, e)
    ensures StateAfter(state, process, t) == if Acted(t) == 0 then state else process(state, EffectOfCall(call))
  {
    ResendFidelity(call, t);
    ResendsRepeat(call, t, state, process);
    RepetitionCollapses(state, process, EffectOfCall(call), Acted(t));
  }

  lemma {:induction false} RepetitionCollapses<S(!new)>(state: S, process: (S, Effect) -> S, e: Effect, n: nat)
    requires forall s: S :: process(process(s, e), e) == process(s, e)
    ensures Repeated(state, process, e, n) == if n == 0 then state else process(state, e)
  {
    if n > 0 {
      RepetitionCollapses(state, process, e, n - 1);
    }
  }

  // ----- Waiting

  function AtLeastZero(n: int): int { if n < 0 then 0 else n }

  /** Every honoured Retry-After, whatever the header says, is between zero and
      sixty seconds: the seconds or the date it names, cut to that range, and the
      conversion to nanoseconds does not wrap. It is honoured exactly when it is
      not blank and reads as an int64 number or a date. */
  lemma RetryAfterIsCapped(header: string, dateWait: Option<int>)
    ensures var v := TrimRight(TrimLeft(header));
            var wait := ParseRetryAfter(header, dateWait);
            && (wait.Some? <==> v != "" && (Atoi(v).Some? || dateWait.Some?))
            && (wait.Some? ==> 0 <= CapWait(wait.value) <= MAX_RETRY_AFTER)
            && (wait.Some? ==>
                 var asked := if Atoi(v).Some? then Atoi(v).value * SECOND else dateWait.value;
                 CapWait(wait.value) == CapWait(AtLeastZero(asked)))
  {
    var v := TrimRight(TrimLeft(header));
    if v != "" && Atoi(v).Some? {
      var secs := AtLeastZero(Atoi(v).value);
      if secs <= MAX_INT64 / SECOND {
        assert 0 <= secs * SECOND <= MAX_INT64;
      } else {
        assert secs * SECOND > MAX_RETRY_AFTER;
      }
    }
  }

  lemma DigitsAreNotTrimmed(s: string)
    requires s != "" && AllDigits(s)
    ensures TrimRight(TrimLeft(s)) == s
  {
    assert IsDigit(s[0]) && IsDigit(s[|s| - 1]);
  }

  /** A header naming a number of seconds is honoured exactly up to the int64
      range, waiting that long or a minute; a larger number is not, so the client
      falls back to its own backoff. */
  lemma RetryAfterNumbers(n: nat)
    ensures var wait := ParseRetryAfter(Itoa(n), None);
            && (wait.Some? <==> n <= MAX_INT64)
            && (wait.Some? ==> CapWait(wait.value) == if n < 60 then n * SECOND else MAX_RETRY_AFTER)
  {
    DigitsAreNotTrimmed(Itoa(n));
    assert IsDigit(Itoa(n)[0]);
    assert Atoi(Itoa(n)) == if n <= MAX_INT64 then Some(n) else None;
    RetryAfterIsCapped(Itoa(n), None);
  }

  /** Zuora's transient codes end in 50, 61, 70 or 99; a negative number is
      never one, because Go's remainder keeps the sign. */
  lemma TransientCodes(code: string)
    ensures IsTransientCode(code) <==>
            Atoi(code).Some? && Atoi(code).value >= 0 && Atoi(code).value % 100 in {50, 61, 70, 99}
  {
  }

  function TotalSleep(t: Trace): int {
    if t.Start? then 0 else TotalSleep(t.before) + if t.event.Sleep? then t.event.ns else 0
  }

  /** Whether there was a sleep since the last send. */
  predicate Slept(t: Trace) {
    t.Then? && !t.event.Send? && (t.event.Sleep? || Slept(t.before))
  }

  /** A sleep is due only after a send that has not been followed by one, and
      for at most a minute. */
  lemma {:induction false} OneSleepPerSend(call: Call, t: Trace)
    requires Run(call, t)
    requires NextStep(call, t).BackOff? || NextStep(call, t).Wait?
    ensures Sends(t) > 0 && !Slept(t)
    ensures NextStep(call, t).Wait? ==> 0 <= NextStep(call, t).ns <= MAX_RETRY_AFTER
    ensures NextStep(call, t).BackOff? ==> 0 < NextStep(call, t).attempt <= Sends(t) < MAX_SENDS
  {
    SendsAreBounded(call, t);
    RoundsBelowSends(call, t);
    if NextStep(call, t).Wait? {
      RetryAfterIsCapped(t.event.outcome.reply.retryAfter, t.event.outcome.reply.dateWait);
    }
  }

  lemma {:induction false} RoundsBelowSends(call: Call, t: Trace)
    requires Run(call, t)
    ensures Rounds(t) + RoundSends(t) <= Sends(t)
    ensures t.Then? && t.event.Send? ==> RoundSends(t) > 0
  {
    if t.Then? {
      RoundsBelowSends(call, t.before);
    }
  }

  /** Upper end of all backoffs after `sends` sends: 1.5s, 4.5s and 10.5s. */
  function BackoffCap(sends: nat): int { (Pow2(sends) - 1) * (SECOND + SECOND / 2) }

  predicate NoRetryAfter(t: Trace) {
    t.Start? || (NoRetryAfter(t.before) && !(t.event.Sleep? && t.event.kind == RetryAfterWait))
  }

  /** Sends after which there may have been a sleep. */
  function Slots(t: Trace): int { Sends(t) - if Sends(t) > 0 && !Slept(t) then 1 else 0 }

  /** Each sleep fills the slot of the last send: at most a minute, and for a
      backoff less than the cap grows by that slot. */
  lemma {:induction false} SleepStep(call: Call, t: Trace)
    requires Run(call, t) && t.Then? && t.event.Sleep?
    ensures Slots(t) == Slots(t.before) + 1 > 0
    ensures 0 <= t.event.ns <= MAX_RETRY_AFTER
    ensures t.event.kind != RetryAfterWait ==>
              0 < t.event.ns && BackoffCap(Slots(t.before)) + t.event.ns < BackoffCap(Slots(t))
  {
    OneSleepPerSend(call, t.before);
    if NextStep(call, t.before).BackOff? {
      BackoffFits(NextStep(call, t.before).attempt, Sends(t), t.event.ns);
    }
  }

  lemma {:induction false} BackoffFits(attempt: nat, sends: nat, ns: int)
    requires 0 < attempt <= sends < MAX_SENDS && InBackoffRange(attempt, ns)
    ensures 0 < ns <= MAX_RETRY_AFTER && IsInt64(ns)
    ensures BackoffCap(sends - 1) + ns < BackoffCap(sends)
  {
    assert Pow2(0) == 1 && Pow2(1) == 2 && Pow2(2) == 4 && Pow2(3) == 8;
  }

  lemma {:induction false} SlotsNeverShrink(t: Trace)
    requires t.Then?
    ensures 0 <= Slots(t.before) <= Slots(t) <= Slots(t.before) + 1
  {
    SleptNeedsSend(t.before);
  }

  lemma {:induction false} SleptNeedsSend(t: Trace)
    ensures Slots(t) >= 0
  {
    if t.Then? { SleptNeedsSend(t.before); }
  }

  function Minutes(n: int): int { n * 60_000_000_000 }

  lemma BackoffCapGrows(n: nat)
    ensures BackoffCap(n) <= BackoffCap(n + 1)
  {
  }

  /** At most one sleep per send, each at most a minute; and without Retry-After
      the backoffs stay strictly below the cap, however the two loops mix. */
  lemma {:induction false} SleepBySends(call: Call, t: Trace)
    requires Run(call, t)
    ensures 0 <= TotalSleep(t) <= Minutes(Slots(t))
    ensures NoRetryAfter(t) ==> TotalSleep(t) == 0 || TotalSleep(t) < BackoffCap(Slots(t))
  {
    if t.Then? {
      SleepBySends(call, t.before);
      SlotsNeverShrink(t);
      BackoffCapGrows(Slots(t.before));
      if t.event.Sleep? {
        SleepStep(call, t);
      }
    }
  }

  /** Total waiting is at most four minutes, and under 10.5 seconds in a run
      that honours no Retry-After. All of it fits int64 nanoseconds. */
  lemma WaitingIsBounded(call: Call, t: Trace)
    requires Run(call, t)
    ensures 0 <= TotalSleep(t) <= Sends(t) * MAX_RETRY_AFTER <= 240 * SECOND
    ensures IsInt64(TotalSleep(t))
    ensures NoRetryAfter(t) ==> TotalSleep(t) < 10_500_000_000
  {
    SleepBySends(call, t);
    SendsAreBounded(call, t);
    if NoRetryAfter(t) && Slept(t) {
      OnlyWaitsAfterLast(call, t);
      NoWaitsWithoutRetryAfter(t);
    }
    assert Pow2(0) == 1 && Pow2(1) == 2 && Pow2(2) == 4 && Pow2(3) == 8;
  }

  /** What the last sleep was for. */
  function LastSleep(t: Trace): SleepKind
    requires Slept(t)
  {
    if t.event.Sleep? then t.event.kind else LastSleep(t.before)
  }

  /** Backoff never follows the last permitted send; only the wait that a server
      asks for can. */
  lemma {:induction false} OnlyWaitsAfterLast(call: Call, t: Trace)
    requires Run(call, t)
    ensures Sends(t) == MAX_SENDS && Slept(t) ==> LastSleep(t) == RetryAfterWait
  {
    if t.Then? {
      OnlyWaitsAfterLast(call, t.before);
      SendsAreBounded(call, t.before);
    }
  }

  lemma {:induction false} NoWaitsWithoutRetryAfter(t: Trace)
    requires NoRetryAfter(t) && Slept(t)
    ensures LastSleep(t) != RetryAfterWait
  {
    if !t.event.Sleep? {
      NoWaitsWithoutRetryAfter(t.before);
    }
  }

  // ----- Token refreshes

  function Refreshes(t: Trace): nat {
    if t.Start? then 0 else Refreshes(t.before) + if t.event.Refresh? then 1 else 0
  }

  /** Whether a refresh was not yet followed by a send. */
  predicate TokenUnused(t: Trace) {
    t.Then? && (t.event.Refresh? || (!t.event.Send? && TokenUnused(t.before)))
  }

  /** At most one refresh per doWithRetry, and over the call twice the
      refreshes is at most the sends plus one: at most two. */
  lemma {:induction false} RefreshesAreBounded(call: Call, t: Trace)
    requires Run(call, t)
    ensures 2 * Refreshes(t) <= Sends(t) + if TokenUnused(t) then 1 else 0
    ensures !RoundRefreshed(t) ==> 2 * Refreshes(t) + RoundSends(t) <= Sends(t)
    ensures RoundRefreshed(t) ==> !NextStep(call, t).Renew?
    ensures Refreshes(t) <= 2
    ensures t.Then? && t.event.Refresh? ==> t.before.event.Send? && t.before.event.outcome.reply.status == 401
  {
    SendsAreBounded(call, t);
    if t.Then? {
      RefreshesAreBounded(call, t.before);
      RoundsBelowSends(call, t.before);
    }
  }

  // ----- Cancellation

  /** The client has noticed the cancellation: at a check, in a sleep, or
      because a send failed after it. */
  predicate Noticed(e: Event) {
    match e
    case Check(done) => done
    case Sleep(_, _, cut) => cut
    case Send(_, outcome, _, done) => outcome.Broken? && done
    case Refresh(_) => false
  }

  predicate EverNoticed(t: Trace) { t.Then? && (Noticed(t.event) || EverNoticed(t.before)) }

  predicate SentAfterNotice(t: Trace) {
    t.Then? && (SentAfterNotice(t.before) || (t.event.Send? && EverNoticed(t.before)))
  }

  /** Once noticed, cancellation decides the outcome for every method: nothing
      more is sent and the call ends with the context error, never with an
      earlier API error. Conversely only a noticed cancellation ends it so. */
  lemma {:induction false} CancellationWins(call: Call, t: Trace)
    requires Run(call, t)
    ensures !SentAfterNotice(t)
    ensures EverNoticed(t) ==> NextStep(call, t) in {Look, Finish(Cancelled)}
    ensures EverNoticed(t) ==> Seen(t) && (NextStep(call, t).Look? ==> t.event.Send?)
    ensures NextStep(call, t) == Finish(Cancelled) ==> EverNoticed(t)
  {
    if t.Then? {
      CancellationWins(call, t.before);
    }
  }

  lemma CancelledExactly(call: Call, t: Trace)
    requires Run(call, t) && NextStep(call, t).Finish?
    ensures NextStep(call, t).verdict == Cancelled <==> EverNoticed(t)
  {
    CancellationWins(call, t);
  }
}
