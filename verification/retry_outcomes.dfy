/** What every run of the retry protocol is made of: how it gets from one send to
    the next, when it stops, and what it then reports. */
module RetryOutcomes {
  import opened Wrappers
  import opened GoInts
  import opened RetryPolicy
  import opened RetryLaws

  predicate Repeatable(call: Call) { call.verb in {"", "GET", "HEAD", "OPTIONS", "DELETE"} }

  predicate Keyed(call: Call) { call.verb in {"POST", "PATCH"} }

  // ----- From one send to the next

  /** The wait a 429 asks for: a number of seconds or a date. */
  function Asked(reply: Reply): Option<int> {
    var v := TrimRight(TrimLeft(reply.retryAfter));
    if v == "" then None
    else if Atoi(v).Some? then Some(Atoi(v).value * SECOND)
    else reply.dateWait
  }

  function Clamp(ns: int): int { if ns < 0 then 0 else if ns > 60 * SECOND then 60 * SECOND else ns }

  /** The token of the refresh that `t` has just checked the context after. */
  function NewToken(t: Trace): Option<string> {
    if t.Then? && t.before.Then? && t.before.event.Refresh? then t.before.event.token else None
  }

  /** The backoff that `t` ends with, or that comes before its last event. */
  function Pause(t: Trace): int {
    if t.Then? && t.event.Sleep? then t.event.ns
    else if t.Then? && t.before.Then? && t.before.event.Sleep? then t.before.event.ns else 0
  }

  /** `t` leads from the send at the end of `sent` to the next one: over the wait
      the server asked for, a token refresh, or a backoff in the range of the
      loop that goes round, and over one context check. */
  predicate Gap(sent: Trace, t: Trace)
    requires sent.Then? && sent.event.Send?
  {
    var status := if sent.event.outcome.Answer? then sent.event.outcome.reply.status else 0;
    if status == 429 && Asked(sent.event.outcome.reply).Some? then
      var ns := Clamp(Asked(sent.event.outcome.reply).value);
      t == Then(Then(sent, Sleep(RetryAfterWait, ns, false)), Check(false))
    else if status == 401 then
      NewToken(t).Some? && t == Then(Then(sent, Refresh(NewToken(t))), Check(false))
    else if sent.event.outcome.Answer? && status < 400 then
      InBackoffRange(Rounds(sent) + 1, Pause(t))
      && t == Then(Then(sent, Sleep(EnvelopeBackoff, Pause(t), false)), Check(false))
    else
      RoundSends(sent) > 0 && InBackoffRange(RoundSends(sent), Pause(t))
      && t == Then(Then(sent, Check(false)), Sleep(RetryBackoff, Pause(t), false))
  }

  /** The first send follows one context check and is the call as given. */
  lemma {:induction false} FirstSend(call: Call, t: Trace)
    requires Run(call, t) && t.Then? && t.event.Send? && Sends(t.before) == 0
    ensures t.before == Then(Start, Check(false))
    ensures t.event.wire == Wire(if call.verb == "" then "GET" else call.verb, call.url, call.headers, call.body)
  {
    assert NextStep(call, t.before).Transmit?;
    assert t.before.event.Check? by {
      if t.before.event.Sleep? { OneSleepPerSend(call, t.before.before); }
    }
    NothingBeforeFirst(call, t.before.before);
    assert HeadersNow(call, t.before) == HeadersNow(call, Start);
  }

  lemma {:induction false} NothingBeforeFirst(call: Call, t: Trace)
    requires Run(call, t) && Sends(t) == 0 && NextStep(call, t).Look?
    ensures t == Start
  {
  }

  /** Every later send follows the one before over one such gap, and carries what
      that one carried, with the new token after a refresh. */
  lemma {:induction false} SendsAreSpaced(call: Call, t: Trace) returns (sent: Trace)
    requires Run(call, t) && t.Then? && t.event.Send? && Sends(t.before) > 0
    ensures sent.Then? && sent.event.Send? && Run(call, sent) && Sends(t) == Sends(sent) + 1
    ensures Gap(sent, t.before)
    ensures t.event.wire ==
            match NewToken(t.before)
            case Some(token) => sent.event.wire.(headers := sent.event.wire.headers[AUTHORIZATION := "Bearer " + token])
            case None => sent.event.wire
  {
    var last := t.before;
    assert Run(call, last) && NextStep(call, last).Transmit?;
    if last.event.Sleep? {
      sent := BackoffGap(call, last);
    } else {
      sent := CheckGap(call, last);
    }
  }

  lemma {:induction false} BackoffGap(call: Call, t: Trace) returns (sent: Trace)
    requires Run(call, t) && NextStep(call, t).Transmit? && Sends(t) > 0 && t.event.Sleep?
    ensures sent.Then? && sent.event.Send? && Run(call, sent) && Sends(t) == Sends(sent)
    ensures Gap(sent, t) && NewToken(t).None? && WireNow(call, t) == sent.event.wire
  {
    assert Follows(call, t.before, t.event) && t.before.event.Check?;
    sent := t.before.before;
    assert Run(call, sent) && Follows(call, sent, t.before.event) && NextStep(call, sent).Look?;
    assert RoundSends(sent) > 0 && !SkipsBackoff(sent);
    assert !StartsRound(sent.event);
    assert sent.event.Send?;
    assert HeadersNow(call, t) == HeadersNow(call, t.before) == HeadersNow(call, sent) == HeadersNow(call, sent.before);
    assert Follows(call, sent.before, sent.event);
    if sent.event.outcome.Answer? { AskedIsHonoured(sent.event.outcome.reply); }
  }

  lemma AskedIsHonoured(reply: Reply)
    ensures var wait := ParseRetryAfter(reply.retryAfter, reply.dateWait);
            (wait.Some? <==> Asked(reply).Some?) && (wait.Some? ==> CapWait(wait.value) == Clamp(Asked(reply).value))
  {
    RetryAfterIsCapped(reply.retryAfter, reply.dateWait);
  }

  lemma {:induction false} CheckGap(call: Call, t: Trace) returns (sent: Trace)
    requires Run(call, t) && NextStep(call, t).Transmit? && Sends(t) > 0 && t.event.Check?
    ensures sent.Then? && sent.event.Send? && Run(call, sent) && Sends(t) == Sends(sent)
    ensures Gap(sent, t)
    ensures WireNow(call, t) ==
            match NewToken(t)
            case Some(token) => sent.event.wire.(headers := sent.event.wire.headers[AUTHORIZATION := "Bearer " + token])
            case None => sent.event.wire
  {
    var top := t.before;
    assert Run(call, top) && Follows(call, top, t.event) && NextStep(call, top).Look?;
    RoundsBelowSends(call, top);
    assert !top.event.Send?;
    assert Follows(call, top.before, top.event) && top.before.event.Send?;
    sent := top.before;
    assert Run(call, sent) && Follows(call, sent.before, sent.event);
    assert HeadersNow(call, sent) == HeadersNow(call, sent.before) && HeadersNow(call, t) == HeadersNow(call, top);
    if sent.event.outcome.Answer? { AskedIsHonoured(sent.event.outcome.reply); }
  }

  /** The backoffs of a loop are 1 to 1.5, 2 to 3 and 4 to 6 seconds. */
  lemma BackoffValues(ns: int)
    ensures InBackoffRange(1, ns) <==> 1_000_000_000 <= ns < 1_500_000_000
    ensures InBackoffRange(2, ns) <==> 2_000_000_000 <= ns < 3_000_000_000
    ensures InBackoffRange(3, ns) <==> 4_000_000_000 <= ns < 6_000_000_000
  {
    assert Pow2(0) == 1 && Pow2(1) == 2 && Pow2(2) == 4;
  }

  /** As long as the outer loop has not gone round, the inner one counts all sends. */
  lemma {:induction false} OneRoundCountsAll(t: Trace)
    requires Rounds(t) == 0
    ensures RoundSends(t) == Sends(t)
  {
    if t.Then? {
      OneRoundCountsAll(t.before);
    }
  }

  // ----- Where it stops

  /** Whether the token had been refreshed, in its round, before the last send. */
  predicate Renewed(t: Trace) {
    t.Then? && if t.event.Send? then RoundRefreshed(t.before) else Renewed(t.before)
  }

  /** The last outcome asks for another send. */
  predicate Retriable(call: Call, t: Trace)
    requires Sends(t) > 0
  {
    MaySendAgain(call, LastOutcome(t))
    && !(LastOutcome(t).Answer? && LastOutcome(t).reply.status == 401 && Renewed(t))
  }

  /** Unless cancelled or left without a token, a call stops at an outcome that does
      not ask for another send, or after all its sends; it never gives up early. */
  lemma {:induction false} NeverGivesUpEarly(call: Call, t: Trace)
    requires Run(call, t) && NextStep(call, t).Finish?
    requires NextStep(call, t).verdict !in {Cancelled, RefreshFailed}
    ensures Sends(t) > 0 && (Retriable(call, t) ==> Sends(t) == MAX_SENDS)
  {
    SendsAreBounded(call, t);
    VerdictIsOfLastSend(call, t);
    if t.event.Send? {
      if t.event.outcome.Answer? { TransientCodes(t.event.outcome.reply.code); }
    } else {
      assert t.event.Check?;
    }
  }

  lemma GapKeeps(sent: Trace, t: Trace)
    requires sent.Then? && sent.event.Send? && Gap(sent, t)
    ensures Sends(t) == Sends(sent) && LastOutcome(t) == sent.event.outcome && Renewed(t) == RoundRefreshed(sent.before)
  {
    assert t.Then? && t.before.Then? && t.before.before == sent && !t.event.Send? && !t.before.event.Send?;
    assert Sends(t.before) == Sends(sent) && LastOutcome(t.before) == LastOutcome(sent);
    assert Renewed(t.before) == Renewed(sent);
  }

  /** And conversely it never sends again where the last outcome does not ask for it. */
  lemma {:induction false} NeverSendsUnasked(call: Call, t: Trace)
    requires Run(call, t) && t.Then? && t.event.Send? && Sends(t.before) > 0
    ensures Retriable(call, t.before) && Sends(t.before) < MAX_SENDS
  {
    ResendsHaveReasons(call, t);
    SendsAreBounded(call, t);
    var sent := SendsAreSpaced(call, t);
    GapKeeps(sent, t.before);
    if sent.event.outcome.Answer? && sent.event.outcome.reply.status == 401 {
      assert Run(call, t.before.before) && Follows(call, sent, Refresh(NewToken(t.before)));
    }
  }

  // ----- What it reports

  /** What a call ends with when `outcome` was its last; `renewed` says whether the
      token had been refreshed before. */
  function FinalVerdict(call: Call, outcome: Outcome, renewed: bool): Verdict {
    match outcome
    case RedirectBlocked => RedirectRefused
    case Broken(message) =>
      if Repeatable(call) then TransportFailed(message)
      else ApiFailed(0, "", message, Keyed(call), KeyOf(call.headers))
    case Answer(reply) =>
      if reply.status >= 500 && !Repeatable(call) then
        ApiFailed(reply.status, reply.code, "", Keyed(call), KeyOf(call.headers))
      else if reply.status == 429 || reply.status >= 500 || (reply.status == 401 && !renewed) then
        ApiFailed(reply.status, reply.code, "", false, "")
      else if !reply.readable then BodyUnreadable
      else if reply.status >= 400 || (call.checkSuccess && reply.failed) then
        ApiFailed(reply.status, reply.code, "", false, "")
      else Delivered(reply)
  }

  /** The verdict is a function of the last outcome, in every run: SafeToRetry is
      announced exactly for a POST or PATCH that failed in transport or with 5xx,
      a reply is delivered whenever it is a success. */
  lemma {:induction false} VerdictExactly(call: Call, t: Trace)
    requires Run(call, t) && NextStep(call, t).Finish?
    requires NextStep(call, t).verdict !in {Cancelled, RefreshFailed}
    ensures Sends(t) > 0 && NextStep(call, t).verdict == FinalVerdict(call, LastOutcome(t), Renewed(t))
  {
    VerdictIsOfLastSend(call, t);
    OnlyAuthorizationChanges(call, t.before);
    if t.event.Check? {
      assert LastOutcome(t) == LastOutcome(t.before) && Renewed(t) == Renewed(t.before);
      OnlyAuthorizationChanges(call, t.before.before);
      if !AwaitsWriteFailure(call, t.before) { GivingUp(call, t.before); }
    }
  }

  lemma {:induction false} GivingUp(call: Call, t: Trace)
    requires Run(call, t) && NextStep(call, t).Look? && Sends(t) > 0
    requires Sends(t) >= MAX_SENDS && !AwaitsWriteFailure(call, t)
    ensures ErrorOf(LastOutcome(t)) == FinalVerdict(call, LastOutcome(t), Renewed(t))
  {
    LookFollows(call, t);
    SendsAreBounded(call, t);
    if !t.event.Send? {
      assert Follows(call, t.before, t.event) && t.before.event.Send?;
      assert LastOutcome(t) == t.before.event.outcome;
    }
  }

  /** A call is left without a token exactly when its last refresh failed. */
  lemma RefreshFailedExactly(call: Call, t: Trace)
    requires Run(call, t)
    ensures NextStep(call, t) == Finish(RefreshFailed) <==> t.Then? && t.event == Refresh(None)
  {
    if t.Then? && t.event.Check? && Sends(t.before) > 0 && NextStep(call, t).Finish? {
      assert ErrorOf(LastOutcome(t.before)) != RefreshFailed;
    }
  }
}
