/** `zr query`: the queryMore loop against the whole record stream. */
module Zoql {
  import opened Wrappers

  type Record = string

  datatype Reply = Broken | Batch(records: seq<Record>, done: bool, locator: string)

  /** How the server answers the i-th request: the query itself for i = 0, then
      queryMore with a locator. */
  type Server = (nat, string) -> Reply

  datatype Result = Error | Combined(records: seq<Record>, size: nat, done: bool, locator: Option<string>)

  // ----- The record stream

  function LocatorFor(server: Server, i: nat): string {
    if i == 0 then ""
    else
      var r := server(i - 1, LocatorFor(server, i - 1));
      if r.Batch? then r.locator else ""
  }

  function ReplyAt(server: Server, i: nat): Reply { server(i, LocatorFor(server, i)) }

  /** The records of batches `from` to `upto`, exclusive. */
  function Stream(server: Server, from: nat, upto: nat): seq<Record>
    requires from <= upto
  {
    if from == upto then []
    else
      var r := ReplyAt(server, upto - 1);
      Stream(server, from, upto - 1) + if r.Batch? then r.records else []
  }

  predicate HasMore(r: Reply) { r.Batch? && !r.done && r.locator != "" }

  /** Batch `e` is the last one of the stream. */
  predicate EndsAt(server: Server, e: nat) {
    && (forall i | 0 <= i < e :: HasMore(ReplyAt(server, i)))
    && ReplyAt(server, e).Batch? && !HasMore(ReplyAt(server, e))
  }

  predicate LimitMet(server: Server, limit: int, i: nat) {
    limit > 0 && |Stream(server, 0, i + 1)| >= limit
  }

  /** The loop does not go past request `i`. */
  predicate StopsAt(server: Server, limit: int, i: nat) {
    !HasMore(ReplyAt(server, i)) || LimitMet(server, limit, i)
  }

  /** The last request made, from request `i` on, given that `bound` stops. */
  function LastFrom(server: Server, limit: int, i: nat, bound: nat): nat
    requires i <= bound && StopsAt(server, limit, bound)
    decreases bound - i
  {
    if StopsAt(server, limit, i) then i else LastFrom(server, limit, i + 1, bound)
  }

  function CombinedOf(limit: int, all: seq<Record>, last: Reply): Result
    requires last.Batch?
  {
    var trimmed := limit > 0 && |all| > limit;
    var records := if trimmed then all[..limit] else all;
    var locator := if last.locator != "" && !trimmed then Some(last.locator) else None;
    Combined(records, |records|, last.done && !trimmed, locator)
  }

  function Meaning(server: Server, limit: int, last: nat): Result {
    match ReplyAt(server, last)
    case Broken => Error
    case Batch(_, _, _) => CombinedOf(limit, Stream(server, 0, last + 1), ReplyAt(server, last))
  }

  /** The records of the answers to these requests. */
  function Collected(server: Server, log: seq<string>): seq<Record> {
    if log == [] then []
    else
      var r := server(|log| - 1, log[|log| - 1]);
      Collected(server, log[..|log| - 1]) + if r.Batch? then r.records else []
  }

  /** Request `i` is followed by another: its answer was not done and gave the
      locator that the other carries, and the limit was not met. */
  predicate GoesOn(server: Server, limit: int, log: seq<string>, i: nat)
    requires i + 1 < |log|
  {
    && server(i, log[i]).Batch? && !server(i, log[i]).done
    && log[i + 1] != "" && log[i + 1] == server(i, log[i]).locator
    && !(|Collected(server, log[..i + 1])| >= limit > 0)
  }

  /** The query itself, then one queryMore after the other. */
  predicate FollowsLocators(server: Server, limit: int, log: seq<string>) {
    log != [] && log[0] == "" && forall i | 0 <= i < |log| - 1 :: GoesOn(server, limit, log, i)
  }

  /** What is reported after these requests: the last answer stops the loop, and
      decides, with the limit, on the rows, on `done` and on the locator. */
  predicate Reports(server: Server, limit: int, log: seq<string>, result: Result)
    requires log != []
  {
    match server(|log| - 1, log[|log| - 1])
    case Broken => result == Error
    case Batch(_, done, locator) =>
      var all := Collected(server, log);
      && (done || locator == "" || |all| >= limit > 0)
      && result.Combined? && result.size == |result.records|
      && (if |all| > limit > 0 then
            |result.records| == limit && result.records <= all && !result.done && result.locator.None?
          else
            result.records == all && (result.done <==> done)
            && (result.locator.Some? <==> locator != "") && (result.locator.Some? ==> result.locator.value == locator))
  }

  lemma LongerLog(server: Server, limit: int, log: seq<string>, sent: string)
    requires FollowsLocators(server, limit, log)
    requires var r := server(|log| - 1, log[|log| - 1]); r.Batch? && !r.done && r.locator == sent != ""
    requires !(|Collected(server, log)| >= limit > 0)
    ensures FollowsLocators(server, limit, log + [sent])
    ensures var r := server(|log|, sent);
            Collected(server, log + [sent]) == Collected(server, log) + if r.Batch? then r.records else []
  {
    var more := log + [sent];
    assert more[..|log|] == log;
    forall i | 0 <= i < |more| - 1 ensures GoesOn(server, limit, more, i) {
      assert more[..i + 1] == log[..i + 1];
      if i < |log| - 1 { assert GoesOn(server, limit, log, i); } else { assert log[..i + 1] == log; }
    }
  }

  /** runQuery up to the combined result; `log` holds the locators it sent. `bound`
      is some request at which the loop has to stop; without one it would run
      forever. */
  method RunQuery(server: Server, limit: int, ghost bound: nat) returns (result: Result, log: seq<string>)
    requires StopsAt(server, limit, bound)
    ensures FollowsLocators(server, limit, log) && Reports(server, limit, log, result)
    ensures |log| == LastFrom(server, limit, 0, bound) + 1 && result == Meaning(server, limit, |log| - 1)
  {
    var r := server(0, "");
    log := [""];
    if r.Broken? {
      return Error, log;
    }
    var allRecords := r.records;
    assert Stream(server, 0, 0) + r.records == r.records && log[..0] == [];
    while !r.done && r.locator != ""
      invariant 1 <= |log| <= bound + 1 && FollowsLocators(server, limit, log)
      invariant log[|log| - 1] == LocatorFor(server, |log| - 1)
      invariant r == ReplyAt(server, |log| - 1) && r.Batch?
      invariant allRecords == Stream(server, 0, |log|) == Collected(server, log)
      invariant LastFrom(server, limit, |log| - 1, bound) == LastFrom(server, limit, 0, bound)
      decreases bound + 1 - |log|
    {
      if limit > 0 && |allRecords| >= limit {
        break;
      }
      ghost var before := log;
      var sent := r.locator;
      r := server(|log|, sent);
      log := log + [sent];
      LongerLog(server, limit, before, sent);
      if r.Broken? {
        return Error, log;
      }
      allRecords := allRecords + r.records;
    }
    result := Combine(limit, allRecords, r);
  }

  /** Applying the limit, and what is reported of the last answer. */
  method Combine(limit: int, all: seq<Record>, last: Reply) returns (result: Result)
    requires last.Batch?
    ensures result == CombinedOf(limit, all, last)
  {
    var allRecords, trimmed := all, false;
    if limit > 0 && |allRecords| > limit {
      allRecords := allRecords[..limit];
      trimmed := true;
    }
    var done := last.done && !trimmed;
    var locator := if last.locator != "" && !trimmed then Some(last.locator) else None;
    result := Combined(allRecords, |allRecords|, done, locator);
  }

  // ----- What the result means

  lemma {:induction false} LastIsFirstStop(server: Server, limit: int, i: nat, bound: nat)
    requires i <= bound && StopsAt(server, limit, bound)
    ensures var last := LastFrom(server, limit, i, bound);
            && i <= last <= bound && StopsAt(server, limit, last)
            && (forall j | i <= j < last :: !StopsAt(server, limit, j))
    decreases bound - i
  {
    if !StopsAt(server, limit, i) {
      LastIsFirstStop(server, limit, i + 1, bound);
    }
  }

  /** Once the limit is met nothing more is fetched, and every request but the
      last was answered with a further locator. */
  lemma NoFetchPastLimit(server: Server, limit: int, bound: nat)
    requires StopsAt(server, limit, bound)
    ensures var last := LastFrom(server, limit, 0, bound);
            forall j | 0 <= j < last ::
              HasMore(ReplyAt(server, j)) && !LimitMet(server, limit, j)
  {
    LastIsFirstStop(server, limit, 0, bound);
    forall j | 0 <= j < LastFrom(server, limit, 0, bound)
      ensures HasMore(ReplyAt(server, j)) && !LimitMet(server, limit, j)
    {
      assert !StopsAt(server, limit, j);
    }
  }

  lemma {:induction false} StreamSplits(server: Server, from: nat, mid: nat, upto: nat)
    requires from <= mid <= upto
    ensures Stream(server, from, upto) == Stream(server, from, mid) + Stream(server, mid, upto)
    decreases upto - mid
  {
    if mid < upto {
      StreamSplits(server, from, mid, upto - 1);
    }
  }

  /** The loop stops because the limit is met, or at the end of the stream. */
  lemma WhyItStopped(server: Server, limit: int, bound: nat)
    requires StopsAt(server, limit, bound)
    ensures var last := LastFrom(server, limit, 0, bound);
            ReplyAt(server, last).Batch? && !LimitMet(server, limit, last) ==> EndsAt(server, last)
    ensures var last := LastFrom(server, limit, 0, bound);
            forall e: nat | EndsAt(server, e) ::
              last <= e && ReplyAt(server, last).Batch? && (last < e ==> LimitMet(server, limit, last))
  {
    NoFetchPastLimit(server, limit, bound);
    LastIsFirstStop(server, limit, 0, bound);
    forall e: nat | EndsAt(server, e) ensures LastFrom(server, limit, 0, bound) <= e {
      assert !HasMore(ReplyAt(server, e));
    }
  }

  function Min(a: int, b: int): int { if a < b then a else b }

  /** Whatever the limit and the batch sizes, and whether or not the stream ends or
      fails later on: a met limit gives its first `limit` records, and an unmet
      one means the stream ended, all of it being returned. */
  lemma RecordsArePrefix(server: Server, limit: int, bound: nat)
    requires StopsAt(server, limit, bound)
    ensures var last := LastFrom(server, limit, 0, bound);
            var r := Meaning(server, limit, last);
            r.Combined? ==>
              && r.size == |r.records|
              && (if LimitMet(server, limit, last) then
                    |r.records| == limit && forall n: nat | n > last :: limit <= |Stream(server, 0, n)|
                                              && r.records == Stream(server, 0, n)[..limit]
                  else EndsAt(server, last) && r.records == Stream(server, 0, last + 1))
  {
    var last := LastFrom(server, limit, 0, bound);
    WhyItStopped(server, limit, bound);
    forall n: nat | n > last && LimitMet(server, limit, last)
      ensures limit <= |Stream(server, 0, n)| && Stream(server, 0, n)[..limit] == Stream(server, 0, last + 1)[..limit]
    {
      StreamSplits(server, 0, last + 1, n);
    }
  }

  /** Against a stream that ends, the records are the first `limit` of the whole
      of it, or all of it. */
  lemma WholeStreamOrLimit(server: Server, limit: int, bound: nat, e: nat)
    requires StopsAt(server, limit, bound) && EndsAt(server, e)
    ensures var whole := Stream(server, 0, e + 1);
            var r := Meaning(server, limit, LastFrom(server, limit, 0, bound));
            r.Combined? && r.records == if limit > 0 then whole[..Min(limit, |whole|)] else whole
  {
    var last := LastFrom(server, limit, 0, bound);
    WhyItStopped(server, limit, bound);
    RecordsArePrefix(server, limit, bound);
    if last < e {
      assert HasMore(ReplyAt(server, last));
    }
  }

  /** `done` is reported exactly when the server said so at the end of its stream
      and nothing was cut off; the records are then the whole stream. */
  lemma DoneMeansWhole(server: Server, limit: int, bound: nat)
    requires StopsAt(server, limit, bound)
    ensures var last := LastFrom(server, limit, 0, bound);
            var r := Meaning(server, limit, last);
            r.Combined? ==>
              && (r.done <==> EndsAt(server, last) && ReplyAt(server, last).done
                              && (limit <= 0 || |Stream(server, 0, last + 1)| <= limit))
              && (r.done ==> r.records == Stream(server, 0, last + 1))
  {
    NoFetchPastLimit(server, limit, bound);
  }

  /** When a locator is reported nothing was cut off: however far the stream goes
      on, the records followed by what is behind that locator are the stream.
      When rows were cut off neither a locator nor `done` is reported. */
  lemma LocatorResumes(server: Server, limit: int, bound: nat)
    requires StopsAt(server, limit, bound)
    ensures var last := LastFrom(server, limit, 0, bound);
            var r := Meaning(server, limit, last);
            var fetched := Stream(server, 0, last + 1);
            r.Combined? ==>
              && (r.locator.Some? ==>
                    && r.locator.value == LocatorFor(server, last + 1)
                    && forall n: nat | n > last :: r.records + Stream(server, last + 1, n) == Stream(server, 0, n))
              && (r.records != fetched <==> |fetched| > limit > 0)
              && (r.records != fetched ==> r.locator.None? && !r.done)
              && (r.locator.Some? <==> ReplyAt(server, last).locator != "" && r.records == fetched)
  {
    var last := LastFrom(server, limit, 0, bound);
    forall n: nat | n > last
      ensures Stream(server, 0, last + 1) + Stream(server, last + 1, n) == Stream(server, 0, n)
    {
      StreamSplits(server, 0, last + 1, n);
    }
  }

  /** A failing request discards everything fetched before it. */
  lemma FailureReportsNothing(server: Server, limit: int, bound: nat)
    requires StopsAt(server, limit, bound)
    ensures Meaning(server, limit, LastFrom(server, limit, 0, bound)) == Error <==>
            exists i: nat ::
              i <= bound && ReplyAt(server, i).Broken? && forall j | 0 <= j < i :: !StopsAt(server, limit, j)
  {
    LastIsFirstStop(server, limit, 0, bound);
    var last := LastFrom(server, limit, 0, bound);
    forall i: nat | i <= bound && ReplyAt(server, i).Broken? && forall j | 0 <= j < i :: !StopsAt(server, limit, j)
      ensures i == last
    {
      assert StopsAt(server, limit, i);
    }
  }
}
