/** The shared retry helper and the error report it builds. */
module Http {
  import opened Basics
  import opened Headers

  const MAX_INT: int := 0x7FFF_FFFF_FFFF_FFFF
  const MIN_INT: int := -0x8000_0000_0000_0000

  /** Go's int on the platforms the connectors are built for. */
  newtype Int64 = x: int | MIN_INT <= x <= MAX_INT

  /** x++ on a 64-bit integer. */
  function Next(x: Int64): Int64 {
    if x as int == MAX_INT then MIN_INT as Int64 else x + 1
  }

  datatype Metadata = Metadata(
    topic: string,
    responseTopic: string,
    errorTopic: string,
    httpEndpoint: string,
    maxRetries: Int64,
    contentType: string,
    sourceName: string)

  /** A response; reading a body that is None fails. */
  datatype Response = Response(status: int, body: Option<string>)

  /** The two results of one client call. */
  datatype Attempt = Attempt(failed: bool, resp: Option<Response>)

  datatype Request = Request(endpoint: string, message: string, headers: Header)

  predicate Succeeds(a: Attempt) {
    !a.failed && a.resp.Some? && 200 <= a.resp.value.status < 300
  }

  /** The guard after the loop: the response is not reported as a failure. */
  predicate Accepted(r: Option<Response>) {
    r.Some? && 200 <= r.value.status <= 300
  }

  /** net/http's promise: a failed call carries a response only when a redirect was refused. */
  predicate RefusedRedirect(a: Attempt) {
    a.failed ==> a.resp.None? || 301 <= a.resp.value.status <= 308
  }

  datatype ErrorString =
    | Blank
    | EmptyResponse(endpoint: string, source: string)
    | ReturnedFailure(status: int, endpoint: string, source: string)

  datatype Details = Details(
    message: string,
    endpoint: string,
    headers: Header,
    responseBody: string,
    statusCode: int,
    errorString: ErrorString)

  datatype Failure =
    | BadRequest(endpoint: string, source: string)
    | Encoded(details: Details)
    | EncodingFailed(endpoint: string, source: string)
    | BodyUnreadable(endpoint: string, source: string)

  /** The error reported for the response left over when every attempt was used up. */
  function FailureFor(message: string, headers: Header, data: Metadata, last: Option<Response>,
                      encodes: Details -> bool): Failure
    requires !Accepted(last)
  {
    var base := Details(message, data.httpEndpoint, headers, "", 500, Blank);
    match last
    case None =>
      var d := base.(errorString := EmptyResponse(data.httpEndpoint, data.sourceName));
      if encodes(d) then Encoded(d) else EncodingFailed(data.httpEndpoint, data.sourceName)
    case Some(r) =>
      if r.body.None? then BodyUnreadable(data.httpEndpoint, data.sourceName)
      else
        var d := base.(responseBody := r.body.value, statusCode := r.status,
        errorString := ReturnedFailure(r.status, data.httpEndpoint, data.sourceName));
        if encodes(d) then Encoded(d) else EncodingFailed(data.httpEndpoint, data.sourceName)
  }

  /** The report under construction; UpdateResponseDetails fills it in through the pointer. */
  class FunctionErrorDetails {
    var message: string
    var endpoint: string
    var headers: Header
    var responseBody: string
    var statusCode: int
    var errorString: ErrorString

    function Value(): Details
      reads this
    {
      Details(message, endpoint, headers, responseBody, statusCode, errorString)
    }

    constructor (message: string, endpoint: string, headers: Header)
      ensures Value() == Details(message, endpoint, headers, "", 500, Blank)
    {
      this.message, this.endpoint, this.headers := message, endpoint, headers;
      responseBody, statusCode, errorString := "", 500, Blank;
    }

    /** No error is returned exactly for the statuses the caller's guard lets through,
        and then the report is left alone. */
    method UpdateResponseDetails(resp: Option<Response>, data: Metadata, encodes: Details -> bool)
      returns (err: Option<Failure>)
      modifies this
      ensures err.None? <==> Accepted(resp)
      ensures Accepted(resp) || (resp.Some? && resp.value.body.None?) ==> Value() == old(Value())
      ensures message == old(message) && endpoint == old(endpoint) && headers == old(headers)
      ensures resp.None? ==> statusCode == old(statusCode) && responseBody == old(responseBody)
      ensures err.None? <==> resp.Some? && 200 <= resp.value.status <= 300
      ensures err.Some? && resp.Some? && resp.value.body.Some? ==>
                && responseBody == resp.value.body.value && statusCode == resp.value.status
                && errorString == ReturnedFailure(resp.value.status, data.httpEndpoint, data.sourceName)
      ensures !Accepted(resp) && old(Value()) == Details(message, data.httpEndpoint, headers, "", 500, Blank)
              ==> err == Some(FailureFor(message, headers, data, resp, encodes))
    {
      if resp.None? {
        errorString := EmptyResponse(data.httpEndpoint, data.sourceName);
        if !encodes(Value()) {
          return Some(EncodingFailed(data.httpEndpoint, data.sourceName));
        }
        return Some(Encoded(Value()));
      }
      var status := resp.value.status;
      if status < 200 || status > 300 {
        if resp.value.body.None? {
          return Some(BodyUnreadable(data.httpEndpoint, data.sourceName));
        }
        responseBody := resp.value.body.value;
        statusCode := status;
        errorString := ReturnedFailure(status, data.httpEndpoint, data.sourceName);
        if !encodes(Value()) {
          return Some(EncodingFailed(data.httpEndpoint, data.sourceName));
        }
        return Some(Encoded(Value()));
      }
      return None;
    }
  }

  /** The HTTP client and the endpoint behind it: call number n is answered by replies(n). */
  class Client {
    const replies: nat -> Attempt
    const parses: string -> bool
    const encodes: Details -> bool
    var sent: seq<Request>

    constructor (replies: nat -> Attempt, parses: string -> bool, encodes: Details -> bool)
      ensures this.replies == replies && this.parses == parses && this.encodes == encodes
      ensures sent == []
    {
      this.replies, this.parses, this.encodes, sent := replies, parses, encodes, [];
    }

    method Do(req: Request) returns (failed: bool, resp: Option<Response>)
      modifies this
      ensures sent == old(sent) + [req]
      ensures Attempt(failed, resp) == replies(|old(sent)|)
    {
      var a := replies(|sent|);
      sent := sent + [req];
      return a.failed, a.resp;
    }
  }

  /** The loop's own budget of requests when nothing succeeds. */
  function Budget(maxRetries: Int64): nat {
    if maxRetries < 0 then 0 else maxRetries as int + 1
  }

  /** The attempt counter after k rounds, wrapping like the machine integer. */
  function Counter(k: nat): Int64 {
    (((k - MIN_INT) % 0x1_0000_0000_0000_0000) + MIN_INT) as Int64
  }

  lemma CounterSteps(k: nat)
    ensures Counter(0) == 0
    ensures Counter(k + 1) == Next(Counter(k))
    ensures k <= MAX_INT ==> Counter(k) as int == k
  {
  }

  ghost predicate SucceedsAt(replies: nat -> Attempt, n: nat) {
    Succeeds(replies(n))
  }

  /** The loop is still going after k rounds: the guard held at the top of every round so
      far and no round returned. */
  ghost predicate StillLooping(replies: nat -> Attempt, from: nat, valid: bool, maxRetries: Int64, k: nat) {
    && (forall j: nat :: j <= k ==> Counter(j) <= maxRetries)
    && (k > 0 ==> valid)
    && (forall n: nat :: from <= n < from + k ==> !SucceedsAt(replies, n))
  }

  ghost predicate CanStop(replies: nat -> Attempt, from: nat, valid: bool, maxRetries: Int64) {
    maxRetries as int < MAX_INT || !valid || exists n: nat :: from <= n && SucceedsAt(replies, n)
  }

  /** The loop leaves after finitely many rounds exactly when MaxRetries is below the
      largest int, or the request cannot be built, or some attempt succeeds: with the
      largest int the counter wraps and the guard never fails. */
  lemma StopsExactlyWhen(replies: nat -> Attempt, from: nat, valid: bool, maxRetries: Int64)
    ensures (exists k: nat :: !StillLooping(replies, from, valid, maxRetries, k))
            <==> CanStop(replies, from, valid, maxRetries)
  {
    if maxRetries as int < MAX_INT {
      var k := Budget(maxRetries);
      CounterSteps(k);
      assert Counter(k) > maxRetries;
      assert !StillLooping(replies, from, valid, maxRetries, k);
    } else if !valid {
      assert !StillLooping(replies, from, valid, maxRetries, 1);
    } else if n: nat :| from <= n && SucceedsAt(replies, n) {
      assert !StillLooping(replies, from, valid, maxRetries, n - from + 1);
    } else {
      forall k: nat ensures StillLooping(replies, from, valid, maxRetries, k) {
      }
    }
  }

  /** With the largest MaxRetries and an endpoint that never succeeds the helper never returns. */
  lemma LargestMaxRetriesNeverReturns(k: nat)
    ensures StillLooping(_ => Attempt(true, None), 0, true, MAX_INT as Int64, k)
  {
  }

  ghost predicate Repeats(reqs: seq<Request>, endpoint: string, message: string, headers: Header) {
    forall i :: 0 <= i < |reqs| ==>
      reqs[i].endpoint == endpoint && reqs[i].message == message && CopyOf(reqs[i].headers, headers)
  }

  ghost predicate NoneSucceeds(replies: nat -> Attempt, from: nat, to: nat) {
    forall n: nat :: from <= n < to ==> !SucceedsAt(replies, n)
  }

  /** The response left in hand after the requests numbered from..to. */
  function Leftover(replies: nat -> Attempt, from: nat, to: nat): Option<Response>
    requires from <= to
  {
    if from == to then None else replies(to - 1).resp
  }

  /** The requests numbered from..to are those of one call that gave back resp or err. */
  ghost predicate Handled(replies: nat -> Attempt, from: nat, to: nat, valid: bool, encodes: Details -> bool,
                          message: string, headers: Header, data: Metadata,
                          resp: Option<Response>, err: Option<Failure>)
    requires from <= to
  {
    var last := Leftover(replies, from, to);
    if data.maxRetries >= 0 && !valid then
      to == from && resp == None && err == Some(BadRequest(data.httpEndpoint, data.sourceName))
    else if to > from && SucceedsAt(replies, to - 1) then
      && NoneSucceeds(replies, from, to - 1)
      && resp == last && err == None
      && (data.maxRetries as int < MAX_INT ==> to - from <= Budget(data.maxRetries))
    else
      && NoneSucceeds(replies, from, to)
      && data.maxRetries as int < MAX_INT && to - from == Budget(data.maxRetries)
      && (if Accepted(last) then resp == last && err == None
          else resp == None && err == Some(FailureFor(message, headers, data, last, encodes)))
  }

  lemma HandledBySuccess(replies: nat -> Attempt, from: nat, to: nat, encodes: Details -> bool,
                         message: string, headers: Header, data: Metadata, resp: Option<Response>)
    requires from < to && SucceedsAt(replies, to - 1) && NoneSucceeds(replies, from, to - 1)
    requires resp == replies(to - 1).resp
    requires data.maxRetries as int < MAX_INT ==> to - from <= Budget(data.maxRetries)
    ensures Handled(replies, from, to, true, encodes, message, headers, data, resp, None)
  {
  }

  lemma HandledByExhaustion(replies: nat -> Attempt, from: nat, to: nat, valid: bool, encodes: Details -> bool,
                            message: string, headers: Header, data: Metadata,
                            resp: Option<Response>, err: Option<Failure>)
    requires from <= to && NoneSucceeds(replies, from, to)
    requires valid || data.maxRetries < 0
    requires data.maxRetries as int < MAX_INT && to - from == Budget(data.maxRetries)
    requires var last := Leftover(replies, from, to);
             if Accepted(last) then resp == last && err == None
             else resp == None && err == Some(FailureFor(message, headers, data, last, encodes))
    ensures Handled(replies, from, to, valid, encodes, message, headers, data, resp, err)
  {
    assert to > from ==> !SucceedsAt(replies, to - 1);
  }

  /** The statements after the loop: an unaccepted response becomes an error report. */
  method Conclude(message: string, headers: Header, data: Metadata, last: Option<Response>, encodes: Details -> bool)
    returns (resp: Option<Response>, err: Option<Failure>)
    ensures if Accepted(last) then resp == last && err == None
            else resp == None && err == Some(FailureFor(message, headers, data, last, encodes))
  {
    if last.None? || last.value.status < 200 || last.value.status > 300 {
      var report := new FunctionErrorDetails(message, data.httpEndpoint, headers);
      err := report.UpdateResponseDetails(last, data, encodes);
      if err.Some? {
        return None, err;
      }
    }
    return last, None;
  }

  /** How the loop was left: with the response of a success, because the request cannot be
      built, or with the last response in hand when the attempts were used up. */
  datatype Leaving = Success | Unbuildable | UsedUp

  ghost predicate LeftLoop(how: Leaving, replies: nat -> Attempt, from: nat, made: nat, valid: bool,
                           maxRetries: Int64, resp: Option<Response>)
  {
    match how
    case Unbuildable => !valid && maxRetries >= 0 && made == 0
    case Success =>
      && valid && made > 0 && SucceedsAt(replies, from + made - 1) && NoneSucceeds(replies, from, from + made - 1)
      && resp == replies(from + made - 1).resp
      && (maxRetries as int < MAX_INT ==> made <= Budget(maxRetries))
    case UsedUp =>
      && (valid || maxRetries < 0) && maxRetries as int < MAX_INT && made == Budget(maxRetries)
      && NoneSucceeds(replies, from, from + made) && resp == Leftover(replies, from, from + made)
  }

  /** The loop at the top of a round: what it has sent was all in vain, it holds the last
      response, and it can go on for good only with the largest MaxRetries. stop is a success
      to come, if that is what ends it. */
  ghost predicate Looping(replies: nat -> Attempt, from: nat, valid: bool, maxRetries: Int64, stop: nat,
                          made: nat, attempt: Int64, resp: Option<Response>)
  {
    && attempt == Counter(made)
    && (made > 0 ==> valid)
    && NoneSucceeds(replies, from, from + made)
    && resp == Leftover(replies, from, from + made)
    && (if maxRetries as int < MAX_INT then made <= Budget(maxRetries)
        else valid ==> from + made <= stop && SucceedsAt(replies, stop))
  }

  function RoundsLeft(from: nat, made: nat, maxRetries: Int64, stop: nat): int {
    if maxRetries as int < MAX_INT then Budget(maxRetries) - made else stop + 1 - from - made
  }

  lemma LoopStarts(replies: nat -> Attempt, from: nat, valid: bool, maxRetries: Int64) returns (stop: nat)
    requires CanStop(replies, from, valid, maxRetries)
    ensures Looping(replies, from, valid, maxRetries, stop, 0, 0, None)
  {
    CounterSteps(0);
    stop := from;
    if maxRetries as int == MAX_INT && valid {
      stop :| from <= stop && SucceedsAt(replies, stop);
    }
  }

  lemma LoopGoesOn(replies: nat -> Attempt, from: nat, maxRetries: Int64, stop: nat,
                   made: nat, attempt: Int64, resp: Option<Response>)
    requires Looping(replies, from, true, maxRetries, stop, made, attempt, resp) && attempt <= maxRetries
    ensures RoundsLeft(from, made, maxRetries, stop) > 0
    ensures if SucceedsAt(replies, from + made)
            then LeftLoop(Success, replies, from, made + 1, true, maxRetries, replies(from + made).resp)
            else Looping(replies, from, true, maxRetries, stop, made + 1, Next(attempt), replies(from + made).resp)
  {
    CounterSteps(made);
  }

  lemma LoopEnds(replies: nat -> Attempt, from: nat, valid: bool, maxRetries: Int64, stop: nat,
                 made: nat, attempt: Int64, resp: Option<Response>)
    requires Looping(replies, from, valid, maxRetries, stop, made, attempt, resp)
    requires !valid || attempt > maxRetries
    ensures if attempt > maxRetries then LeftLoop(UsedUp, replies, from, made, valid, maxRetries, resp)
            else LeftLoop(Unbuildable, replies, from, made, valid, maxRetries, None)
  {
    CounterSteps(made);
  }

  /** One round's request: built anew, with a copy of the headers. */
  method Send(message: string, headers: Header, data: Metadata, client: Client)
    returns (failed: bool, resp: Option<Response>, ghost req: Request)
    modifies client
    ensures client.sent == old(client.sent) + [req]
    ensures Repeats([req], data.httpEndpoint, message, headers)
    ensures resp == client.replies(|old(client.sent)|).resp
    ensures SucceedsAt(client.replies, |old(client.sent)|) <==> Succeeds(Attempt(failed, resp))
  {
    var copy := CopyHeaders(headers);
    var r := Request(data.httpEndpoint, message, copy);
    req := r;
    failed, resp := client.Do(r);
  }

  lemma RepeatsSnoc(sent: seq<Request>, reqs: seq<Request>, req: Request,
                    endpoint: string, message: string, headers: Header)
    requires Repeats(reqs, endpoint, message, headers) && Repeats([req], endpoint, message, headers)
    ensures Repeats(reqs + [req], endpoint, message, headers)
    ensures sent + (reqs + [req]) == sent + reqs + [req]
  {
    assert [req][0] == req;
  }

  /** The retry loop. */
  method Retry(message: string, headers: Header, data: Metadata, client: Client)
    returns (how: Leaving, resp: Option<Response>, ghost made: seq<Request>)
    requires CanStop(client.replies, |client.sent|, client.parses(data.httpEndpoint), data.maxRetries)
    modifies client
    ensures client.sent == old(client.sent) + made
    ensures Repeats(made, data.httpEndpoint, message, headers)
    ensures LeftLoop(how, client.replies, |old(client.sent)|, |made|, client.parses(data.httpEndpoint),
                     data.maxRetries, resp)
  {
    ghost var start := |client.sent|;
    var valid := client.parses(data.httpEndpoint);
    ghost var stop := LoopStarts(client.replies, start, valid, data.maxRetries);
    resp := None;
    var attempt: Int64 := 0;
    made := [];
    while attempt <= data.maxRetries
      invariant client.sent == old(client.sent) + made
      invariant Repeats(made, data.httpEndpoint, message, headers)
      invariant Looping(client.replies, start, valid, data.maxRetries, stop, |made|, attempt, resp)
      decreases RoundsLeft(start, |made|, data.maxRetries, stop)
    {
      if !valid {
        LoopEnds(client.replies, start, valid, data.maxRetries, stop, |made|, attempt, resp);
        return Unbuildable, None, made;
      }
      LoopGoesOn(client.replies, start, data.maxRetries, stop, |made|, attempt, resp);
      var failed;
      ghost var req;
      failed, resp, req := Send(message, headers, data, client);
      RepeatsSnoc(old(client.sent), made, req, data.httpEndpoint, message, headers);
      made := made + [req];
      if !failed && resp.Some? && resp.value.status >= 200 && resp.value.status < 300 {
        return Success, resp, made;
      }
      attempt := Next(attempt);
    }
    LoopEnds(client.replies, start, valid, data.maxRetries, stop, |made|, attempt, resp);
    return UsedUp, resp, made;
  }

  /** Sends the message until a response is in the 200s or the attempts are used up. */
  method HandleHTTPRequest(message: string, headers: Header, data: Metadata, client: Client)
    returns (resp: Option<Response>, err: Option<Failure>, ghost made: seq<Request>)
    requires CanStop(client.replies, |client.sent|, client.parses(data.httpEndpoint), data.maxRetries)
    modifies client
    ensures client.sent == old(client.sent) + made
    ensures forall i :: 0 <= i < |made| ==>
              && made[i].endpoint == data.httpEndpoint && made[i].message == message
              && CopyOf(made[i].headers, headers)
    ensures Handled(client.replies, |old(client.sent)|, |client.sent|, client.parses(data.httpEndpoint),
                    client.encodes, message, headers, data, resp, err)
  {
    ghost var start, valid := |client.sent|, client.parses(data.httpEndpoint);
    var how;
    how, resp, made := Retry(message, headers, data, client);
    match how {
      case Success =>
        HandledBySuccess(client.replies, start, |client.sent|, client.encodes, message, headers, data, resp);
        return resp, None, made;
      case Unbuildable =>
        return None, Some(BadRequest(data.httpEndpoint, data.sourceName)), made;
      case UsedUp =>
        resp, err := Conclude(message, headers, data, resp, client.encodes);
        HandledByExhaustion(client.replies, start, |client.sent|, valid, client.encodes, message, headers, data,
                            resp, err);
    }
  }

  /** When the requests stop. No attempt before the last one was answered in the 200s, with
      no failure of the call; and a call that stops before its attempts are used up, or that
      has no end of them, stops on such an answer, which it returns. */
  lemma StopsAtTheFirst2xx(replies: nat -> Attempt, from: nat, to: nat, valid: bool, encodes: Details -> bool,
                           message: string, headers: Header, data: Metadata,
                           resp: Option<Response>, err: Option<Failure>)
    requires from <= to && Handled(replies, from, to, valid, encodes, message, headers, data, resp, err)
    ensures forall n: nat :: from <= n < to - 1 ==>
              replies(n).failed || replies(n).resp.None? || !(200 <= replies(n).resp.value.status < 300)
    ensures var allowed := if data.maxRetries < 0 then 0 else data.maxRetries as int + 1;
            valid && (to - from < allowed || data.maxRetries as int == MAX_INT) ==>
              && to > from && !replies(to - 1).failed && resp == replies(to - 1).resp && err == None
              && resp.Some? && 200 <= resp.value.status < 300
    ensures data.maxRetries as int < MAX_INT ==>
              to - from <= if data.maxRetries < 0 then 0 else data.maxRetries as int + 1
  {
    forall n: nat | from <= n < to - 1
      ensures replies(n).failed || replies(n).resp.None? || !(200 <= replies(n).resp.value.status < 300)
    {
      assert !SucceedsAt(replies, n);
    }
  }

  /** What the caller gets when there is no response: why, with the message and the headers it
      handed over, and for a response that was refused its own status and body. */
  lemma FailuresAreDescribed(replies: nat -> Attempt, from: nat, to: nat, valid: bool, encodes: Details -> bool,
                             message: string, headers: Header, data: Metadata,
                             resp: Option<Response>, err: Option<Failure>)
    requires from <= to && Handled(replies, from, to, valid, encodes, message, headers, data, resp, err)
    ensures !valid && data.maxRetries >= 0 ==> err == Some(BadRequest(data.httpEndpoint, data.sourceName))
    ensures (valid || data.maxRetries < 0) && (to == from || replies(to - 1).resp.None?) ==>
              var d := Details(message, data.httpEndpoint, headers, "", 500,
                               EmptyResponse(data.httpEndpoint, data.sourceName));
              err == Some(if encodes(d) then Encoded(d) else EncodingFailed(data.httpEndpoint, data.sourceName))
    ensures to > from && replies(to - 1).resp.Some? ==>
              var last := replies(to - 1).resp.value;
              if 200 <= last.status <= 300 then err == None
              else if last.body.None? then err == Some(BodyUnreadable(data.httpEndpoint, data.sourceName))
              else
                var d := Details(message, data.httpEndpoint, headers, last.body.value, last.status,
                                 ReturnedFailure(last.status, data.httpEndpoint, data.sourceName));
                err == Some(if encodes(d) then Encoded(d) else EncodingFailed(data.httpEndpoint, data.sourceName))
  {
  }

  /** A finished call gives back a response or an error, never both and never neither;
      a response exactly when the last attempt was in the 200s or answered with status
      exactly 300 (sections 15.3 and 15.4.1 of RFC 9110). */
  lemma CallOutcome(replies: nat -> Attempt, from: nat, to: nat, valid: bool, encodes: Details -> bool,
                    message: string, headers: Header, data: Metadata,
                    resp: Option<Response>, err: Option<Failure>)
    requires from <= to && Handled(replies, from, to, valid, encodes, message, headers, data, resp, err)
    requires to > from ==> RefusedRedirect(replies(to - 1))
    ensures resp.Some? <==> err.None?
    ensures resp.Some? <==> to > from && var last := replies(to - 1);
                            !last.failed && last.resp.Some? && 200 <= last.resp.value.status <= 300
    ensures to == from <==> data.maxRetries < 0 || !valid
  {
    if to > from {
      assert Succeeds(replies(to - 1)) <==> SucceedsAt(replies, to - 1);
    }
  }

  /** An endpoint that always answers 300 is asked as often as one that always fails, and
      its last answer is then returned as a success. */
  lemma Status300IsRetriedThenReturned(body: Option<string>, encodes: Details -> bool,
                                       message: string, headers: Header, data: Metadata)
    requires 0 <= data.maxRetries as int < MAX_INT
    ensures var answer := Response(300, body);
            Handled(_ => Attempt(false, Some(answer)), 0, data.maxRetries as int + 1, true, encodes,
                    message, headers, data, Some(answer), None)
  {
    var replies: nat -> Attempt := _ => Attempt(false, Some(Response(300, body)));
    assert !SucceedsAt(replies, data.maxRetries as int);
  }

  /** A call is determined by its inputs and the replies: any two finished calls that start
      at the same reply agree on the number of requests and on the result. */
  lemma CallIsDetermined(replies: nat -> Attempt, from: nat, t1: nat, t2: nat, valid: bool, encodes: Details -> bool,
                         message: string, headers: Header, data: Metadata,
                         r1: Option<Response>, e1: Option<Failure>, r2: Option<Response>, e2: Option<Failure>)
    requires from <= t1 && Handled(replies, from, t1, valid, encodes, message, headers, data, r1, e1)
    requires from <= t2 && Handled(replies, from, t2, valid, encodes, message, headers, data, r2, e2)
    ensures t1 == t2 && r1 == r2 && e1 == e2
  {
  }
}
