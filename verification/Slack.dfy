/** Classification of what Slack answered (notifications/slack.py). */
module Slack {
  import opened Common
  import opened LeaseQueue

  /** The Retry-After header, absent, not an integer, or delay-seconds (RFC 9110, section 10.2.3). */
  datatype RetryAfter = Missing | NotANumber | Seconds(n: int)

  /**
   What the worker sees of its POST, and whether Slack received the message, which an error does
   not tell: the answer may have been lost, late, or that of a proxy.
   */
  datatype Reply =
    | RequestError(received: bool)
    | Response(status: int, retryAfter: RetryAfter, bodyIsOk: bool, received: bool)

  function RetryAfterSeconds(h: RetryAfter): int {
    match h
    case Missing => 1
    case NotANumber => 1
    case Seconds(n) => Max(1, Min(n, 3600))
  }

  /** send: Ok when it returns, otherwise the error it raises. */
  function Send(reply: Reply): Result<(), Failure> {
    match reply
    case RequestError(_) => Err(Failure("SLACK_UNAVAILABLE", true, None))
    case Response(status, h, bodyIsOk, _) =>
      if status == 429 then Err(Failure("SLACK_RATE_LIMITED", true, Some(RetryAfterSeconds(h))))
      else if status >= 500 then Err(Failure("SLACK_UNAVAILABLE", true, None))
      else if status >= 400 then Err(Failure("SLACK_REJECTED", false, None))
      else if !bodyIsOk then Err(Failure("SLACK_INVALID_RESPONSE", false, None))
      else Ok(())
  }

  /** Slack holds the message: it says so, or the answer does not reach the worker. */
  predicate Received(reply: Reply) {
    Send(reply).Ok? || reply.received
  }

  const NOT_CONFIGURED := Failure("SLACK_NOT_CONFIGURED", false, None)

  function Distance(a: int, b: int): int {
    Max(a - b, b - a)
  }

  /** Which answers are retried, which carry a delay, and that the delay is within its range. */
  lemma SendOutcomes(reply: Reply)
    ensures Send(reply).Err? && Send(reply).error.retryable <==>
            reply.RequestError? || reply.status == 429 || reply.status >= 500
    ensures Send(reply).Ok? <==> reply.Response? && reply.status < 400 && reply.bodyIsOk
    ensures Send(reply).Err? ==> RetryAfterInRange(Send(reply).error)
    ensures Send(reply).Err? && Send(reply).error.retryAfter.Some? <==> reply.Response? && reply.status == 429
    ensures Send(reply).Err? ==>
              Send(reply).error.code ==
                if reply.RequestError? || (reply.status != 429 && reply.status >= 500) then "SLACK_UNAVAILABLE"
                else if reply.status == 429 then "SLACK_RATE_LIMITED"
                else if reply.status >= 400 then "SLACK_REJECTED"
                else "SLACK_INVALID_RESPONSE"
    ensures reply.Response? && reply.status == 429 && reply.retryAfter.Seconds? ==>
              (Send(reply).error.retryAfter == Some(reply.retryAfter.n) <==> 1 <= reply.retryAfter.n <= 3600)
              && forall m | 1 <= m <= 3600 ::
                   Distance(Send(reply).error.retryAfter.value, reply.retryAfter.n) <= Distance(m, reply.retryAfter.n)
    ensures reply.Response? && reply.status == 429 && !reply.retryAfter.Seconds? ==>
              Send(reply).error.retryAfter == Some(1)
  {
  }
}
