/**
 * The error path of `OnMessage` (StateFlux/StateFlux/ServiceBehavior.cs): decoding and handling
 * run inside one try; the reply, when the handler returned one, is sent first, and a log line
 * then looks the sender up again. The catch logs (a further lookup) and sends one
 * `ServerErrorMessage`.
 *
 * Both log lines look the sender up. A lookup either throws every time or never in a given state
 * (one that throws changes nothing), so whether it throws is one flag, `logThrows`.
 */
module Dispatch {
  import opened Wrappers
  import opened Model
  import opened Messages
  import opened Service
  import Repository

  /**
   * What the caller receives, as the code is written: the handler's reply is sent before the log
   * line, so it always goes out; the error report goes out only when the catch's own log line
   * does not throw, because that line comes before the send.
   */
  function Sends(outcome: Result<Option<Message>>, logThrows: bool): (ms: seq<Message>)
    ensures |ms| <= 1
    ensures outcome.Success? && outcome.value.Some? ==> ms == [outcome.value.value]
    ensures outcome.Success? && outcome.value.None? ==> ms == []
    ensures outcome.Failure? ==> (ms != [] <==> !logThrows)
    ensures !logThrows ==> ms == Replies(outcome)
  {
    match outcome
    case Success(reply) => if reply.Some? then [reply.value] else []
    case Failure(e) => if logThrows then [] else [ServerErrorMessage(ErrorText(e))]
  }

  /**
   * While every active player has session data the lookup cannot throw, so every failure reaches
   * the caller as exactly one error report carrying the (inner) exception's message: the sends
   * are `Replies`, the intended reply rule.
   */
  lemma SessionedSendsReplies(ps: seq<Player>, cookie: Option<string>, outcome: Result<Option<Message>>)
    requires Sessioned(ps)
    ensures Sends(outcome, FindActive(ps, cookie).Failure?) == Replies(outcome)
    ensures outcome.Failure? ==>
      Sends(outcome, FindActive(ps, cookie).Failure?) == [ServerErrorMessage(ErrorText(outcome.error))]
  {
    SessionedLookupSucceeds(ps, cookie);
  }
}
