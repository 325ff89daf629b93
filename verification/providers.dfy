/**
 * What the core reads from a provider: the retry classifier, the array a
 * send returns, and the array a delivery-status check returns. The HTTP
 * call and the JSON decoding are not modelled; the HTTP code and the
 * decoded body are inputs.
 */
module Providers {
  import opened Options
  import Php

  /**
   * The shared retry classifier. Only client errors other than 429 are
   * final; every other code, unknown ones included, is retried.
   */
  function ShouldRetry(httpCode: int): (r: bool)
    ensures r <==> !(400 <= httpCode < 500 && httpCode != 429)
  {
    if httpCode == 429 then true
    else if httpCode >= 400 && httpCode < 500 then false
    else if httpCode >= 500 || httpCode == 0 || (httpCode >= 300 && httpCode < 400) then true
    else true
  }

  /** The classifier on the codes the worker meets most. */
  lemma ShouldRetryTable()
    ensures ShouldRetry(429) && ShouldRetry(500) && ShouldRetry(503)
    ensures ShouldRetry(0) && ShouldRetry(301) && ShouldRetry(200) && ShouldRetry(201)
    ensures ShouldRetry(-1)
    ensures !ShouldRetry(400) && !ShouldRetry(404) && !ShouldRetry(499)
  {
  }

  /** The keys of a decoded send response body that the result reads. */
  datatype SendResponse = SendResponse(messageId: Option<string>, message: Option<string>, error: Option<string>)

  /**
   * The array `send` returns; an absent key is `None`. `success` is a PHP
   * value because a provider may pass a decoded JSON value through.
   */
  datatype SendResult = SendResult(
    success: Php.Value,
    messageId: Option<string>,
    provider: Option<string>,
    errors: Option<string>,
    error: Option<string>,
    message: Option<string>,
    httpCode: int)

  const CreatedCode := 201
  const OkCode := 200
  const UnknownMessageId := "unknown"

  /** The result array both HTTP providers build after a send. */
  function SendResultOf(providerName: string, httpCode: int, body: SendResponse): (r: SendResult)
    ensures r.success == Php.Bool(httpCode == CreatedCode)
    ensures Php.Truthy(r.success) <==> httpCode == CreatedCode
    ensures r.messageId.Some?
    ensures body.messageId.Some? ==> r.messageId == body.messageId
    ensures body.messageId.None? ==> r.messageId == Some(UnknownMessageId)
    ensures r.provider == Some(providerName)
    ensures body.message.Some? ==> r.errors == body.message
    ensures body.message.None? ==> r.errors == body.error
    ensures r.error.None? && r.message.None?
    ensures r.httpCode == httpCode
  {
    SendResult(
      Php.Bool(httpCode == CreatedCode),
      Some(body.messageId.GetOr(UnknownMessageId)),
      Some(providerName),
      body.message.OrElse(body.error),
      None,
      None,
      httpCode)
  }

  function MockSendResult(httpCode: int, body: SendResponse): (r: SendResult)
    ensures Php.Truthy(r.success) <==> httpCode == CreatedCode
    ensures r.provider == Some("mock") && r.messageId.Some?
  {
    SendResultOf("mock", httpCode, body)
  }

  function BrevoSendResult(httpCode: int, body: SendResponse): (r: SendResult)
    ensures Php.Truthy(r.success) <==> httpCode == CreatedCode
    ensures r.provider == Some("brevo") && r.messageId.Some?
  {
    SendResultOf("brevo", httpCode, body)
  }

  /** The two providers build the same result but for the provider name. */
  lemma SendResultsDifferOnlyInName(httpCode: int, body: SendResponse)
    ensures MockSendResult(httpCode, body) == BrevoSendResult(httpCode, body).(provider := Some("mock"))
  {
  }

  /** One entry of the `events` list of a status response. */
  datatype EventRecord = EventRecord(name: Option<string>, reason: Option<string>)

  /** The array `checkDeliveryStatus` returns; an absent key is `None`. */
  datatype DeliveryResult = DeliveryResult(
    success: bool,
    event: Option<string>,
    reason: Option<string>,
    error: Option<string>)

  const NotSupported := "Delivery status checking not supported by this provider"
  const ApiRequestFailed := "API request failed"
  const NoReasonProvided := "no reason provided"
  const MockNoEvent := "Mock does not support delivery status checks via API"
  const BrevoNoEvent := "Brevo does not support delivery status checks via API"

  /** The inherited check for providers that do not query status. */
  function DefaultCheckDeliveryStatus(handle: string): (r: DeliveryResult)
    ensures !r.success && r.event.None?
    ensures r.error == Some(NotSupported)
  {
    DeliveryResult(false, None, None, Some(NotSupported))
  }

  /** The event names that settle a job. */
  predicate IsTerminalEvent(name: Option<string>)
  {
    || name == Some("delivered")
    || name == Some("blocked")
    || name == Some("hardBounces")
    || name == Some("softBounces")
  }

  /** A found event, with its reason defaulted. */
  function Reported(e: EventRecord): DeliveryResult
  {
    DeliveryResult(true, e.name, Some(e.reason.GetOr(NoReasonProvided)), None)
  }

  /** Mock: the first terminal event; other events are skipped. */
  function MockProcessResponse(events: seq<EventRecord>): (r: DeliveryResult)
    ensures r.success && r.error.None?
    ensures r.event.None? <==> forall i :: 0 <= i < |events| ==> !IsTerminalEvent(events[i].name)
    ensures r.event.None? ==> r.reason == Some(MockNoEvent)
    ensures forall i :: 0 <= i < |events| && IsTerminalEvent(events[i].name) &&
                        (forall j :: 0 <= j < i ==> !IsTerminalEvent(events[j].name)) ==>
                        r == Reported(events[i])
    decreases |events|
  {
    if events == [] then DeliveryResult(true, None, Some(MockNoEvent), None)
    else if IsTerminalEvent(events[0].name) then Reported(events[0])
    else
      var r := MockProcessResponse(events[1..]);
      assert forall i :: 1 <= i < |events| ==> events[i] == events[1..][i - 1];
      r
  }

  /** Whatever event the mock reports is a terminal one. */
  lemma {:induction false} MockReportsOnlyTerminal(events: seq<EventRecord>)
    ensures MockProcessResponse(events).event.Some? ==> IsTerminalEvent(MockProcessResponse(events).event)
    decreases |events|
  {
    if events != [] && !IsTerminalEvent(events[0].name) {
      MockReportsOnlyTerminal(events[1..]);
    }
  }

  /** Brevo: the first event, whatever its name. */
  function BrevoProcessResponse(events: seq<EventRecord>): (r: DeliveryResult)
    ensures r.success && r.error.None?
    ensures |events| > 0 ==> r == Reported(events[0])
    ensures |events| == 0 ==> r.event.None? && r.reason == Some(BrevoNoEvent)
  {
    if |events| > 0 then Reported(events[0])
    else DeliveryResult(true, None, Some(BrevoNoEvent), None)
  }

  /** A non-200 status response is a failed query; a 200 is processed. */
  function CheckAfterHttp(httpCode: int, processed: DeliveryResult): (r: DeliveryResult)
    ensures r.success <==> httpCode == OkCode && processed.success
    ensures httpCode != OkCode ==> r.event.None? && r.error == Some(ApiRequestFailed)
    ensures httpCode == OkCode ==> r == processed
  {
    if httpCode != OkCode then DeliveryResult(false, None, None, Some(ApiRequestFailed))
    else processed
  }

  function MockCheckDeliveryStatus(httpCode: int, events: seq<EventRecord>): (r: DeliveryResult)
    ensures r.success <==> httpCode == OkCode
    ensures httpCode != OkCode ==> r.error == Some(ApiRequestFailed)
  {
    CheckAfterHttp(httpCode, MockProcessResponse(events))
  }

  function BrevoCheckDeliveryStatus(httpCode: int, events: seq<EventRecord>): (r: DeliveryResult)
    ensures r.success <==> httpCode == OkCode
    ensures httpCode != OkCode ==> r.error == Some(ApiRequestFailed)
  {
    CheckAfterHttp(httpCode, BrevoProcessResponse(events))
  }

  /** When the first event is terminal, the two providers report the same. */
  lemma ProvidersAgreeOnTerminalHead(events: seq<EventRecord>)
    requires |events| > 0 && IsTerminalEvent(events[0].name)
    ensures MockProcessResponse(events) == BrevoProcessResponse(events)
  {
  }

  /**
   * When the first event is not terminal but a later one is, the two
   * providers disagree: Brevo reports the leading event, the mock skips to
   * a terminal one.
   */
  lemma BrevoHidesLaterDelivery(events: seq<EventRecord>, i: int)
    requires 0 < i < |events| && IsTerminalEvent(events[i].name)
    requires !IsTerminalEvent(events[0].name)
    ensures BrevoProcessResponse(events).event == events[0].name
    ensures IsTerminalEvent(MockProcessResponse(events).event)
    ensures MockProcessResponse(events) != BrevoProcessResponse(events)
  {
    MockReportsOnlyTerminal(events);
  }

  /** The opened-then-delivered pair: Brevo says opened, the mock says delivered. */
  lemma OpenedThenDelivered()
    ensures var events := [EventRecord(Some("opened"), None), EventRecord(Some("delivered"), None)];
      && BrevoProcessResponse(events).event == Some("opened")
      && MockProcessResponse(events).event == Some("delivered")
  {
    var events := [EventRecord(Some("opened"), None), EventRecord(Some("delivered"), None)];
    assert !IsTerminalEvent(events[0].name) && IsTerminalEvent(events[1].name);
  }
}
