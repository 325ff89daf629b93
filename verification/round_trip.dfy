/**
 * The mock provider's client and endpoint together, seen from the workers'
 * reconciliation switch: a row the endpoint accepted is reported delivered
 * when it is queried by its idempotency key, and is never resolved when it
 * is queried by the message id the endpoint returned. The second pairing
 * is hypothetical for the `src/` worker as written: it builds its provider
 * from the factory, which has no mock case.
 */
module RoundTrip {
  import opened Options
  import opened Store
  import opened Providers
  import opened Worker
  import opened MockApi

  /** What the mock client reads back from one endpoint response. */
  function MockCheckVia(resp: Response): (r: DeliveryResult)
    ensures r.success <==> resp.code == OkCode
  {
    MockCheckDeliveryStatus(resp.code, resp.events)
  }

  /**
   * Accepted, then queried by idempotency key: with the status table
   * mapping the stored status id to `delivered`, the switch marks the row
   * delivered.
   */
  lemma QueryByKeyDelivers(emails: map<string, ProviderEmail>, statusCodes: map<int, string>,
                           key: string, stamp: Stamp)
    requires KeyPresent(Some(key)) && key !in emails
    requires DeliveredStatusId in statusCodes && statusCodes[DeliveredStatusId] == "delivered"
    ensures var posted := Serve(emails, statusCodes, Post(key), stamp);
      var got := Serve(posted.emails, statusCodes, Get(key), stamp);
      EventOutcome(MockCheckVia(got.response)) == Some(MarkDelivered)
  {
    PostThenGet(emails, statusCodes, key, stamp);
    var posted := Serve(emails, statusCodes, Post(key), stamp);
    var got := Serve(posted.emails, statusCodes, Get(key), stamp);
    var events := got.response.events;
    assert IsTerminalEvent(events[0].name);
  }

  /**
   * Queried instead by the message id it answered, the endpoint finds no
   * row (message ids are not keys), the query fails and the switch decides
   * nothing: the row stays SENT until the SENT sweep fails it.
   */
  lemma QueryByMessageIdResolvesNothing(emails: map<string, ProviderEmail>, statusCodes: map<int, string>,
                                        key: string, stamp: Stamp)
    requires KeyPresent(Some(key)) && key !in emails
    requires MessageIdOf(stamp) !in emails && MessageIdOf(stamp) != key
    ensures var posted := Serve(emails, statusCodes, Post(key), stamp);
      var got := Serve(posted.emails, statusCodes, Get(posted.response.messageId.value), stamp);
      && got.response.code == 404
      && EventOutcome(MockCheckVia(got.response)).None?
  {
    var posted := Serve(emails, statusCodes, Post(key), stamp);
    GetByOtherHandleNotFound(posted.emails, statusCodes, MessageIdOf(stamp), stamp);
  }
}
