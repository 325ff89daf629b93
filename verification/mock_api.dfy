/**
 * The mock provider's HTTP endpoint: a POST stores a message id per
 * idempotency key and returns the stored one on a repeat; a GET reports the
 * stored status as a single event. The clock and the UUID generator the
 * message id is built from are the parameter `stamp`.
 */
module MockApi {
  import opened Options
  import Php
  import opened Providers

  /** One row of the provider's table, keyed by idempotency key. */
  datatype ProviderEmail = ProviderEmail(messageId: string, statusId: int, errorMessage: Option<string>)

  /** The request fields the endpoint reads. */
  datatype Request = Request(verb: string, bodyKey: Option<string>, queryKey: Option<string>)

  datatype Response = Response(code: int, messageId: Option<string>, events: seq<EventRecord>, error: Option<string>)

  datatype Served = Served(response: Response, emails: map<string, ProviderEmail>)

  /** The clock reading and random UUID a new message id is built from. */
  datatype Stamp = Stamp(time: int, uuid: string)

  /** The message id the endpoint mints for a new key. */
  function MessageIdOf(stamp: Stamp): (m: string)
    ensures |m| > 10 && m[|m| - 1] == '>'
    ensures m[..10] == "<provider-"
  {
    "<provider-" + Php.IntToString(stamp.time) + "-" + stamp.uuid + "@trusti.local>"
  }

  /** The status id a new row is stored with (the `delivered` status). */
  const DeliveredStatusId := 4
  const MissingKeyError := "Missing idempotency_key"
  const NotFoundError := "Email not found"
  const InvalidRequestError := "Invalid request"
  const DeliverySuccessful := "Provider delivery successful"

  function Failure(code: int, error: string): Response
  {
    Response(code, None, [], Some(error))
  }

  /** A POST key that PHP reads as false (null, "" or "0") is rejected. */
  predicate KeyPresent(key: Option<string>)
  {
    key.Some? && Php.Truthy(Php.Str(key.value))
  }

  /**
   * One request. `statusCodes` is the status table joined in by the GET;
   * a row whose status id has no status row is not found.
   */
  function Serve(emails: map<string, ProviderEmail>, statusCodes: map<int, string>,
                 req: Request, stamp: Stamp): (r: Served)
    ensures req.verb != "POST" ==> r.emails == emails
    ensures emails.Keys <= r.emails.Keys && forall k :: k in emails ==> r.emails[k] == emails[k]
    ensures r.response.code in {200, 201, 400, 404}
    ensures req.verb == "POST" && !KeyPresent(req.bodyKey) ==>
      r.response == Failure(400, MissingKeyError) && r.emails == emails
    ensures req.verb == "POST" && KeyPresent(req.bodyKey) ==>
      && r.response.code == 201
      && r.response.events == [] && r.response.error.None?
      && req.bodyKey.value in r.emails
      && r.response.messageId == Some(r.emails[req.bodyKey.value].messageId)
    ensures req.verb == "POST" && KeyPresent(req.bodyKey) && req.bodyKey.value in emails ==>
      r.emails == emails && r.response.messageId == Some(emails[req.bodyKey.value].messageId)
    ensures req.verb == "POST" && KeyPresent(req.bodyKey) && req.bodyKey.value !in emails ==>
      && r.emails == emails[req.bodyKey.value := ProviderEmail(MessageIdOf(stamp), DeliveredStatusId, None)]
      && r.response.messageId == Some(MessageIdOf(stamp))
    ensures req.verb != "POST" && req.queryKey.None? ==> r.response == Failure(400, InvalidRequestError)
    ensures req.verb != "POST" && req.queryKey.Some? ==>
      var key := req.queryKey.value;
      if key in emails && emails[key].statusId in statusCodes then
        r.response == Response(200, None,
          [EventRecord(Some(statusCodes[emails[key].statusId]),
                       Some(emails[key].errorMessage.GetOr(DeliverySuccessful)))], None)
      else r.response == Failure(404, NotFoundError)
  {
    if req.verb == "POST" then
      if !KeyPresent(req.bodyKey) then Served(Failure(400, MissingKeyError), emails)
      else
        var key := req.bodyKey.value;
        if key in emails then Served(Response(201, Some(emails[key].messageId), [], None), emails)
        else
          var row := ProviderEmail(MessageIdOf(stamp), DeliveredStatusId, None);
          Served(Response(201, Some(row.messageId), [], None), emails[key := row])
    else if req.queryKey.Some? then
      var key := req.queryKey.value;
      if key in emails && emails[key].statusId in statusCodes then
        var row := emails[key];
        Served(Response(200, None,
          [EventRecord(Some(statusCodes[row.statusId]), Some(row.errorMessage.GetOr(DeliverySuccessful)))],
          None), emails)
      else Served(Failure(404, NotFoundError), emails)
    else Served(Failure(400, InvalidRequestError), emails)
  }

  /** The stored rows after the first `n` requests of a run. */
  function EmailsAfter(emails: map<string, ProviderEmail>, statusCodes: map<int, string>,
                       reqs: seq<Request>, stamps: seq<Stamp>, n: nat): map<string, ProviderEmail>
    requires |stamps| == |reqs| && n <= |reqs|
    decreases n
  {
    if n == 0 then emails
    else EmailsAfter(Serve(emails, statusCodes, reqs[0], stamps[0]).emails, statusCodes, reqs[1..], stamps[1..], n - 1)
  }

  /**
   * A run of requests, each with its own candidate message id: the i-th
   * response is the endpoint's answer on the rows the first i requests left.
   */
  function ServeAll(emails: map<string, ProviderEmail>, statusCodes: map<int, string>,
                    reqs: seq<Request>, stamps: seq<Stamp>): (r: (seq<Response>, map<string, ProviderEmail>))
    requires |stamps| == |reqs|
    ensures |r.0| == |reqs|
    ensures forall i :: 0 <= i < |reqs| ==>
      r.0[i] == Serve(EmailsAfter(emails, statusCodes, reqs, stamps, i), statusCodes, reqs[i], stamps[i]).response
    ensures r.1 == EmailsAfter(emails, statusCodes, reqs, stamps, |reqs|)
    decreases |reqs|
  {
    if reqs == [] then ([], emails)
    else
      var first := Serve(emails, statusCodes, reqs[0], stamps[0]);
      var rest := ServeAll(first.emails, statusCodes, reqs[1..], stamps[1..]);
      assert forall i :: 1 <= i < |reqs| ==>
        EmailsAfter(emails, statusCodes, reqs, stamps, i) ==
          EmailsAfter(first.emails, statusCodes, reqs[1..], stamps[1..], i - 1);
      assert forall i :: 1 <= i < |reqs| ==> reqs[1..][i - 1] == reqs[i] && stamps[1..][i - 1] == stamps[i];
      ([first.response] + rest.0, rest.1)
  }

  /**
   * Once a key is stored, every later POST with that key, however many
   * requests come between, answers 201 with the same message id, and the
   * stored row never changes.
   */
  lemma {:induction false} RepeatedPostsAgree(emails: map<string, ProviderEmail>, statusCodes: map<int, string>,
                                              reqs: seq<Request>, stamps: seq<Stamp>, key: string)
    requires |stamps| == |reqs| && key in emails && KeyPresent(Some(key))
    ensures var r := ServeAll(emails, statusCodes, reqs, stamps);
      && key in r.1 && r.1[key] == emails[key]
      && forall i :: 0 <= i < |reqs| && reqs[i].verb == "POST" && reqs[i].bodyKey == Some(key) ==>
           r.0[i].code == 201 && r.0[i].messageId == Some(emails[key].messageId)
    decreases |reqs|
  {
    if reqs != [] {
      var first := Serve(emails, statusCodes, reqs[0], stamps[0]);
      RepeatedPostsAgree(first.emails, statusCodes, reqs[1..], stamps[1..], key);
      var r := ServeAll(emails, statusCodes, reqs, stamps);
      var rest := ServeAll(first.emails, statusCodes, reqs[1..], stamps[1..]);
      forall i | 0 <= i < |reqs| && reqs[i].verb == "POST" && reqs[i].bodyKey == Some(key)
        ensures r.0[i].code == 201 && r.0[i].messageId == Some(emails[key].messageId)
      {
        if i > 0 {
          assert reqs[1..][i - 1] == reqs[i];
          assert r.0[i] == rest.0[i - 1];
        }
      }
    }
  }

  /** A GET request for `key`. */
  function Get(key: string): Request
  {
    Request("GET", None, Some(key))
  }

  /** A POST request carrying `key` in its body. */
  function Post(key: string): Request
  {
    Request("POST", Some(key), None)
  }

  /**
   * A GET after the POST that stored a new key reports the stored status
   * as one event with the default reason, and the message id the POST
   * answered is the one stored.
   */
  lemma PostThenGet(emails: map<string, ProviderEmail>, statusCodes: map<int, string>, key: string, stamp: Stamp)
    requires KeyPresent(Some(key)) && key !in emails
    ensures var posted := Serve(emails, statusCodes, Post(key), stamp);
      var got := Serve(posted.emails, statusCodes, Get(key), stamp);
      && posted.response.messageId == Some(MessageIdOf(stamp))
      && got.emails == posted.emails
      && (DeliveredStatusId in statusCodes ==>
            got.response == Response(200, None,
              [EventRecord(Some(statusCodes[DeliveredStatusId]), Some(DeliverySuccessful))], None))
      && (DeliveredStatusId !in statusCodes ==> got.response == Failure(404, NotFoundError))
  {
  }

  /** A GET names the row by idempotency key: any other string is not found. */
  lemma GetByOtherHandleNotFound(emails: map<string, ProviderEmail>, statusCodes: map<int, string>,
                                  handle: string, stamp: Stamp)
    requires handle !in emails
    ensures Serve(emails, statusCodes, Get(handle), stamp).response == Failure(404, NotFoundError)
  {
  }
}
