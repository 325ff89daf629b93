/**
 * The two email workers: the transition `sendEmail` writes for a send
 * result, and the reconciliation pass `checkDeliveryStatus` over the SENT
 * rows. Both workers share the dispatch decision and the switch on the
 * reported event; their passes differ in the handle they query by and in
 * what a missing handle does to the rest of the pass.
 */
module Worker {
  import opened Options
  import opened Statuses
  import Php
  import opened Store
  import opened Providers

  const UnknownError := "unknown error"
  const DeliveryFailed := "delivery failed"
  const NoMessageIdError := "Automatic set failed! No message_id"
  const NoIdempotencyKeyError := "Automatic set failed! No idempotency_key"

  /** The first present of `errors`, `error` and `message`. */
  function ErrorMessage(r: SendResult): (m: string)
    ensures r.errors.Some? ==> m == r.errors.value
    ensures r.errors.None? && r.error.Some? ==> m == r.error.value
    ensures r.errors.None? && r.error.None? && r.message.Some? ==> m == r.message.value
    ensures r.errors.None? && r.error.None? && r.message.None? ==> m == UnknownError
  {
    r.errors.OrElse(r.error).OrElse(r.message).GetOr(UnknownError)
  }

  /**
   * The transition `sendEmail` writes. `email` is the row as fetched, so
   * `retries` is the count before this attempt. The switch compares the
   * success value loosely with `true` and `false`, so every value takes
   * one of the two branches and the default branch is never reached.
   */
  function Dispatch(email: Job, r: SendResult, maxRetries: int): (u: Update)
    ensures Php.LooseEqualsBool(r.success, true) <==> u.MarkSent?
    ensures u.MarkSent? ==> u == MarkSent(r.provider, r.messageId)
    ensures u.MarkQueued? <==>
      !Php.Truthy(r.success) && ShouldRetry(r.httpCode) && email.retries < maxRetries
    ensures !Php.Truthy(r.success) && ShouldRetry(r.httpCode) && email.retries >= maxRetries ==>
      u == MarkFailed(ErrorMessage(r), r.provider, r.messageId)
    ensures !Php.Truthy(r.success) && !ShouldRetry(r.httpCode) ==>
      u == MarkFailed(Php.IntToString(r.httpCode), r.provider, r.messageId)
    ensures u.MarkSent? || u.MarkQueued? || u.MarkFailed?
  {
    if Php.LooseEqualsBool(r.success, true) then
      MarkSent(r.provider, r.messageId)
    else if ShouldRetry(r.httpCode) then
      if email.retries < maxRetries then MarkQueued
      else MarkFailed(ErrorMessage(r), r.provider, r.messageId)
    else
      MarkFailed(Php.IntToString(r.httpCode), r.provider, r.messageId)
  }

  /** `sendEmail` on the store: one row changes and its attempt is counted. */
  function SendEmail(t: Table, email: Job, r: SendResult, maxRetries: int, now: int): (t': Table)
    ensures OnlyRowChanged(t, t', email.id)
    ensures email.id in t.rows ==>
      && t'.rows[email.id].retries == t.rows[email.id].retries + 1
      && (t'.rows[email.id].status == Sent <==> Php.Truthy(r.success))
      && t'.rows[email.id].status in {Sent, Queued, Failed}
  {
    Apply(t, email.id, Dispatch(email, r, maxRetries), now)
  }

  /**
   * A failed send is classified by its code alone: a client error other
   * than 429 fails at once whatever the budget, and any other code requeues
   * exactly while the budget lasts.
   */
  lemma DispatchOnFailure(email: Job, r: SendResult, maxRetries: int)
    requires !Php.Truthy(r.success)
    ensures var u := Dispatch(email, r, maxRetries);
      && (400 <= r.httpCode < 500 && r.httpCode != 429 ==>
            u.MarkFailed? && Php.ParseInt(u.error) == r.httpCode)
      && (!(400 <= r.httpCode < 500 && r.httpCode != 429) ==>
            (u == MarkQueued <==> email.retries < maxRetries))
  {
    var u := Dispatch(email, r, maxRetries);
    if 400 <= r.httpCode < 500 && r.httpCode != 429 {
      Php.ParseIntToString(r.httpCode);
    }
  }

  /** The attempts a job gets when every send fails with a retryable code. */
  function RetryRun(j: Job, r: SendResult, maxRetries: int, attempts: nat, now: int): (j': Job)
    requires !Php.Truthy(r.success) && ShouldRetry(r.httpCode)
    decreases attempts
  {
    if attempts == 0 || j.status != Queued then j
    else
      var claimed := Transit(j, MarkProcessing, now);
      RetryRun(Transit(claimed, Dispatch(claimed, r, maxRetries), now), r, maxRetries, attempts - 1, now)
  }

  /**
   * A budget of `maxRetries` allows `maxRetries + 1` sends: a fresh job
   * whose sends keep failing with a retryable code is requeued until its
   * count reaches the budget and fails on the next attempt.
   */
  lemma {:induction false} RetryBudget(j: Job, r: SendResult, maxRetries: nat, attempts: nat, now: int)
    requires !Php.Truthy(r.success) && ShouldRetry(r.httpCode)
    requires j.status == Queued && j.retries <= maxRetries
    ensures var j' := RetryRun(j, r, maxRetries, attempts, now);
      && (attempts <= maxRetries - j.retries ==> j'.status == Queued && j'.retries == j.retries + attempts)
      && (attempts > maxRetries - j.retries ==> j'.status == Failed && j'.retries == maxRetries + 1)
    decreases attempts
  {
    if attempts > 0 {
      var claimed := Transit(j, MarkProcessing, now);
      var next := Transit(claimed, Dispatch(claimed, r, maxRetries), now);
      if j.retries < maxRetries {
        assert next.status == Queued && next.retries == j.retries + 1;
        RetryBudget(next, r, maxRetries, attempts - 1, now);
      } else {
        assert next.status == Failed;
        var rest := RetryRun(next, r, maxRetries, attempts - 1, now);
        assert attempts - 1 == 0 || rest == next;
      }
    }
  }

  predicate IsBounce(event: string)
  {
    event == "hardBounces" || event == "softBounces" || event == "blocked"
  }

  /**
   * The switch on the reported event, shared by both workers. A bounce
   * fails the job; the result carries no provider or message id keys, so
   * the failure writes null into both columns.
   */
  function EventOutcome(r: DeliveryResult): (o: Option<Update>)
    ensures !r.success ==> o.None?
    ensures r.success && r.event == Some("delivered") ==> o == Some(MarkDelivered)
    ensures r.success && r.event.Some? && IsBounce(r.event.value) ==>
      o == Some(MarkFailed(r.reason.GetOr(DeliveryFailed), None, None))
    ensures o.Some? <==>
      r.success && r.event.Some? && (r.event.value == "delivered" || IsBounce(r.event.value))
  {
    if !r.success then None
    else if r.event == Some("delivered") then Some(MarkDelivered)
    else if r.event.Some? && IsBounce(r.event.value) then
      Some(MarkFailed(r.reason.GetOr(DeliveryFailed), None, None))
    else None
  }

  /** A decision as the list of updates it writes. */
  function Steps(o: Option<Update>): (us: seq<Update>)
    ensures o.None? ==> us == []
    ensures o.Some? ==> us == [o.value]
  {
    match o
    case None => []
    case Some(u) => [u]
  }

  /** The handle the first worker queries by; null and "" count as missing. */
  predicate MissingMessageId(j: Job)
  {
    j.messageId == None || j.messageId == Some("")
  }

  function SrcDecision(j: Job, query: string -> DeliveryResult): Option<Update>
  {
    if MissingMessageId(j) then Some(MarkFailed(NoMessageIdError, None, None))
    else EventOutcome(query(j.messageId.value))
  }

  /**
   * The first worker's pass: one decision per listed job, in order, up to
   * and including the first job without a message id; the pass stops there.
   */
  function SrcPlan(sent: seq<Job>, query: string -> DeliveryResult): (plan: seq<seq<Update>>)
    ensures |plan| <= |sent|
    ensures forall i :: 0 <= i < |plan| ==> plan[i] == Steps(SrcDecision(sent[i], query))
    ensures forall i :: 0 <= i < |plan| - 1 ==> !MissingMessageId(sent[i])
    ensures |plan| < |sent| ==> 0 < |plan| && MissingMessageId(sent[|plan| - 1])
    decreases |sent|
  {
    if sent == [] then []
    else if MissingMessageId(sent[0]) then [Steps(SrcDecision(sent[0], query))]
    else
      var rest := SrcPlan(sent[1..], query);
      assert forall i :: 1 <= i < |sent| ==> sent[1..][i - 1] == sent[i];
      [Steps(SrcDecision(sent[0], query))] + rest
  }

  /** The handle the second worker queries by; `empty()` also rejects "0". */
  predicate MissingKey(j: Job)
  {
    Php.EmptyString(j.idempotencyKey)
  }

  function ServiceDecision(j: Job, query: string -> DeliveryResult): Option<Update>
  {
    if MissingKey(j) then Some(MarkFailed(NoIdempotencyKeyError, None, None))
    else EventOutcome(query(j.idempotencyKey))
  }

  /** The second worker's pass: one decision per listed job, in order. */
  function ServicePlan(sent: seq<Job>, query: string -> DeliveryResult): (plan: seq<seq<Update>>)
    ensures |plan| == |sent|
    ensures forall i :: 0 <= i < |plan| ==> plan[i] == Steps(ServiceDecision(sent[i], query))
  {
    seq(|sent|, i requires 0 <= i < |sent| => Steps(ServiceDecision(sent[i], query)))
  }

  /** Rows outside status `st` are the same in both tables. */
  predicate OnlyStatusTouched(t: Table, t': Table, st: Status)
  {
    && t'.rows.Keys == t.rows.Keys
    && forall k :: k in t.rows && t.rows[k].status != st ==> t'.rows[k] == t.rows[k]
  }

  /** The rows of a list taken from the table are all in status `st`. */
  lemma ListedRowsHaveStatus(t: Table, jobs: seq<Job>, st: Status, k: int)
    requires forall i :: 0 <= i < |jobs| ==> InTable(t, jobs[i]) && jobs[i].status == st
    requires k in t.rows && t.rows[k].status != st
    ensures k !in IdsOf(jobs)
  {
    forall y | y in jobs ensures y.id != k {
      var i :| 0 <= i < |jobs| && jobs[i] == y;
    }
  }

  /** A pass over rows listed from one status touches no row outside it. */
  lemma PassFrame(t: Table, jobs: seq<Job>, plan: seq<seq<Update>>, st: Status, now: int)
    requires |plan| <= |jobs|
    requires forall i :: 0 <= i < |jobs| ==> InTable(t, jobs[i]) && jobs[i].status == st
    ensures OnlyStatusTouched(t, ApplyPlan(t, jobs, plan, now), st)
  {
    var t' := ApplyPlan(t, jobs, plan, now);
    forall k | k in t.rows && t.rows[k].status != st ensures t'.rows[k] == t.rows[k] {
      ListedRowsHaveStatus(t, jobs, st, k);
      assert IdsOf(jobs[..|plan|]) <= IdsOf(jobs) by {
        forall y | y in jobs[..|plan|] ensures y in jobs {
          var m :| 0 <= m < |plan| && jobs[..|plan|][m] == y;
          assert jobs[m] == y;
        }
      }
    }
  }

  /** `checkDeliveryStatus` of the first worker, keyed by message id. */
  function CheckDeliverySrc(t: Table, query: string -> DeliveryResult, now: int): (t': Table)
    requires Valid(t)
    ensures Valid(t') && t'.nextId == t.nextId && RetriesKept(t, t')
    ensures KeysUnique(t) ==> KeysUnique(t')
    ensures OnlyStatusTouched(t, t', Sent)
    ensures (forall k :: k in t.rows ==> t.rows[k].status != Sent) ==> t' == t
  {
    var sent := GetSentEmails(t);
    var plan := SrcPlan(sent, query);
    PassFrame(t, sent, plan, Sent, now);
    ApplyPlan(t, sent, plan, now)
  }

  /** `checkDeliveryStatus` of the second worker, keyed by idempotency key. */
  function CheckDeliveryService(t: Table, query: string -> DeliveryResult, now: int): (t': Table)
    requires Valid(t)
    ensures Valid(t') && t'.nextId == t.nextId && RetriesKept(t, t')
    ensures KeysUnique(t) ==> KeysUnique(t')
    ensures OnlyStatusTouched(t, t', Sent)
    ensures (forall k :: k in t.rows ==> t.rows[k].status != Sent) ==> t' == t
  {
    var sent := GetSentEmails(t);
    var plan := ServicePlan(sent, query);
    PassFrame(t, sent, plan, Sent, now);
    ApplyPlan(t, sent, plan, now)
  }

  /** A row after one decision: unchanged, or the decided update applied. */
  function Decided(j: Job, o: Option<Update>, now: int): Job
  {
    match o
    case None => j
    case Some(u) => Transit(j, u, now)
  }

  lemma DecidedIsSteps(j: Job, o: Option<Update>, now: int)
    ensures TransitAll(j, Steps(o), now) == Decided(j, o, now)
  {
    if o.Some? {
      assert Steps(o)[1..] == [];
    }
  }

  /**
   * The first worker's pass, job by job: each SENT row up to the first one
   * without a message id gets its own decision; every row after it in the
   * list is left as it was.
   */
  lemma CheckDeliverySrcEffect(t: Table, query: string -> DeliveryResult, now: int)
    requires Valid(t)
    ensures var sent, t' := GetSentEmails(t), CheckDeliverySrc(t, query, now);
      forall i :: 0 <= i < |sent| ==>
        t'.rows[sent[i].id] ==
          if i < |SrcPlan(sent, query)| then Decided(sent[i], SrcDecision(sent[i], query), now)
          else sent[i]
  {
    var sent := GetSentEmails(t);
    var plan := SrcPlan(sent, query);
    ApplyPlanEffect(t, sent, plan, now);
    forall i | 0 <= i < |plan|
      ensures TransitAll(sent[i], plan[i], now) == Decided(sent[i], SrcDecision(sent[i], query), now)
    {
      DecidedIsSteps(sent[i], SrcDecision(sent[i], query), now);
    }
  }

  /** One listed row under the first worker's pass. */
  lemma SrcRowEffect(t: Table, query: string -> DeliveryResult, now: int, i: int)
    requires Valid(t) && 0 <= i < |GetSentEmails(t)|
    ensures var sent := GetSentEmails(t);
      CheckDeliverySrc(t, query, now).rows[sent[i].id] ==
        if i < |SrcPlan(sent, query)| then Decided(sent[i], SrcDecision(sent[i], query), now)
        else sent[i]
  {
    var sent := GetSentEmails(t);
    var plan := SrcPlan(sent, query);
    ApplyPlanEffect(t, sent, plan, now);
    if i < |plan| {
      DecidedIsSteps(sent[i], SrcDecision(sent[i], query), now);
    }
  }

  /** The first worker's plan ends exactly at the first job without a message id. */
  lemma {:induction false} SrcPlanStopsAt(sent: seq<Job>, query: string -> DeliveryResult, i: int)
    requires 0 <= i < |sent| && MissingMessageId(sent[i])
    requires forall m :: 0 <= m < i ==> !MissingMessageId(sent[m])
    ensures |SrcPlan(sent, query)| == i + 1
    decreases i
  {
    if i > 0 {
      assert !MissingMessageId(sent[0]);
      var rest := sent[1..];
      assert forall m :: 0 <= m < i - 1 ==> rest[m] == sent[m + 1];
      SrcPlanStopsAt(rest, query, i - 1);
    }
  }

  /**
   * A SENT job without a message id is failed and ends the pass: no job
   * listed after it is touched, however its provider status reads.
   */
  lemma MissingMessageIdStopsPass(t: Table, query: string -> DeliveryResult, now: int, i: int)
    requires Valid(t)
    requires var sent := GetSentEmails(t);
      0 <= i < |sent| && MissingMessageId(sent[i]) &&
      forall m :: 0 <= m < i ==> !MissingMessageId(sent[m])
    ensures var sent, t' := GetSentEmails(t), CheckDeliverySrc(t, query, now);
      && t'.rows[sent[i].id].status == Failed
      && t'.rows[sent[i].id].errorMessage == Some(NoMessageIdError)
      && forall j :: i < j < |sent| ==> t'.rows[sent[j].id] == sent[j]
  {
    var sent := GetSentEmails(t);
    var t' := CheckDeliverySrc(t, query, now);
    SrcPlanStopsAt(sent, query, i);
    SrcRowEffect(t, query, now, i);
    var u := MarkFailed(NoMessageIdError, None, None);
    assert SrcDecision(sent[i], query) == Some(u);
    assert t'.rows[sent[i].id] == Transit(sent[i], u, now);
    forall j | i < j < |sent| ensures CheckDeliverySrc(t, query, now).rows[sent[j].id] == sent[j] {
      SrcRowEffect(t, query, now, j);
    }
  }

  /**
   * The second worker's pass, job by job: every SENT row gets its own
   * decision, so a missing key fails that job and the pass goes on.
   */
  lemma CheckDeliveryServiceEffect(t: Table, query: string -> DeliveryResult, now: int)
    requires Valid(t)
    ensures var sent, t' := GetSentEmails(t), CheckDeliveryService(t, query, now);
      forall i :: 0 <= i < |sent| ==>
        t'.rows[sent[i].id] == Decided(sent[i], ServiceDecision(sent[i], query), now)
  {
    forall i | 0 <= i < |GetSentEmails(t)| {
      ServiceRowEffect(t, query, now, i);
    }
  }

  /** One listed row under the second worker's pass. */
  lemma ServiceRowEffect(t: Table, query: string -> DeliveryResult, now: int, i: int)
    requires Valid(t) && 0 <= i < |GetSentEmails(t)|
    ensures var sent := GetSentEmails(t);
      CheckDeliveryService(t, query, now).rows[sent[i].id] ==
        Decided(sent[i], ServiceDecision(sent[i], query), now)
  {
    var sent := GetSentEmails(t);
    var plan := ServicePlan(sent, query);
    ApplyPlanEffect(t, sent, plan, now);
    DecidedIsSteps(sent[i], ServiceDecision(sent[i], query), now);
  }

  /** The second worker never reads the message id: its decision is keyed by the idempotency key. */
  lemma ServiceKeyedByIdempotencyKey(a: Job, b: Job, query: string -> DeliveryResult)
    requires a.idempotencyKey == b.idempotencyKey
    ensures ServiceDecision(a, query) == ServiceDecision(b, query)
    ensures !MissingKey(a) ==> ServiceDecision(a, query) == EventOutcome(query(a.idempotencyKey))
  {
  }

  /** The first worker never reads the idempotency key: its decision is keyed by the message id. */
  lemma SrcKeyedByMessageId(a: Job, b: Job, query: string -> DeliveryResult)
    requires a.messageId == b.messageId
    ensures SrcDecision(a, query) == SrcDecision(b, query)
    ensures !MissingMessageId(a) ==> SrcDecision(a, query) == EventOutcome(query(a.messageId.value))
  {
  }

  /** Under the inherited status check, a decision is a missing-handle failure or nothing. */
  lemma DefaultDecisions(j: Job)
    ensures ServiceDecision(j, DefaultCheckDeliveryStatus) ==
      if MissingKey(j) then Some(MarkFailed(NoIdempotencyKeyError, None, None)) else None
    ensures SrcDecision(j, DefaultCheckDeliveryStatus) ==
      if MissingMessageId(j) then Some(MarkFailed(NoMessageIdError, None, None)) else None
  {
  }

  /** A SENT row is at some position of the SENT list. */
  lemma SentRowListed(t: Table, k: int) returns (i: int)
    requires Valid(t) && k in t.rows && t.rows[k].status == Sent
    ensures 0 <= i < |GetSentEmails(t)| && GetSentEmails(t)[i] == t.rows[k]
    ensures GetSentEmails(t)[i].id == k
  {
    var sent := GetSentEmails(t);
    assert t.rows[k] in sent;
    i :| 0 <= i < |sent| && sent[i] == t.rows[k];
  }

  /**
   * With the inherited status check every query fails, so the second
   * worker's pass delivers nothing: a row stays as it was or is failed for
   * a missing idempotency key.
   */
  lemma DefaultCheckResolvesNothingService(t: Table, now: int)
    requires Valid(t)
    ensures var t' := CheckDeliveryService(t, DefaultCheckDeliveryStatus, now);
      forall k :: k in t.rows ==>
        t'.rows[k] == t.rows[k] ||
        (t'.rows[k].status == Failed && t'.rows[k].errorMessage == Some(NoIdempotencyKeyError))
  {
    forall k | k in t.rows && t.rows[k].status == Sent {
      DefaultServiceRow(t, now, k);
    }
  }

  /** One SENT row under the second worker's pass with the inherited status check. */
  lemma DefaultServiceRow(t: Table, now: int, k: int)
    requires Valid(t) && k in t.rows && t.rows[k].status == Sent
    ensures var t' := CheckDeliveryService(t, DefaultCheckDeliveryStatus, now);
      t'.rows[k] == t.rows[k] ||
      (t'.rows[k].status == Failed && t'.rows[k].errorMessage == Some(NoIdempotencyKeyError))
  {
    var sent := GetSentEmails(t);
    var i := SentRowListed(t, k);
    ServiceRowEffect(t, DefaultCheckDeliveryStatus, now, i);
    DefaultDecisions(sent[i]);
  }

  /** One SENT row under the first worker's pass with the inherited status check. */
  lemma DefaultSrcRow(t: Table, now: int, k: int)
    requires Valid(t) && k in t.rows && t.rows[k].status == Sent
    ensures var t' := CheckDeliverySrc(t, DefaultCheckDeliveryStatus, now);
      t'.rows[k] == t.rows[k] ||
      (t'.rows[k].status == Failed && t'.rows[k].errorMessage == Some(NoMessageIdError))
  {
    var sent := GetSentEmails(t);
    var i := SentRowListed(t, k);
    SrcRowEffect(t, DefaultCheckDeliveryStatus, now, i);
    DefaultDecisions(sent[i]);
  }

  /**
   * With the inherited status check every query fails, so the first
   * worker's pass delivers nothing: a row stays as it was or is failed for
   * a missing message id.
   */
  lemma DefaultCheckResolvesNothingSrc(t: Table, now: int)
    requires Valid(t)
    ensures var t' := CheckDeliverySrc(t, DefaultCheckDeliveryStatus, now);
      forall k :: k in t.rows ==>
        t'.rows[k] == t.rows[k] ||
        (t'.rows[k].status == Failed && t'.rows[k].errorMessage == Some(NoMessageIdError))
  {
    forall k | k in t.rows && t.rows[k].status == Sent {
      DefaultSrcRow(t, now, k);
    }
  }

  /**
   * A bounce reported for a SENT job fails it with the reported reason and
   * clears its provider and message id.
   */
  lemma BounceClearsProviderColumns(j: Job, query: string -> DeliveryResult, now: int)
    requires !MissingKey(j)
    requires var r := query(j.idempotencyKey); r.success && r.event.Some? && IsBounce(r.event.value)
    ensures var j' := Decided(j, ServiceDecision(j, query), now);
      && j'.status == Failed
      && j'.errorMessage == Some(query(j.idempotencyKey).reason.GetOr(DeliveryFailed))
      && j'.provider.None? && j'.messageId.None?
  {
  }

  /**
   * The two passes part ways on a missing handle: with a first job lacking
   * both handles and a second reported delivered, the first worker leaves
   * the second job SENT while the second worker delivers it.
   */
  lemma BreakVersusContinue(a: Job, b: Job, query: string -> DeliveryResult)
    requires MissingMessageId(a) && MissingKey(a)
    requires !MissingMessageId(b) && !MissingKey(b)
    requires query(b.messageId.value) == DeliveryResult(true, Some("delivered"), None, None)
    requires query(b.idempotencyKey) == DeliveryResult(true, Some("delivered"), None, None)
    ensures |SrcPlan([a, b], query)| == 1
    ensures ServicePlan([a, b], query)[1] == [MarkDelivered]
  {
  }
}
