/**
 * The long-running queue driver: three counters gate the SENT sweep, the
 * PROCESSING sweep and the delivery check, and every cycle then fetches a
 * batch of QUEUED rows, claims each and hands it to the first worker.
 * Sleeps are not modelled; one clock reading `now` serves a whole cycle.
 */
module Driver {
  import opened Options
  import opened Statuses
  import opened Store
  import opened Providers
  import opened Worker

  /** The counter's test, increment and reset in one step. */
  datatype Tick = Tick(fire: bool, next: nat)

  /**
   * `if ($c++ >= th) { ...; $c = 0; }`: the counter is compared before its
   * post-increment, and a firing branch resets it.
   */
  function Advance(c: nat, th: nat): (t: Tick)
    ensures t.fire <==> c >= th
    ensures c <= th ==> t.next <= th
    ensures t.fire ==> t.next == 0
    ensures !t.fire ==> t.next == c + 1
  {
    if c >= th then Tick(true, 0) else Tick(false, c + 1)
  }

  const SentEvery: nat := 5
  const ProcessingEvery: nat := 2
  const DeliveryEvery: nat := 2
  const ProcessingOlderThan := 60
  const SentOlderThan := 90

  /** The counter after `n` cycles from 0. */
  function CounterAfter(th: nat, n: nat): nat
    decreases n
  {
    if n == 0 then 0 else Advance(CounterAfter(th, n - 1), th).next
  }

  /** Multiplying by a positive number keeps the order of the factor. */
  lemma MulMono(d: int, m: int)
    requires m > 0
    ensures d >= 2 ==> d * m >= 2 * m
    ensures d <= -1 ==> d * m <= -m
  {
  }

  /** `(n + 1) mod m` from `n mod m`. */
  lemma ModStep(n: nat, m: nat)
    requires m > 0
    ensures (n + 1) % m == if n % m == m - 1 then 0 else n % m + 1
  {
    var q, r := n / m, n % m;
    var q1, r1 := (n + 1) / m, (n + 1) % m;
    var d := q1 - q;
    assert d * m == r - r1 + 1;
    MulMono(d, m);
    assert d == 0 || d == 1;
  }

  /**
   * The cadence: after `n` cycles the counter holds `n mod (th + 1)`, so
   * the gated step runs on cycle `k` (counting from 1) exactly when `k` is
   * a multiple of `th + 1`.
   */
  lemma {:induction false} Cadence(th: nat, n: nat)
    ensures CounterAfter(th, n) == n % (th + 1)
    ensures Advance(CounterAfter(th, n), th).fire <==> (n + 1) % (th + 1) == 0
    decreases n
  {
    if n > 0 {
      Cadence(th, n - 1);
      ModStep(n - 1, th + 1);
    }
    ModStep(n, th + 1);
  }

  /** The gated steps run on cycles 6, 12, … and 3, 6, … respectively. */
  lemma DriverCadence(n: nat)
    ensures Advance(CounterAfter(SentEvery, n), SentEvery).fire <==> (n + 1) % 6 == 0
    ensures Advance(CounterAfter(ProcessingEvery, n), ProcessingEvery).fire <==> (n + 1) % 3 == 0
    ensures Advance(CounterAfter(DeliveryEvery, n), DeliveryEvery).fire <==> (n + 1) % 3 == 0
  {
    Cadence(SentEvery, n);
    Cadence(ProcessingEvery, n);
    Cadence(DeliveryEvery, n);
  }

  datatype Counters = Counters(sent: nat, processing: nat, delivery: nat)

  /** What a call to `sendEmail` did: threw, or returned the provider's result. */
  datatype SendOutcome = Threw | Returned(result: SendResult)

  /**
   * The world a cycle sees: the provider's status answer per handle, the
   * provider's send outcome per row, and the configured retry budget.
   */
  datatype Env = Env(query: string -> DeliveryResult, send: Job -> SendOutcome, maxRetries: int)

  datatype State = State(table: Table, counters: Counters)

  /** Which gated steps run this cycle. */
  datatype Gates = Gates(sweepSent: bool, sweepProcessing: bool, checkDelivery: bool)

  function GatesOf(c: Counters): (g: Gates)
    ensures g.sweepSent <==> c.sent >= SentEvery
    ensures g.sweepProcessing <==> c.processing >= ProcessingEvery
    ensures g.checkDelivery <==> c.delivery >= DeliveryEvery
  {
    Gates(Advance(c.sent, SentEvery).fire, Advance(c.processing, ProcessingEvery).fire,
          Advance(c.delivery, DeliveryEvery).fire)
  }

  function NextCounters(c: Counters): Counters
  {
    Counters(Advance(c.sent, SentEvery).next, Advance(c.processing, ProcessingEvery).next,
             Advance(c.delivery, DeliveryEvery).next)
  }

  /** The statuses the gated steps act on. */
  predicate Active(st: Status)
  {
    st == Sent || st == Processing
  }

  /**
   * The housekeeping frame: same keys and counter, and every row outside
   * SENT and PROCESSING unchanged.
   */
  predicate OnlyActiveTouched(t: Table, t': Table)
  {
    && t'.nextId == t.nextId
    && t'.rows.Keys == t.rows.Keys
    && forall k :: k in t.rows && !Active(t.rows[k].status) ==> t'.rows[k] == t.rows[k]
  }

  lemma OnlyActiveTouchedTrans(t1: Table, t2: Table, t3: Table)
    requires OnlyActiveTouched(t1, t2) && OnlyActiveTouched(t2, t3)
    requires RetriesKept(t1, t2) && RetriesKept(t2, t3)
    ensures OnlyActiveTouched(t1, t3) && RetriesKept(t1, t3)
  {
    forall k | k in t1.rows && !Active(t1.rows[k].status) ensures t3.rows[k] == t1.rows[k] {
      assert t2.rows[k] == t1.rows[k];
    }
  }

  function SweepSentStage(t: Table, fire: bool, now: int): (t': Table)
    requires Valid(t)
    ensures Valid(t') && OnlyActiveTouched(t, t') && RetriesKept(t, t')
    ensures KeysUnique(t) ==> KeysUnique(t')
    ensures !fire ==> t' == t
  {
    if fire then CleanupSent(t, now, SentOlderThan).table else t
  }

  function SweepProcessingStage(t: Table, fire: bool, now: int): (t': Table)
    requires Valid(t)
    ensures Valid(t') && OnlyActiveTouched(t, t') && RetriesKept(t, t')
    ensures KeysUnique(t) ==> KeysUnique(t')
    ensures !fire ==> t' == t
  {
    if fire then CleanupProcessing(t, now, ProcessingOlderThan).table else t
  }

  function CheckStage(t: Table, fire: bool, query: string -> DeliveryResult, now: int): (t': Table)
    requires Valid(t)
    ensures Valid(t') && OnlyActiveTouched(t, t') && RetriesKept(t, t')
    ensures KeysUnique(t) ==> KeysUnique(t')
    ensures !fire ==> t' == t
  {
    if fire then CheckDeliverySrc(t, query, now) else t
  }

  /**
   * The gated steps in their fixed order: SENT sweep, PROCESSING sweep,
   * delivery check. Only SENT and PROCESSING rows can change.
   */
  function Housekeeping(t: Table, g: Gates, query: string -> DeliveryResult, now: int): (t': Table)
    requires Valid(t)
    ensures Valid(t') && OnlyActiveTouched(t, t') && RetriesKept(t, t')
    ensures KeysUnique(t) ==> KeysUnique(t')
    ensures !g.sweepSent && !g.sweepProcessing && !g.checkDelivery ==> t' == t
  {
    var t1 := SweepSentStage(t, g.sweepSent, now);
    var t2 := SweepProcessingStage(t1, g.sweepProcessing, now);
    var t3 := CheckStage(t2, g.checkDelivery, query, now);
    OnlyActiveTouchedTrans(t, t1, t2);
    OnlyActiveTouchedTrans(t, t2, t3);
    t3
  }

  /** One fetched row: claimed, then sent unless the send throws. */
  function BatchSteps(e: Job, env: Env): (us: seq<Update>)
    ensures 1 <= |us| <= 2 && us[0] == MarkProcessing
    ensures env.send(e).Threw? <==> |us| == 1
    ensures env.send(e).Returned? ==> us == [MarkProcessing, Dispatch(e, env.send(e).result, env.maxRetries)]
  {
    match env.send(e)
    case Threw => [MarkProcessing]
    case Returned(r) => [MarkProcessing, Dispatch(e, r, env.maxRetries)]
  }

  /** The updates the dispatch loop writes, one entry per fetched row. */
  function BatchPlan(emails: seq<Job>, env: Env): (plan: seq<seq<Update>>)
    ensures |plan| == |emails|
    ensures forall i :: 0 <= i < |emails| ==> plan[i] == BatchSteps(emails[i], env)
  {
    seq(|emails|, i requires 0 <= i < |emails| => BatchSteps(emails[i], env))
  }

  /** The fetch and the dispatch loop over the fetched batch. */
  function DispatchBatch(t: Table, env: Env, now: int): (t': Table)
    requires Valid(t)
    ensures Valid(t') && t'.nextId == t.nextId && t'.rows.Keys == t.rows.Keys && RetriesKept(t, t')
    ensures KeysUnique(t) ==> KeysUnique(t')
    ensures OnlyStatusTouched(t, t', Queued)
  {
    var emails := GetTenEmails(t);
    var plan := BatchPlan(emails, env);
    var t' := ApplyPlan(t, emails, plan, now);
    assert emails[..|plan|] == emails;
    assert forall k :: k in t.rows && t.rows[k].status != Queued ==> t'.rows[k] == t.rows[k] by {
      forall k | k in t.rows && t.rows[k].status != Queued ensures t'.rows[k] == t.rows[k] {
        ListedRowsHaveStatus(t, emails, Queued, k);
      }
    }
    t'
  }

  /** Rows no step of a cycle acts on: FAILED and DELIVERED. */
  predicate TerminalKept(t: Table, t': Table)
  {
    forall k :: k in t.rows && Terminal(t.rows[k].status) ==> k in t'.rows && t'.rows[k] == t.rows[k]
  }

  /** The housekeeping steps and the batch together keep terminal rows and retries. */
  lemma CycleFrame(t: Table, t1: Table, t2: Table)
    requires OnlyActiveTouched(t, t1) && OnlyStatusTouched(t1, t2, Queued)
    requires RetriesKept(t, t1) && RetriesKept(t1, t2)
    ensures TerminalKept(t, t2) && RetriesKept(t, t2)
  {
    forall k | k in t.rows && Terminal(t.rows[k].status) ensures k in t2.rows && t2.rows[k] == t.rows[k] {
      assert t1.rows[k] == t.rows[k];
    }
  }

  /** One turn of the loop. */
  function Cycle(s: State, env: Env, now: int): (s': State)
    requires Valid(s.table)
    ensures Valid(s'.table) && s'.table.nextId == s.table.nextId
    ensures s'.table.rows.Keys == s.table.rows.Keys && RetriesKept(s.table, s'.table)
    ensures KeysUnique(s.table) ==> KeysUnique(s'.table)
    ensures TerminalKept(s.table, s'.table)
    ensures s'.counters == NextCounters(s.counters)
  {
    var t := s.table;
    var t1 := Housekeeping(t, GatesOf(s.counters), env.query, now);
    var t2 := DispatchBatch(t1, env, now);
    CycleFrame(t, t1, t2);
    State(t2, NextCounters(s.counters))
  }

  /** A fetched row's updates, written out. */
  lemma BatchRowEffect(e: Job, env: Env, now: int)
    ensures env.send(e).Threw? ==>
      TransitAll(e, BatchSteps(e, env), now) == e.(status := Processing, updatedAt := now)
    ensures env.send(e).Returned? ==>
      TransitAll(e, BatchSteps(e, env), now) ==
        Transit(Transit(e, MarkProcessing, now), Dispatch(e, env.send(e).result, env.maxRetries), now)
  {
    var us := BatchSteps(e, env);
    assert us[1..] == [] || us[1..][1..] == [];
  }

  /** Each fetched row ends the batch as its own updates applied to it. */
  lemma DispatchBatchRows(t: Table, env: Env, now: int)
    requires Valid(t)
    ensures var emails, t' := GetTenEmails(t), DispatchBatch(t, env, now);
      && (forall i :: 0 <= i < |emails| ==>
            t'.rows[emails[i].id] == TransitAll(emails[i], BatchSteps(emails[i], env), now))
      && (forall k :: k in t.rows && k !in IdsOf(emails) ==> t'.rows[k] == t.rows[k])
  {
    var emails := GetTenEmails(t);
    var plan := BatchPlan(emails, env);
    ApplyPlanEffect(t, emails, plan, now);
    assert emails[..|plan|] == emails;
  }

  /**
   * Each fetched row is claimed and then carries the decision `sendEmail`
   * takes on the row as fetched; a row whose send threw stays claimed with
   * its count unchanged, and a row not fetched is not touched.
   */
  lemma DispatchBatchEffect(t: Table, env: Env, now: int)
    requires Valid(t)
    ensures var emails, t' := GetTenEmails(t), DispatchBatch(t, env, now);
      && (forall i :: 0 <= i < |emails| && env.send(emails[i]).Threw? ==>
            t'.rows[emails[i].id] == emails[i].(status := Processing, updatedAt := now))
      && (forall i :: 0 <= i < |emails| && env.send(emails[i]).Returned? ==>
            t'.rows[emails[i].id] ==
              Transit(Transit(emails[i], MarkProcessing, now),
                      Dispatch(emails[i], env.send(emails[i]).result, env.maxRetries), now))
      && (forall k :: k in t.rows && k !in IdsOf(emails) ==> t'.rows[k] == t.rows[k])
  {
    var emails, t' := GetTenEmails(t), DispatchBatch(t, env, now);
    DispatchBatchRows(t, env, now);
    forall i | 0 <= i < |emails| && env.send(emails[i]).Threw?
      ensures t'.rows[emails[i].id] == emails[i].(status := Processing, updatedAt := now)
    {
      BatchRowEffect(emails[i], env, now);
    }
    forall i | 0 <= i < |emails| && env.send(emails[i]).Returned?
      ensures t'.rows[emails[i].id] ==
        Transit(Transit(emails[i], MarkProcessing, now),
                Dispatch(emails[i], env.send(emails[i]).result, env.maxRetries), now)
    {
      BatchRowEffect(emails[i], env, now);
    }
  }

  /** The SENT sweep's verdict on a stale row survives the rest of the housekeeping. */
  lemma StaleSentFailedBeforeFetch(t: Table, g: Gates, query: string -> DeliveryResult, now: int, k: int)
    requires Valid(t) && g.sweepSent
    requires k in t.rows && Stale(t.rows[k], Sent, SentOlderThan, now)
    ensures var row := Housekeeping(t, g, query, now).rows[k];
      && row.status == Failed && row.errorMessage == Some(SentTimeoutMessage)
      && row.retries == t.rows[k].retries
  {
    var t1 := SweepSentStage(t, g.sweepSent, now);
    var t2 := SweepProcessingStage(t1, g.sweepProcessing, now);
    assert t1.rows[k].status == Failed;
    assert t2.rows[k] == t1.rows[k];
  }

  /**
   * On a cycle whose SENT sweep runs, a SENT row older than the threshold
   * ends the cycle FAILED with the timeout message.
   */
  lemma StaleSentTimesOut(s: State, env: Env, now: int, k: int)
    requires Valid(s.table) && GatesOf(s.counters).sweepSent
    requires k in s.table.rows && Stale(s.table.rows[k], Sent, SentOlderThan, now)
    ensures var row := Cycle(s, env, now).table.rows[k];
      && row.status == Failed && row.errorMessage == Some(SentTimeoutMessage)
      && row.retries == s.table.rows[k].retries
  {
    var t1 := Housekeeping(s.table, GatesOf(s.counters), env.query, now);
    var t2 := DispatchBatch(t1, env, now);
    assert Cycle(s, env, now).table == t2;
    StaleSentFailedBeforeFetch(s.table, GatesOf(s.counters), env.query, now, k);
    assert t1.rows[k].status != Queued;
    assert t2.rows[k] == t1.rows[k];
  }

  /**
   * On a cycle whose PROCESSING sweep runs, a row stuck in PROCESSING for
   * longer than the threshold is back in QUEUED before the fetch, with its
   * count unchanged.
   */
  lemma StuckProcessingRequeued(t: Table, g: Gates, query: string -> DeliveryResult, now: int, k: int)
    requires Valid(t) && g.sweepProcessing
    requires k in t.rows && Stale(t.rows[k], Processing, ProcessingOlderThan, now)
    ensures var row := Housekeeping(t, g, query, now).rows[k];
      row.status == Queued && row.retries == t.rows[k].retries && row.updatedAt == now
  {
    var t1 := SweepSentStage(t, g.sweepSent, now);
    var t2 := SweepProcessingStage(t1, g.sweepProcessing, now);
    var t3 := CheckStage(t2, g.checkDelivery, query, now);
    assert t1.rows[k] == t.rows[k];
    assert t2.rows[k].status == Queued;
    assert t3.rows[k] == t2.rows[k];
  }

  /** With no send throwing, no fetched row is left claimed at the end of the batch. */
  lemma NoThrowLeavesNoClaim(t: Table, env: Env, now: int)
    requires Valid(t)
    requires forall e :: env.send(e).Returned?
    ensures var emails, t' := GetTenEmails(t), DispatchBatch(t, env, now);
      forall i :: 0 <= i < |emails| ==> t'.rows[emails[i].id].status in {Sent, Queued, Failed}
  {
    DispatchBatchEffect(t, env, now);
  }
}
