/**
 * The emails table and the repository operations on it. Each SQL statement
 * becomes a pure function from table to table (plus its result); the clock
 * `NOW()` is the parameter `now`, in seconds.
 */
module Store {
  import opened Options
  import opened Statuses

  /** One row of the emails table. */
  datatype Job = Job(
    id: int,
    idempotencyKey: string,
    email: string,
    subject: string,
    body: string,
    status: Status,
    retries: nat,
    provider: Option<string>,
    messageId: Option<string>,
    errorMessage: Option<string>,
    updatedAt: int)

  /** The rows by primary key, and the next AUTO_INCREMENT value. */
  datatype Table = Table(rows: map<int, Job>, nextId: int)

  /** Keys are issued by AUTO_INCREMENT from 1, and each row knows its key. */
  predicate Valid(t: Table)
  {
    && 1 <= t.nextId
    && forall k :: k in t.rows ==> 1 <= k < t.nextId && t.rows[k].id == k
  }

  /** The unique constraint on `idempotency_key`. */
  predicate KeysUnique(t: Table)
  {
    forall a, b :: a in t.rows && b in t.rows && a != b ==>
      t.rows[a].idempotencyKey != t.rows[b].idempotencyKey
  }

  /** `j` is, unchanged, the row stored under its own id. */
  predicate InTable(t: Table, j: Job)
  {
    j.id in t.rows && t.rows[j.id] == j
  }

  /** The columns written only by the INSERT. */
  predicate SamePayload(a: Job, b: Job)
  {
    && a.id == b.id
    && a.idempotencyKey == b.idempotencyKey
    && a.email == b.email
    && a.subject == b.subject
    && a.body == b.body
  }

  /** Every row is still there and has not lost retries. */
  predicate RetriesKept(t: Table, t': Table)
  {
    && t.rows.Keys <= t'.rows.Keys
    && forall k :: k in t.rows ==> t.rows[k].retries <= t'.rows[k].retries
  }

  /** The single-row UPDATE statements of the repository. */
  datatype Update =
    | MarkSent(provider: Option<string>, messageId: Option<string>)
    | MarkFailed(error: string, provider: Option<string>, messageId: Option<string>)
    | MarkQueued
    | MarkProcessing
    | MarkDelivered

  /** The status an update writes. */
  function Target(u: Update): Status
  {
    match u
    case MarkSent(_, _) => Sent
    case MarkFailed(_, _, _) => Failed
    case MarkQueued => Queued
    case MarkProcessing => Processing
    case MarkDelivered => Delivered
  }

  /** The SET clause of an update, applied to one row whatever its status. */
  function Transit(j: Job, u: Update, now: int): (j': Job)
    ensures SamePayload(j, j')
    ensures j'.status == Target(u) && j'.updatedAt == now
    ensures j.retries <= j'.retries <= j.retries + 1
  {
    match u
    case MarkSent(p, m) =>
      j.(status := Sent, updatedAt := now, retries := j.retries + 1,
         provider := p, messageId := m)
    case MarkFailed(e, p, m) =>
      j.(status := Failed, updatedAt := now, retries := j.retries + 1,
         errorMessage := Some(e), provider := p, messageId := m)
    case MarkQueued =>
      j.(status := Queued, updatedAt := now, retries := j.retries + 1)
    case MarkProcessing =>
      j.(status := Processing, updatedAt := now)
    case MarkDelivered =>
      j.(status := Delivered, updatedAt := now)
  }

  /** `UPDATE ... WHERE id = ?`: no row matches an unknown id. */
  function Apply(t: Table, id: int, u: Update, now: int): (t': Table)
    ensures t'.nextId == t.nextId && t'.rows.Keys == t.rows.Keys
    ensures forall k :: k in t.rows && k != id ==> t'.rows[k] == t.rows[k]
    ensures id in t.rows ==> t'.rows[id] == Transit(t.rows[id], u, now)
    ensures Valid(t) ==> Valid(t')
    ensures KeysUnique(t) ==> KeysUnique(t')
    ensures RetriesKept(t, t')
  {
    if id in t.rows then t.(rows := t.rows[id := Transit(t.rows[id], u, now)])
    else t
  }

  /** Nothing but row `id` differs between the two tables. */
  predicate OnlyRowChanged(t: Table, t': Table, id: int)
  {
    && t'.nextId == t.nextId
    && t'.rows.Keys == t.rows.Keys
    && (id !in t.rows ==> t' == t)
    && forall k :: k in t.rows && k != id ==> t'.rows[k] == t.rows[k]
  }

  function SetSent(t: Table, id: int, provider: Option<string>, messageId: Option<string>, now: int): (t': Table)
    ensures OnlyRowChanged(t, t', id)
    ensures id in t.rows ==>
      var j, j' := t.rows[id], t'.rows[id];
      && SamePayload(j, j')
      && j'.status == Sent
      && j'.retries == j.retries + 1
      && j'.provider == provider
      && j'.messageId == messageId
      && j'.updatedAt == now
      && j'.errorMessage == j.errorMessage
  {
    Apply(t, id, MarkSent(provider, messageId), now)
  }

  /** The optional arguments default to null and overwrite the columns. */
  function SetFailed(t: Table, id: int, error: string, now: int,
                     provider: Option<string> := None, messageId: Option<string> := None): (t': Table)
    ensures OnlyRowChanged(t, t', id)
    ensures id in t.rows ==>
      var j, j' := t.rows[id], t'.rows[id];
      && SamePayload(j, j')
      && j'.status == Failed
      && j'.retries == j.retries + 1
      && j'.errorMessage == Some(error)
      && j'.provider == provider
      && j'.messageId == messageId
      && j'.updatedAt == now
  {
    Apply(t, id, MarkFailed(error, provider, messageId), now)
  }

  function SetQueued(t: Table, id: int, now: int): (t': Table)
    ensures OnlyRowChanged(t, t', id)
    ensures id in t.rows ==>
      var j, j' := t.rows[id], t'.rows[id];
      && SamePayload(j, j')
      && j'.status == Queued
      && j'.retries == j.retries + 1
      && j'.errorMessage == j.errorMessage
      && j'.provider == j.provider
      && j'.messageId == j.messageId
      && j'.updatedAt == now
  {
    Apply(t, id, MarkQueued, now)
  }

  function SetProcessing(t: Table, id: int, now: int): (t': Table)
    ensures OnlyRowChanged(t, t', id)
    ensures id in t.rows ==>
      t'.rows[id] == t.rows[id].(status := Processing, updatedAt := now)
  {
    Apply(t, id, MarkProcessing, now)
  }

  function SetDelivered(t: Table, id: int, now: int): (t': Table)
    ensures OnlyRowChanged(t, t', id)
    ensures id in t.rows ==>
      t'.rows[id] == t.rows[id].(status := Delivered, updatedAt := now)
  {
    Apply(t, id, MarkDelivered, now)
  }

  /**
   * No UPDATE reads the current status: the row an update produces is the
   * same whatever status the row had, terminal ones included.
   */
  lemma UpdatesIgnoreStatus(t: Table, id: int, u: Update, now: int, s: Status)
    requires id in t.rows
    ensures var t0 := t.(rows := t.rows[id := t.rows[id].(status := s)]);
      Apply(t0, id, u, now).rows[id] == Apply(t, id, u, now).rows[id]
  {
  }

  /** A FAILED row goes back to QUEUED, and a DELIVERED one to PROCESSING. */
  lemma TerminalRowsAreNotGuarded(t: Table, id: int, now: int)
    requires id in t.rows && Terminal(t.rows[id].status)
    ensures SetQueued(t, id, now).rows[id].status == Queued
    ensures SetProcessing(t, id, now).rows[id].status == Processing
  {
  }

  /**
   * The result of `addEmail`: the new table and `lastInsertId()`, or the
   * exception the unique constraint on `idempotency_key` raises.
   */
  datatype Inserted = Inserted(table: Table, id: int) | DuplicateKey

  /** Some row already carries `key`. */
  predicate HasKey(t: Table, key: string)
  {
    exists k :: k in t.rows && t.rows[k].idempotencyKey == key
  }

  /** INSERT of a new QUEUED row; a key already present is rejected. */
  function AddEmail(t: Table, email: string, subject: string, body: string,
                    idempotencyKey: string, now: int): (r: Inserted)
    requires Valid(t)
    ensures r.DuplicateKey? <==> HasKey(t, idempotencyKey)
    ensures r.Inserted? ==>
      && Valid(r.table)
      && (KeysUnique(t) ==> KeysUnique(r.table))
      && r.id !in t.rows && r.table.rows.Keys == t.rows.Keys + {r.id}
      && (forall k :: k in t.rows ==> r.table.rows[k] == t.rows[k])
      && var j := r.table.rows[r.id];
        && j.idempotencyKey == idempotencyKey
        && j.email == email && j.subject == subject && j.body == body
        && j.status == Queued && j.retries == 0
        && j.provider == None && j.messageId == None && j.errorMessage == None
        && j.updatedAt == now
  {
    if HasKey(t, idempotencyKey) then DuplicateKey
    else
      var id := t.nextId;
      var j := Job(id, idempotencyKey, email, subject, body, Queued, 0, None, None, None, now);
      Inserted(Table(t.rows[id := j], id + 1), id)
  }

  /** A second enqueue with the same key fails and leaves exactly one row with it. */
  lemma EnqueueTwice(t: Table, key: string, now: int)
    requires Valid(t) && KeysUnique(t) && !HasKey(t, key)
    ensures var r := AddEmail(t, "a", "s", "b", key, now);
      && r.Inserted?
      && AddEmail(r.table, "c", "t", "d", key, now).DuplicateKey?
      && forall k :: k in r.table.rows && r.table.rows[k].idempotencyKey == key ==> k == r.id
  {
    var r := AddEmail(t, "a", "s", "b", key, now);
    assert r.table.rows[r.id].idempotencyKey == key;
  }

  /** The ids of a list of rows. */
  function IdsOf(s: seq<Job>): set<int>
  {
    set j | j in s :: j.id
  }

  predicate DistinctIds(s: seq<Job>)
  {
    forall i, j :: 0 <= i < j < |s| ==> s[i].id != s[j].id
  }

  /** The rows with status `st` and id at least `lo`, in ascending id order. */
  function Select(t: Table, st: Status, lo: int): (r: seq<Job>)
    requires Valid(t)
    decreases t.nextId - lo
    ensures forall i :: 0 <= i < |r| ==> InTable(t, r[i]) && r[i].status == st && lo <= r[i].id
    ensures forall i, j :: 0 <= i < j < |r| ==> r[i].id < r[j].id
    ensures forall k :: lo <= k && k in t.rows && t.rows[k].status == st ==> t.rows[k] in r
  {
    if lo >= t.nextId then []
    else if lo in t.rows && t.rows[lo].status == st then [t.rows[lo]] + Select(t, st, lo + 1)
    else Select(t, st, lo + 1)
  }

  const FetchLimit := 10

  /**
   * `SELECT * WHERE status = 'queued' LIMIT 10`. The statement has no
   * ORDER BY; the model takes the queued rows in primary-key order.
   */
  function GetTenEmails(t: Table): (r: seq<Job>)
    requires Valid(t)
    ensures |r| <= FetchLimit
    ensures forall i :: 0 <= i < |r| ==> InTable(t, r[i]) && r[i].status == Queued
    ensures DistinctIds(r)
    ensures |r| < FetchLimit ==>
      forall k :: k in t.rows && t.rows[k].status == Queued ==> t.rows[k] in r
  {
    var all := Select(t, Queued, 1);
    if |all| <= FetchLimit then all else all[..FetchLimit]
  }

  predicate SortedByUpdate(s: seq<Job>)
  {
    forall i, j :: 0 <= i < j < |s| ==> s[i].updatedAt <= s[j].updatedAt
  }

  /** Prepending a row no later than every other keeps the order. */
  lemma SortedCons(h: Job, s: seq<Job>)
    requires SortedByUpdate(s)
    requires forall y :: y in s ==> h.updatedAt <= y.updatedAt
    ensures SortedByUpdate([h] + s)
  {
    var r := [h] + s;
    forall i, j | 0 <= i < j < |r| ensures r[i].updatedAt <= r[j].updatedAt {
      if i == 0 {
        assert r[j] == s[j - 1];
        assert r[j] in s;
      } else {
        assert r[i] == s[i - 1] && r[j] == s[j - 1];
      }
    }
  }

  function InsertByUpdate(x: Job, s: seq<Job>): (r: seq<Job>)
    requires SortedByUpdate(s)
    ensures SortedByUpdate(r)
    ensures |r| == |s| + 1
    ensures forall y :: y in r <==> y == x || y in s
    decreases |s|
  {
    if s == [] || x.updatedAt <= s[0].updatedAt then
      assert forall y :: y in s ==> x.updatedAt <= y.updatedAt by {
        forall y | y in s ensures x.updatedAt <= y.updatedAt {
          var i :| 0 <= i < |s| && s[i] == y;
          assert s[0].updatedAt <= s[i].updatedAt;
        }
      }
      SortedCons(x, s);
      [x] + s
    else
      var tail := s[1..];
      assert s == [s[0]] + tail;
      var rest := InsertByUpdate(x, tail);
      assert forall y :: y in tail ==> s[0].updatedAt <= y.updatedAt by {
        forall y | y in tail ensures s[0].updatedAt <= y.updatedAt {
          var i :| 0 <= i < |tail| && tail[i] == y;
          assert s[i + 1] == y;
        }
      }
      SortedCons(s[0], rest);
      [s[0]] + rest
  }

  /** Insertion sort by `updated_at`; rows with equal timestamps keep their order. */
  function SortByUpdate(s: seq<Job>): (r: seq<Job>)
    ensures SortedByUpdate(r)
    ensures |r| == |s|
    ensures forall y :: y in r <==> y in s
    decreases |s|
  {
    if s == [] then []
    else
      assert s == [s[0]] + s[1..];
      InsertByUpdate(s[0], SortByUpdate(s[1..]))
  }

  /** Insertion adds exactly one occurrence of the new row. */
  lemma {:induction false} InsertPermutes(x: Job, s: seq<Job>)
    requires SortedByUpdate(s)
    ensures multiset(InsertByUpdate(x, s)) == multiset(s) + multiset{x}
    decreases |s|
  {
    if s != [] && x.updatedAt > s[0].updatedAt {
      assert s == [s[0]] + s[1..];
      InsertPermutes(x, s[1..]);
    }
  }

  /** The sort is a permutation of its input. */
  lemma {:induction false} SortPermutes(s: seq<Job>)
    ensures multiset(SortByUpdate(s)) == multiset(s)
    decreases |s|
  {
    if s != [] {
      assert s == [s[0]] + s[1..];
      SortPermutes(s[1..]);
      InsertPermutes(s[0], SortByUpdate(s[1..]));
    }
  }

  /** Prepending a row whose id the list lacks keeps ids distinct. */
  lemma ConsDistinct(h: Job, s: seq<Job>)
    requires DistinctIds(s)
    requires forall y :: y in s ==> y.id != h.id
    ensures DistinctIds([h] + s)
  {
    var r := [h] + s;
    forall i, j | 0 <= i < j < |r| ensures r[i].id != r[j].id {
      if i == 0 {
        assert r[j] == s[j - 1];
      } else {
        assert r[i] == s[i - 1] && r[j] == s[j - 1];
      }
    }
  }

  /** The ids of a list's tail avoid the id of its head. */
  lemma TailAvoidsHead(s: seq<Job>)
    requires DistinctIds(s) && s != []
    ensures DistinctIds(s[1..])
    ensures forall y :: y in s[1..] ==> y.id != s[0].id
  {
    var tail := s[1..];
    forall y | y in tail ensures y.id != s[0].id {
      var m :| 0 <= m < |tail| && tail[m] == y;
      assert s[m + 1] == y;
    }
  }

  lemma {:induction false} InsertKeepsDistinct(x: Job, s: seq<Job>)
    requires SortedByUpdate(s) && DistinctIds(s)
    requires forall y :: y in s ==> y.id != x.id
    ensures DistinctIds(InsertByUpdate(x, s))
    decreases |s|
  {
    if s == [] || x.updatedAt <= s[0].updatedAt {
      ConsDistinct(x, s);
    } else {
      var tail := s[1..];
      assert s == [s[0]] + tail;
      TailAvoidsHead(s);
      InsertKeepsDistinct(x, tail);
      var rest := InsertByUpdate(x, tail);
      assert forall y :: y in rest ==> y.id != s[0].id;
      ConsDistinct(s[0], rest);
    }
  }

  lemma {:induction false} SortKeepsDistinct(s: seq<Job>)
    requires DistinctIds(s)
    ensures DistinctIds(SortByUpdate(s))
    decreases |s|
  {
    if s != [] {
      var tail := s[1..];
      TailAvoidsHead(s);
      SortKeepsDistinct(tail);
      InsertKeepsDistinct(s[0], SortByUpdate(tail));
    }
  }

  /** `SELECT ... WHERE status = 'sent' ORDER BY updated_at ASC`. */
  function GetSentEmails(t: Table): (r: seq<Job>)
    requires Valid(t)
    ensures SortedByUpdate(r) && DistinctIds(r)
    ensures forall i :: 0 <= i < |r| ==> InTable(t, r[i]) && r[i].status == Sent
    ensures forall k :: k in t.rows && t.rows[k].status == Sent ==> t.rows[k] in r
  {
    var sent := Select(t, Sent, 1);
    SortKeepsDistinct(sent);
    var r := SortByUpdate(sent);
    assert forall i :: 0 <= i < |r| ==> InTable(t, r[i]) && r[i].status == Sent by {
      forall i | 0 <= i < |r| ensures InTable(t, r[i]) && r[i].status == Sent {
        assert r[i] in sent;
        var m :| 0 <= m < |sent| && sent[m] == r[i];
      }
    }
    r
  }

  /** The result of a sweep: the new table and `rowCount()`. */
  datatype Swept = Swept(table: Table, count: nat)

  /** `status = ? AND updated_at < DATE_SUB(NOW(), INTERVAL ? SECOND)` */
  predicate Stale(j: Job, st: Status, timeoutSeconds: int, now: int)
  {
    j.status == st && j.updatedAt < now - timeoutSeconds
  }

  function StaleIds(t: Table, st: Status, timeoutSeconds: int, now: int): set<int>
  {
    set k | k in t.rows && Stale(t.rows[k], st, timeoutSeconds, now)
  }

  /** The ids whose row differs in status between two tables. */
  function StatusChanged(t: Table, t': Table): set<int>
    requires t.rows.Keys <= t'.rows.Keys
  {
    set k | k in t.rows && t'.rows[k].status != t.rows[k].status
  }

  const DefaultProcessingTimeout := 60
  const DefaultSentTimeout := 9000
  const SentTimeoutMessage := "Automatic set failed! Timed out waiting for delivery confirmation!"

  /** Stale PROCESSING rows back to QUEUED; `retries` is not touched. */
  function CleanupProcessing(t: Table, now: int, timeoutSeconds: int := DefaultProcessingTimeout): (r: Swept)
    ensures r.table.nextId == t.nextId && r.table.rows.Keys == t.rows.Keys
    ensures forall k :: k in t.rows ==>
      r.table.rows[k] ==
        if Stale(t.rows[k], Processing, timeoutSeconds, now)
        then t.rows[k].(status := Queued, updatedAt := now)
        else t.rows[k]
    ensures r.count == |StatusChanged(t, r.table)|
    ensures Valid(t) ==> Valid(r.table)
    ensures KeysUnique(t) ==> KeysUnique(r.table)
  {
    var stale := StaleIds(t, Processing, timeoutSeconds, now);
    var t' := t.(rows := map k | k in t.rows ::
      if k in stale then t.rows[k].(status := Queued, updatedAt := now) else t.rows[k]);
    assert forall k :: k in StatusChanged(t, t') <==> k in stale;
    assert StatusChanged(t, t') == stale;
    Swept(t', |stale|)
  }

  /** Stale SENT rows to FAILED with a fixed message; `retries` is not touched. */
  function CleanupSent(t: Table, now: int, timeoutSeconds: int := DefaultSentTimeout): (r: Swept)
    ensures r.table.nextId == t.nextId && r.table.rows.Keys == t.rows.Keys
    ensures forall k :: k in t.rows ==>
      r.table.rows[k] ==
        if Stale(t.rows[k], Sent, timeoutSeconds, now)
        then t.rows[k].(status := Failed, errorMessage := Some(SentTimeoutMessage), updatedAt := now)
        else t.rows[k]
    ensures r.count == |StatusChanged(t, r.table)|
    ensures Valid(t) ==> Valid(r.table)
    ensures KeysUnique(t) ==> KeysUnique(r.table)
  {
    var stale := StaleIds(t, Sent, timeoutSeconds, now);
    var t' := t.(rows := map k | k in t.rows ::
      if k in stale then t.rows[k].(status := Failed, errorMessage := Some(SentTimeoutMessage), updatedAt := now)
      else t.rows[k]);
    assert forall k :: k in StatusChanged(t, t') <==> k in stale;
    assert StatusChanged(t, t') == stale;
    Swept(t', |stale|)
  }

  /** A second PROCESSING sweep at the same instant finds nothing. */
  lemma CleanupProcessingIdempotent(t: Table, timeoutSeconds: int, now: int)
    ensures var r := CleanupProcessing(t, now, timeoutSeconds);
      CleanupProcessing(r.table, now, timeoutSeconds) == Swept(r.table, 0)
  {
    var r := CleanupProcessing(t, now, timeoutSeconds);
    var r2 := CleanupProcessing(r.table, now, timeoutSeconds);
    assert StaleIds(r.table, Processing, timeoutSeconds, now) == {};
    assert r2.table.rows == r.table.rows;
  }

  /** A second SENT sweep at the same instant finds nothing. */
  lemma CleanupSentIdempotent(t: Table, timeoutSeconds: int, now: int)
    ensures var r := CleanupSent(t, now, timeoutSeconds);
      CleanupSent(r.table, now, timeoutSeconds) == Swept(r.table, 0)
  {
    var r := CleanupSent(t, now, timeoutSeconds);
    var r2 := CleanupSent(r.table, now, timeoutSeconds);
    assert StaleIds(r.table, Sent, timeoutSeconds, now) == {};
    assert r2.table.rows == r.table.rows;
  }

  /** Applies a list of updates to one row, in order. */
  function TransitAll(j: Job, us: seq<Update>, now: int): (j': Job)
    ensures SamePayload(j, j')
    ensures j.retries <= j'.retries
    ensures us == [] ==> j' == j
    ensures us != [] ==> j'.status == Target(us[|us| - 1])
    decreases |us|
  {
    if us == [] then j else TransitAll(Transit(j, us[0], now), us[1..], now)
  }

  /**
   * A pass over a list of rows: the i-th row receives the updates `plan[i]`,
   * rows in list order. A plan shorter than the list leaves the tail alone.
   */
  function ApplyPlan(t: Table, jobs: seq<Job>, plan: seq<seq<Update>>, now: int): (t': Table)
    requires |plan| <= |jobs|
    ensures t'.nextId == t.nextId && t'.rows.Keys == t.rows.Keys
    ensures forall k :: k in t.rows && k !in IdsOf(jobs[..|plan|]) ==> t'.rows[k] == t.rows[k]
    ensures Valid(t) ==> Valid(t')
    ensures KeysUnique(t) ==> KeysUnique(t')
    ensures RetriesKept(t, t')
    decreases |plan|
  {
    if plan == [] then t
    else
      var t1 := ApplyUpdates(t, jobs[0].id, plan[0], now);
      var t' := ApplyPlan(t1, jobs[1..], plan[1..], now);
      assert jobs[..|plan|] == [jobs[0]] + jobs[1..][..|plan| - 1];
      IdsOfCons(jobs[0], jobs[1..][..|plan| - 1]);
      t'
  }

  lemma IdsOfCons(j: Job, s: seq<Job>)
    ensures IdsOf([j] + s) == {j.id} + IdsOf(s)
  {
    assert forall x :: x in [j] + s <==> x == j || x in s;
  }

  /** Applies a list of updates to row `id`, in order. */
  function ApplyUpdates(t: Table, id: int, us: seq<Update>, now: int): (t': Table)
    ensures t'.nextId == t.nextId && t'.rows.Keys == t.rows.Keys
    ensures forall k :: k in t.rows && k != id ==> t'.rows[k] == t.rows[k]
    ensures id in t.rows ==> t'.rows[id] == TransitAll(t.rows[id], us, now)
    ensures Valid(t) ==> Valid(t')
    ensures KeysUnique(t) ==> KeysUnique(t')
    ensures RetriesKept(t, t')
    decreases |us|
  {
    if us == [] then t else ApplyUpdates(Apply(t, id, us[0], now), id, us[1..], now)
  }

  /** A list with distinct ids: a row outside a prefix is not among the prefix's ids. */
  lemma PrefixExcludes(jobs: seq<Job>, n: int, i: int)
    requires DistinctIds(jobs) && 0 <= n <= i < |jobs|
    ensures jobs[i].id !in IdsOf(jobs[..n])
  {
    forall y | y in jobs[..n] ensures y.id != jobs[i].id {
      var m :| 0 <= m < n && jobs[..n][m] == y;
      assert jobs[m] == y;
    }
  }

  /** The first listed row, after the whole pass, carries its own updates. */
  lemma ApplyPlanHead(t: Table, jobs: seq<Job>, plan: seq<seq<Update>>, now: int)
    requires 0 < |plan| <= |jobs| && DistinctIds(jobs) && jobs[0].id in t.rows
    ensures ApplyPlan(t, jobs, plan, now).rows[jobs[0].id] == TransitAll(t.rows[jobs[0].id], plan[0], now)
  {
    var t1 := ApplyUpdates(t, jobs[0].id, plan[0], now);
    var rest := jobs[1..];
    assert jobs[0].id !in IdsOf(rest[..|plan| - 1]) by {
      forall y | y in rest[..|plan| - 1] ensures y.id != jobs[0].id {
        var m :| 0 <= m < |plan| - 1 && rest[..|plan| - 1][m] == y;
        assert jobs[m + 1] == y;
      }
    }
    assert ApplyPlan(t, jobs, plan, now) == ApplyPlan(t1, rest, plan[1..], now);
  }

  /** One listed row after the pass: its own updates if the plan reaches it, else unchanged. */
  lemma {:induction false} ApplyPlanRow(t: Table, jobs: seq<Job>, plan: seq<seq<Update>>, now: int, i: int)
    requires |plan| <= |jobs| && DistinctIds(jobs)
    requires 0 <= i < |jobs| && jobs[i].id in t.rows
    ensures ApplyPlan(t, jobs, plan, now).rows[jobs[i].id] ==
      if i < |plan| then TransitAll(t.rows[jobs[i].id], plan[i], now) else t.rows[jobs[i].id]
    decreases |plan|
  {
    if |plan| <= i {
      PrefixExcludes(jobs, |plan|, i);
    } else if i == 0 {
      ApplyPlanHead(t, jobs, plan, now);
    } else {
      var t1 := ApplyUpdates(t, jobs[0].id, plan[0], now);
      var rest := jobs[1..];
      assert DistinctIds(rest);
      assert rest[i - 1] == jobs[i];
      assert jobs[i].id != jobs[0].id;
      assert t1.rows[jobs[i].id] == t.rows[jobs[i].id];
      ApplyPlanRow(t1, rest, plan[1..], now, i - 1);
      assert ApplyPlan(t, jobs, plan, now) == ApplyPlan(t1, rest, plan[1..], now);
    }
  }

  /**
   * With distinct ids in the list, each listed row ends up as its own
   * updates applied to its row at the start of the pass, and a row past
   * the end of the plan is left as it was.
   */
  lemma ApplyPlanEffect(t: Table, jobs: seq<Job>, plan: seq<seq<Update>>, now: int)
    requires |plan| <= |jobs| && DistinctIds(jobs)
    ensures var t' := ApplyPlan(t, jobs, plan, now);
      forall i :: 0 <= i < |jobs| && jobs[i].id in t.rows ==>
        t'.rows[jobs[i].id] ==
          if i < |plan| then TransitAll(t.rows[jobs[i].id], plan[i], now) else t.rows[jobs[i].id]
  {
    forall i | 0 <= i < |jobs| && jobs[i].id in t.rows {
      ApplyPlanRow(t, jobs, plan, now, i);
    }
  }
}
