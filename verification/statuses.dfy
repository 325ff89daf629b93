/** The job status enumeration and its string codes. */
module Statuses {
  import opened Options

  /** The five cases of the `StatusCode` enum. */
  datatype Status = Queued | Processing | Sent | Delivered | Failed

  /** The backing value of each enum case, as stored in the status column. */
  function Code(s: Status): (c: string)
    ensures |c| > 0
  {
    match s
    case Queued => "queued"
    case Processing => "processing"
    case Sent => "sent"
    case Delivered => "delivered"
    case Failed => "failed"
  }

  /** `StatusCode::tryFrom`: the case whose backing value is `c`, if any. */
  function FromCode(c: string): Option<Status>
  {
    if c == "queued" then Some(Queued)
    else if c == "processing" then Some(Processing)
    else if c == "sent" then Some(Sent)
    else if c == "delivered" then Some(Delivered)
    else if c == "failed" then Some(Failed)
    else None
  }

  /** Every case reads back from its code, and only codes of cases read back. */
  lemma CodeRoundTrip(s: Status, c: string)
    ensures FromCode(Code(s)) == Some(s)
    ensures FromCode(c).Some? ==> Code(FromCode(c).value) == c
  {
  }

  /** The statuses no automated step is meant to leave. */
  predicate Terminal(s: Status)
  {
    s == Delivered || s == Failed
  }
}
