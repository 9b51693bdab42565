/** One webhook delivery (internal/services/webhook_service.go): the attempt budget, the
    backoff between attempts, and the row that follows the delivery to its one terminal
    status.  Times are nanoseconds; what the network, the database and the clock answer
    is a parameter of the delivery.  Writes of the row are taken to succeed.
  */
module Webhook {
  import opened Wrappers

  const SECOND: int := 1_000_000_000
  const MAX_RETRY_DELAY: int := 300 * SECOND
  const DEADLINE: int := 600 * SECOND
  const DEFAULT_ATTEMPTS := 3
  const MAX_ATTEMPTS := 10

  function ClampAttempts(retryCount: int): (attempts: int)
    ensures 1 <= attempts <= 10
    ensures 1 <= retryCount <= 10 ==> attempts == retryCount
    ensures retryCount < 1 ==> attempts == 3
    ensures retryCount > 10 ==> attempts == 10
  {
    if retryCount < 1 then DEFAULT_ATTEMPTS
    else if retryCount > MAX_ATTEMPTS then MAX_ATTEMPTS
    else retryCount
  }

  // -------------------------------------------------------------------- the backoff

  function Pow5(n: nat): int {
    if n == 0 then 1 else 5 * Pow5(n - 1)
  }

  /** The promised wait after the n-th attempt: five to the n-1 seconds, at most five minutes. */
  function Promise(attempt: int): int {
    var d := Pow5(if attempt < 1 then 0 else attempt - 1) * SECOND;
    if d < MAX_RETRY_DELAY then d else MAX_RETRY_DELAY
  }

  lemma {:induction false} Pow5Grows(n: nat, k: nat)
    requires n <= k
    ensures 1 <= Pow5(n) <= Pow5(k)
    decreases k
  {
    if n < k {
      Pow5Grows(n, k - 1);
    } else if n > 0 {
      Pow5Grows(n - 1, k - 1);
    }
  }

  /** Repeated multiplication by five in 64-bit nanoseconds, which never overflows. */
  method RetryDelay(attempt: int) returns (d: int64)
    ensures d as int == Promise(attempt)
  {
    d := 1_000_000_000;
    var i := 1;
    while i < attempt
      invariant 1 <= i && (i <= attempt || i == 1)
      invariant 0 < d && d as int == Pow5(i - 1) * SECOND < MAX_RETRY_DELAY
      decreases attempt - i
    {
      d := d * 5;
      if d >= 300_000_000_000 {
        Pow5Grows(i, attempt - 1);
        return 300_000_000_000;
      }
      i := i + 1;
    }
  }

  /** One second after the first attempt, five times longer after each further one, at most
      five minutes. */
  lemma PromiseGrows(attempt: int)
    ensures attempt <= 1 ==> Promise(attempt) == 1_000_000_000
    ensures attempt >= 1 ==>
              Promise(attempt + 1) == if 5 * Promise(attempt) < 300_000_000_000 then 5 * Promise(attempt)
                                      else 300_000_000_000
  {
    Pow5Grows(0, if attempt < 1 then 0 else attempt - 1);
  }

  // Time spent in the waits before the given attempt.
  function Waited(attempt: nat): int {
    if attempt <= 1 then 0 else Waited(attempt - 1) + Promise(attempt - 1)
  }

  /** Six attempts need 456 seconds of waiting and the seventh 756, past the deadline. */
  lemma WaitsAddUp()
    ensures Waited(6) == 456_000_000_000 && Waited(7) == 756_000_000_000 > DEADLINE == 600_000_000_000
  {
    assert Pow5(1) == 5 && Pow5(2) == 25 && Pow5(3) == 125 && Pow5(4) == 625 && Pow5(5) == 3125;
    assert Promise(1) == 1 * SECOND && Promise(2) == 5 * SECOND && Promise(3) == 25 * SECOND
        && Promise(4) == 125 * SECOND;
    assert Waited(2) == 1 * SECOND;
    assert Waited(3) == 6 * SECOND;
    assert Waited(4) == 31 * SECOND;
    assert Waited(5) == 156 * SECOND;
  }

  lemma {:induction false} WaitedGrows(n: nat, k: nat)
    requires n <= k
    ensures Waited(n) <= Waited(k)
    decreases k
  {
    if n < k {
      WaitedGrows(n, k - 1);
      Pow5Grows(0, if k - 1 < 1 then 0 else k - 2);
    }
  }

  /** The waits before an attempt fit the deadline exactly up to the sixth. */
  lemma SixFit(attempt: nat)
    ensures Waited(attempt) <= 600_000_000_000 <==> attempt <= 6
  {
    WaitsAddUp();
    if attempt <= 6 {
      WaitedGrows(attempt, 6);
    } else {
      WaitedGrows(7, attempt);
    }
    hide Waited;
  }

  // When the n-th attempt would start at the earliest: every wait and every answer before it.
  function StartOf(turns: nat -> Turn, start: int, n: nat): int {
    if n <= 1 then start else StartOf(turns, start, n - 1) + turns(n - 1).took + Promise(n - 1)
  }

  // ------------------------------------------------------------------- the delivery

  datatype Status = Pending | Success | Failed

  datatype Row = Row(status: Status, attemptNumber: int, httpStatus: Option<int>, success: bool)

  // What happens around one attempt: whether the webhook is still there and active, how
  // the receiver answers and after how long, and which of two simultaneous events the
  // wait after it sees.
  datatype Turn = Turn(active: bool, ok: bool, httpStatus: int, took: nat, tie: bool)

  // All writes but the last leave the row pending; the last is terminal.
  ghost predicate OneTerminal(writes: seq<Status>, last: Status) {
    && |writes| > 0 && writes[|writes| - 1] == last && !last.Pending?
    && forall i :: 0 <= i < |writes| - 1 ==> writes[i].Pending?
  }

  ghost predicate AllPending(writes: seq<Status>) {
    forall i :: 0 <= i < |writes| ==> writes[i].Pending?
  }

  // The first n turns found the webhook active and were refused.
  ghost predicate AllFailed(turns: nat -> Turn, n: nat) {
    forall k :: 1 <= k <= n ==> !turns(k).ok && turns(k).active
  }

  lemma OneMoreFailed(turns: nat -> Turn, n: nat)
    requires AllFailed(turns, n) && !turns(n + 1).ok && turns(n + 1).active
    ensures AllFailed(turns, n + 1)
  {
  }

  ghost predicate OnSchedule(waits: seq<int>) {
    forall k :: 0 <= k < |waits| ==> waits[k] == Promise(k + 1)
  }

  lemma OneMoreWait(waits: seq<int>, delay: int)
    requires OnSchedule(waits) && delay == Promise(|waits| + 1)
    ensures OnSchedule(waits + [delay])
  {
    hide Promise;
  }

  class Delivery {
    var row: Option<Row>
    ghost var writes: seq<Status>     // the statuses written to the row, in order
    var succeeded: nat                // the outcome metric
    var failed: nat

    constructor ()
      ensures row == None && writes == [] && succeeded == 0 && failed == 0
    {
      row, writes, succeeded, failed := None, [], 0, 0;
    }

    method Update(attempt: int, httpStatus: int, success: bool, terminal: bool)
      requires success ==> terminal
      modifies this
      ensures var status := if success then Success else if terminal then Failed else Pending;
              row == Some(Row(status, attempt, Some(httpStatus), success)) && writes == old(writes) + [status]
      ensures succeeded == old(succeeded) + (if success then 1 else 0)
      ensures failed == old(failed) + (if terminal && !success then 1 else 0)
    {
      var status := Pending;
      if success {
        status := Success;
      } else if terminal {
        status := Failed;
      }
      row := Some(Row(status, attempt, Some(httpStatus), success));
      writes := writes + [status];
      if terminal {
        if success {
          succeeded := succeeded + 1;
        } else {
          failed := failed + 1;
        }
      }
    }

    // A delivery that never left the process.  Its row says one attempt.
    method RecordTerminalFailure(created: bool)
      modifies this
      ensures succeeded == old(succeeded) && failed == old(failed) + 1
      ensures row == (if created then Some(Row(Failed, 1, Some(0), false)) else old(row))
      ensures writes == old(writes) + (if created then [Failed] else [])
    {
      if created {
        row := Some(Row(Failed, 1, Some(0), false));
        writes := writes + [Failed];
      }
      failed := failed + 1;
    }

    /** A delivery from start to end.  `doneAt` is when its context ends: at the deadline,
        or earlier when the service stops, even before the start.  `made` counts the attempts sent. */
    method Deliver(retryCount: int, marshalled: bool, created: bool, turns: nat -> Turn, start: int, doneAt: int)
      returns (made: nat, waits: seq<int>, clock: int)
      requires row == None && writes == [] && doneAt <= start + DEADLINE
      modifies this
      // the row
      ensures row.Some? <==> created
      ensures created ==> row.value.success == row.value.status.Success?
      // its status was pending until one last write
      ensures created ==>
                && |writes| > 0 && writes[|writes| - 1] == row.value.status != Pending
                && forall i :: 0 <= i < |writes| - 1 ==> writes[i] == Pending
      ensures created && marshalled ==> row.value.attemptNumber == made
      // the metric
      ensures succeeded + failed == old(succeeded + failed) + (if created || !marshalled then 1 else 0)
      ensures succeeded == old(succeeded) + (if created && row.value.status.Success? then 1 else 0)
      // the attempts
      ensures made <= 6 && made <= if retryCount < 1 then 3 else if retryCount > 10 then 10 else retryCount
      ensures !(created && marshalled) ==> made == 0
      ensures forall k :: 1 <= k < made ==> !turns(k).ok && turns(k).active
      ensures created && marshalled ==>
                (row.value.status.Success? <==> made > 0 && turns(made).ok && turns(made).active)
      // the waits
      ensures |waits| <= made && forall k :: 0 <= k < |waits| ==> waits[k] == Promise(k + 1)
      // why it ended
      ensures created && marshalled && row.value.status.Failed? ==>
                || made == (if retryCount < 1 then 3 else if retryCount > 10 then 10 else retryCount)
                || !turns(made + 1).active
                || (clock >= doneAt && StartOf(turns, start, made + 1) >= doneAt)
    {
      made, waits, clock := 0, [], start;
      if !marshalled {
        RecordTerminalFailure(created);
        return;
      }
      if !created {
        return;
      }
      row := Some(Row(Pending, 0, None, false));
      writes := [Pending];
      made, waits, clock := Attempts(ClampAttempts(retryCount), turns, start, doneAt);
    }

    method Attempts(retries: int, turns: nat -> Turn, start: int, doneAt: int)
        returns (made: nat, waits: seq<int>, clock: int)
      requires row == Some(Row(Pending, 0, None, false)) && AllPending(writes)
      requires 1 <= retries && doneAt <= start + DEADLINE
      modifies this
      ensures row.Some? && OneTerminal(writes, row.value.status) && row.value.success == row.value.status.Success?
      ensures row.value.attemptNumber == made <= retries && made <= 6
      ensures succeeded == old(succeeded) + (if row.value.status.Success? then 1 else 0)
      ensures failed == old(failed) + (if row.value.status.Success? then 0 else 1)
      ensures made > 0 ==> AllFailed(turns, made - 1)
      ensures row.value.status.Success? <==> made > 0 && turns(made).ok && turns(made).active
      ensures |waits| <= made && OnSchedule(waits)
      ensures row.value.status.Failed? ==> made == retries || !turns(made + 1).active
                                                   || (clock >= doneAt && StartOf(turns, start, made + 1) >= doneAt)
    {
      made, waits, clock := 0, [], start;
      assert AllFailed(turns, 0) && OnSchedule([]);
      assert StartOf(turns, start, 1) == start;
      hide Promise, Waited, AllPending, OneTerminal, AllFailed, OnSchedule, StartOf;
      while true
        invariant made < retries && made == |waits|
        invariant row.Some? && AllPending(writes) && succeeded == old(succeeded) && failed == old(failed)
        invariant AllFailed(turns, made) && OnSchedule(waits)
        invariant clock == StartOf(turns, start, made + 1)
        invariant start + Waited(made + 1) <= clock && (made == 0 || clock <= doneAt) && made <= 5
        decreases retries - made
      {
        hide AllPending, OneTerminal, Promise, Waited, AllFailed, OnSchedule;
        var attempt := made + 1;
        var turn := turns(attempt);
        if !turn.active {
          CancelDelivery(made);
          return;
        }
        made := attempt;
        var ended;
        ended, clock := Send(attempt, turn, clock, doneAt, attempt == retries);
        if ended {
          NextStart(turns, start, attempt);
          return;
        }
        OneMoreFailed(turns, attempt - 1);
        NextStart(turns, start, attempt);
        var delay;
        ended, clock, delay := Pause(attempt, turn, clock, doneAt);
        OneMoreWait(waits, delay);
        waits := waits + [delay];
        if ended {
          return;
        }
        NextWait(attempt);
      }
    }

    // The webhook is gone or disabled: what has been attempted stands.
    method CancelDelivery(made: nat)
      requires AllPending(writes)
      modifies this
      ensures row == Some(Row(Failed, made, Some(0), false)) && OneTerminal(writes, Failed)
      ensures succeeded == old(succeeded) && failed == old(failed) + 1
    {
      hide AllPending, OneTerminal;
      FinishAs(writes, Failed);
      Update(made, 0, false, true);
    }

    // One attempt and its write, terminal on success, on the last one, and after the end of the context.
    method Send(attempt: nat, turn: Turn, clock: int, doneAt: int, last: bool) returns (ended: bool, clock': int)
      requires AllPending(writes)
      modifies this
      ensures clock' == clock + turn.took && (ended <==> turn.ok || last || clock' >= doneAt)
      ensures row.Some? && row.value.attemptNumber == attempt && row.value.success == row.value.status.Success?
      ensures if ended then OneTerminal(writes, row.value.status)
                && (row.value.status.Success? <==> turn.ok) else AllPending(writes)
      ensures succeeded == old(succeeded) + (if turn.ok then 1 else 0)
      ensures failed == old(failed) + (if ended && !turn.ok then 1 else 0)
    {
      hide AllPending, OneTerminal;
      clock' := clock + turn.took;
      var aborted := !turn.ok && clock' >= doneAt;
      FinishAs(writes, if turn.ok then Success else Failed);
      Update(attempt, turn.httpStatus, turn.ok, turn.ok || aborted || last);
      ended := turn.ok || aborted || last;
    }

    // The wait before the next attempt, cut short when the context ends first.
    method Pause(attempt: nat, turn: Turn, clock: int, doneAt: int) returns (ended: bool, clock': int, delay: int)
      requires AllPending(writes) && row.Some? && row.value.attemptNumber == attempt && clock < doneAt
      modifies this
      ensures delay == Promise(attempt) && clock' == if ended then doneAt else clock + delay
      ensures ended <==> clock + delay > doneAt || (clock + delay == doneAt && turn.tie)
      ensures row.Some? && row.value.attemptNumber == attempt
      ensures ended ==> OneTerminal(writes, Failed) && failed == old(failed) + 1
      ensures ended ==> row.value.status.Failed? && !row.value.success
      ensures !ended ==> row == old(row) && AllPending(writes) && failed == old(failed)
      ensures succeeded == old(succeeded)
    {
      hide AllPending, OneTerminal, Promise;
      var d := RetryDelay(attempt);
      delay := d as int;
      if clock + delay > doneAt || (clock + delay == doneAt && turn.tie) {
        FinishAs(writes, Failed);
        Update(attempt, turn.httpStatus, false, true);
        return true, doneAt, delay;
      }
      return false, clock + delay, delay;
    }
  }

  lemma FinishAs(writes: seq<Status>, last: Status)
    requires AllPending(writes)
    ensures !last.Pending? ==> OneTerminal(writes + [last], last)
    ensures AllPending(writes + [Pending])
  {
  }

  lemma NextStart(turns: nat -> Turn, start: int, attempt: nat)
    requires attempt >= 1
    ensures StartOf(turns, start, attempt + 1)
            == StartOf(turns, start, attempt) + turns(attempt).took + Promise(attempt)
    ensures Promise(attempt) > 0
  {
    Pow5Grows(0, attempt - 1);
  }

  lemma NextWait(attempt: nat)
    requires attempt >= 1
    ensures Waited(attempt + 1) == Waited(attempt) + Promise(attempt)
    ensures attempt == 6 ==> Waited(attempt + 1) > DEADLINE
  {
    WaitsAddUp();
  }
}
