/** One worker run over the whole table, updating the rows in place. */
module FederationWorker {
  import opened Common
  import opened FederationQueue
  import opened FederationSchedule

  const BATCH_SIZE: nat := 50

  /** What remote_forward came back with. */
  datatype Verdict = Raised | NoAnswer | Rejected | Accepted

  predicate Stuck(row: Row, cutoff: int) { row.status == InFlight && row.nextAttemptAt < cutoff }

  function Recover(row: Row, cutoff: int): Row { if Stuck(row, cutoff) then row.(status := Pending) else row }

  predicate Due(row: Row, now: int) { row.status == Pending && row.nextAttemptAt <= now }

  /** One row handled with the copy the worker fetched. */
  function Processed(row: Row, copy: Row, verdict: Verdict, now: int): Row {
    if row.status != Pending then row
    else
      var claimed := row.(status := InFlight, nextAttemptAt := now);
      if verdict == Accepted then Delivered(claimed) else Retried(claimed, copy, now)
  }

  /** What the SELECT may return: distinct due rows, earliest first, no earlier one left out. */
  ghost predicate IsBatch(rows: seq<Row>, now: int, batch: seq<nat>) {
    && NoDup(batch) && |batch| <= BATCH_SIZE
    && (forall k :: 0 <= k < |batch| ==> batch[k] < |rows| && Due(rows[batch[k]], now))
    && (forall j, k :: 0 <= j < k < |batch| ==> rows[batch[j]].nextAttemptAt <= rows[batch[k]].nextAttemptAt)
    && (forall i :: 0 <= i < |rows| && Due(rows[i], now) && i !in batch ==>
          |batch| == BATCH_SIZE && rows[batch[BATCH_SIZE - 1]].nextAttemptAt <= rows[i].nextAttemptAt)
  }

  function Steps(w: nat, ok: bool): seq<Step> { Claim(w) + ([Answer(w, ok)] + ([Outcome(w)] + [])) }

  /** Handling a row without interruption is one schedule of the row's machine. */
  lemma ProcessIsOneSchedule(q: Queue, w: nat, verdict: Verdict)
    requires q.hands == map[] && Due(q.row, q.clock)
    ensures Solo(q, Steps(w, verdict == Accepted))
    ensures Run(q, Steps(w, verdict == Accepted)).row == Processed(q.row, q.row, verdict, q.clock)
    ensures Run(q, Steps(w, verdict == Accepted)).hands == map[]
  {
    var ok := verdict == Accepted;
    ClaimRuns(q, w, [Answer(w, ok)] + ([Outcome(w)] + []));
    var q1 := q.(row := q.row.(status := InFlight, nextAttemptAt := q.clock),
                 hands := q.hands[w := Waiting(q.row, q.clock)], claims := q.claims + 1,
                 sends := q.sends + {Sending(q.row.envelope, q.row.attempts, q.clock)});
    RunStep(q1, Answer(w, ok), [Outcome(w)] + []);
    RunStep(DoAnswer(q1, w, ok), Outcome(w), []);
    OneFetchIsSolo(q, w, [ClaimRead(w), ClaimWrite(w), Send(w), Answer(w, ok), Outcome(w)]);
    assert Steps(w, ok) == [Fetch(w)] + [ClaimRead(w), ClaimWrite(w), Send(w), Answer(w, ok), Outcome(w)];
  }

  /** Handling whatever row is there with whatever copy was fetched, whoever else holds one:
      alone, it is the five steps below, and a row that is no longer pending is left alone. */
  lemma HandlingIsOneSchedule(q: Queue, w: nat, copy: Row, verdict: Verdict)
    requires w in q.hands && q.hands[w] == Fetched(copy)
    ensures var v := Run(q, [ClaimRead(w), ClaimWrite(w), Send(w), Answer(w, verdict == Accepted), Outcome(w)]);
            && v.row == Processed(q.row, copy, verdict, q.clock)
            && v.hands == q.hands - {w}
            && (q.row.status != Pending ==> v.row == q.row && v.sends == q.sends && v.claims == q.claims)
  {
    var ok := verdict == Accepted;
    var (q1, q2) := (DoClaimRead(q, w), DoClaimWrite(DoClaimRead(q, w), w));
    Run5(q, ClaimRead(w), ClaimWrite(w), Send(w), Answer(w, ok), Outcome(w));
    hide Run;
    assert q.hands[w := Claiming(copy, q.clock)] - {w} == q.hands - {w};
    if q.row.status == Pending {
      assert q2.hands == q.hands[w := Owning(copy, q.clock)];
      var q4 := DoAnswer(DoSend(q2, w), w, ok);
      assert q4.hands == q.hands[w := Answered(copy, q.clock, ok, q.clock)];
      assert q4.hands - {w} == q.hands - {w};
    }
  }

  lemma Run5(q: Queue, a: Step, b: Step, c: Step, d: Step, e: Step)
    ensures Run(q, [a, b, c, d, e]) == Apply(Apply(Apply(Apply(Apply(q, a), b), c), d), e)
  {
    hide Apply;
    RunStep(q, a, [b, c, d, e]);
    RunStep(Apply(q, a), b, [c, d, e]);
    RunStep(Apply(Apply(q, a), b), c, [d, e]);
    RunStep(Apply(Apply(Apply(q, a), b), c), d, [e]);
    RunStep(Apply(Apply(Apply(Apply(q, a), b), c), d), e, []);
    assert [a] + [b, c, d, e] == [a, b, c, d, e] && [b] + [c, d, e] == [b, c, d, e];
    assert [c] + [d, e] == [c, d, e] && [d] + [e] == [d, e] && [e] + [] == [e];
  }

  lemma {:induction false} NoFetchIsSolo(q: Queue, steps: seq<Step>)
    requires forall k :: 0 <= k < |steps| ==> !steps[k].Fetch? && !steps[k].RecoverWrite?
    ensures Solo(q, steps)
    decreases |steps|
  {
    if steps != [] {
      NoFetchIsSolo(Apply(q, steps[0]), steps[1..]);
    }
  }

  lemma OneFetchIsSolo(q: Queue, w: nat, rest: seq<Step>)
    requires q.hands == map[] && forall k :: 0 <= k < |rest| ==> !rest[k].Fetch? && !rest[k].RecoverWrite?
    ensures Solo(q, [Fetch(w)] + rest)
  {
    NoFetchIsSolo(Apply(q, Fetch(w)), rest);
    assert ([Fetch(w)] + rest)[1..] == rest;
  }

  /** Seconds until the attempt after failure n. */
  const BACKOFF := [30, 60, 120, 300, 900, 1800, 3600, 7200, 14400, 28800]

  /** One more failure than the worker's copy had: after the eleventh the row is a dead
      letter, after any other it waits its turn; the envelope stays. */
  predicate IsFailure(was: Row, row: Row, copy: Row, now: int) {
    && row.attempts == copy.attempts + 1 && row.envelope == was.envelope
    && (row.status == DeadLetter <==> copy.attempts >= 10)
    && (copy.attempts < 10 ==> row.status == Pending && row.nextAttemptAt == now + BACKOFF[copy.attempts])
  }

  class Outbox {
    var clock: int
    var rows: seq<Row>

    constructor (now: int)
      ensures rows == [] && clock == now
    {
      clock, rows := now, [];
    }

    /** Row by row: one in flight since before the cutoff is pending again and otherwise
        unchanged, every other row stays; none is stuck afterwards, and the count is exact. */
    method RecoverStuckInFlight() returns (recovered: nat)
      modifies this`rows
      ensures |rows| == |old(rows)|
      ensures forall i :: 0 <= i < |rows| ==>
                && rows[i].attempts == old(rows)[i].attempts && rows[i].envelope == old(rows)[i].envelope
                && rows[i].nextAttemptAt == old(rows)[i].nextAttemptAt
                && (rows[i].status != old(rows)[i].status <==>
                      old(rows)[i].status == InFlight && old(rows)[i].nextAttemptAt < clock - IN_FLIGHT_TIMEOUT_SECONDS)
                && (rows[i].status != old(rows)[i].status ==> rows[i].status == Pending)
                && !Stuck(rows[i], clock - IN_FLIGHT_TIMEOUT_SECONDS)
      ensures recovered == Changed(old(rows), rows)
    {
      var cutoff := clock - IN_FLIGHT_TIMEOUT_SECONDS;
      ghost var was := rows;
      recovered := 0;
      for i := 0 to |rows|
        invariant |rows| == |was| && recovered == Changed(was[..i], rows[..i])
        invariant forall k :: 0 <= k < i ==> rows[k] == Recover(was[k], cutoff)
        invariant forall k :: i <= k < |rows| ==> rows[k] == was[k]
      {
        ghost var before := rows;
        if rows[i].status == InFlight && rows[i].nextAttemptAt < cutoff {
          rows := rows[i := rows[i].(status := Pending)];
          recovered := recovered + 1;
        }
        assert rows[..i + 1][..i] == before[..i] && was[..i + 1][..i] == was[..i];
      }
      assert was[..|was|] == was && rows[..|rows|] == rows;
    }

    method MarkInFlight(i: nat) returns (won: bool)
      requires i < |rows|
      modifies this`rows
      ensures won == (old(rows)[i].status == Pending)
      ensures rows == if won then old(rows)[i := old(rows)[i].(status := InFlight, nextAttemptAt := clock)] else old(rows)
    {
      won := rows[i].status == Pending;
      if won {
        rows := rows[i := rows[i].(status := InFlight, nextAttemptAt := clock)];
      }
    }

    method MarkRetryOrDead(i: nat, copy: Row)
      requires i < |rows|
      modifies this`rows
      ensures rows == old(rows)[i := Retried(old(rows)[i], copy, clock)]
      ensures IsFailure(old(rows)[i], rows[i], copy, clock)
    {
      var newAttempts := copy.attempts + 1;
      if newAttempts >= MAX_ATTEMPTS {
        rows := rows[i := rows[i].(status := DeadLetter, attempts := newAttempts)];
      } else {
        var wait := BackoffSeconds(newAttempts);
        rows := rows[i := rows[i].(status := Pending, attempts := newAttempts, nextAttemptAt := clock + wait)];
      }
    }

    method ProcessRow(i: nat, copy: Row, verdict: Verdict)
      requires i < |rows|
      modifies this`rows
      ensures rows == old(rows)[i := Processed(old(rows)[i], copy, verdict, clock)]
      ensures old(rows)[i].status != Pending ==> rows == old(rows)
      ensures old(rows)[i].status == Pending && verdict == Accepted ==>
                rows[i].status == Succeeded && rows[i].envelope == None && rows[i].attempts == old(rows)[i].attempts
      ensures old(rows)[i].status == Pending && verdict != Accepted ==> IsFailure(old(rows)[i], rows[i], copy, clock)
    {
      var won := MarkInFlight(i);
      if !won {
        return;
      }
      match verdict
      case Accepted => rows := rows[i := rows[i].(status := Succeeded, envelope := None)];
      case _ => MarkRetryOrDead(i, copy);
    }

    /** Recover, fetch, then one row after the other. Every row of the batch is handled once
        with its own verdict; every other row is only recovered. */
    method RunOnce(batch: seq<nat>, verdicts: seq<Verdict>) returns (recovered: nat, succeeded: nat, failed: nat)
      requires |verdicts| == |rows|
      requires IsBatch(RecoverAll(rows, clock - IN_FLIGHT_TIMEOUT_SECONDS), clock, batch)
      modifies this`rows
      ensures |rows| == |old(rows)|
      ensures recovered == Changed(old(rows), RecoverAll(old(rows), clock - IN_FLIGHT_TIMEOUT_SECONDS))
      ensures Handled(rows, RecoverAll(old(rows), clock - IN_FLIGHT_TIMEOUT_SECONDS), batch, verdicts, clock)
      ensures forall k :: 0 <= k < |batch| ==> batch[k] < |verdicts|
      ensures succeeded == Wins(batch, verdicts) && succeeded + failed == |batch|
    {
      hide *;
      ghost var was := rows;
      recovered := RecoverStuckInFlight();
      RecoveredAll(was, rows, clock - IN_FLIGHT_TIMEOUT_SECONDS);
      var copies := rows;
      BatchInRange(copies, clock, batch);
      BatchStarts(copies, batch, verdicts, clock);
      succeeded, failed := 0, 0;
      for k := 0 to |batch|
        invariant rows == AfterBatch(copies, batch[..k], verdicts, clock)
        invariant succeeded == Wins(batch[..k], verdicts) && succeeded + failed == k
      {
        var i := batch[k];
        NextInBatch(copies, batch, k, verdicts, clock);
        ProcessRow(i, copies[i], verdicts[i]);
        if rows[i].status == Succeeded {
          succeeded := succeeded + 1;
        } else {
          failed := failed + 1;
        }
      }
      assert batch[..|batch|] == batch;
      BatchDistinct(copies, clock, batch);
      BatchHandled(copies, batch, verdicts, clock);
    }
  }

  /** How many rows differ. */
  function Changed(a: seq<Row>, b: seq<Row>): nat
    requires |a| == |b|
  {
    if a == [] then 0
    else
      var n := |a| - 1;
      Changed(a[..n], b[..n]) + if a[n] != b[n] then 1 else 0
  }

  lemma RecoveredAll(was: seq<Row>, rows: seq<Row>, cutoff: int)
    requires |rows| == |was|
    requires forall i :: 0 <= i < |rows| ==>
               && rows[i].attempts == was[i].attempts && rows[i].envelope == was[i].envelope
               && rows[i].nextAttemptAt == was[i].nextAttemptAt
               && (rows[i].status != was[i].status <==> was[i].status == InFlight && was[i].nextAttemptAt < cutoff)
               && (rows[i].status != was[i].status ==> rows[i].status == Pending)
    ensures rows == RecoverAll(was, cutoff)
  {
    forall i | 0 <= i < |rows| ensures rows[i] == Recover(was[i], cutoff) {
      assert rows[i] == was[i].(status := rows[i].status);
    }
  }

  function RecoverAll(rows: seq<Row>, cutoff: int): (r: seq<Row>)
    ensures |r| == |rows|
  {
    seq(|rows|, i requires 0 <= i < |rows| => Recover(rows[i], cutoff))
  }

  predicate Handled(rows: seq<Row>, copies: seq<Row>, done: seq<nat>, verdicts: seq<Verdict>, now: int)
    requires |rows| == |copies| == |verdicts|
  {
    forall i :: 0 <= i < |rows| ==>
      rows[i] == if i in done then Processed(copies[i], copies[i], verdicts[i], now) else copies[i]
  }

  function Wins(batch: seq<nat>, verdicts: seq<Verdict>): nat
    requires forall k :: 0 <= k < |batch| ==> batch[k] < |verdicts|
  {
    if batch == [] then 0
    else
      var n := |batch| - 1;
      Wins(batch[..n], verdicts) + if verdicts[batch[n]] == Accepted then 1 else 0
  }

  /** The rows after the batch so far, each handled with the copy that was fetched. */
  function AfterBatch(copies: seq<Row>, batch: seq<nat>, verdicts: seq<Verdict>, now: int): (r: seq<Row>)
    requires |copies| == |verdicts| && forall k :: 0 <= k < |batch| ==> batch[k] < |copies|
    ensures |r| == |copies|
  {
    if batch == [] then copies
    else
      var (i, n) := (batch[|batch| - 1], |batch| - 1);
      var before := AfterBatch(copies, batch[..n], verdicts, now);
      before[i := Processed(before[i], copies[i], verdicts[i], now)]
  }

  lemma BatchInRange(rows: seq<Row>, now: int, batch: seq<nat>)
    requires IsBatch(rows, now, batch)
    ensures forall k :: 0 <= k < |batch| ==> batch[k] < |rows|
  {
  }

  lemma BatchStarts(copies: seq<Row>, batch: seq<nat>, verdicts: seq<Verdict>, now: int)
    requires |copies| == |verdicts| && forall k :: 0 <= k < |batch| ==> batch[k] < |copies|
    ensures AfterBatch(copies, batch[..0], verdicts, now) == copies && Wins(batch[..0], verdicts) == 0
  {
  }

  lemma BatchDistinct(rows: seq<Row>, now: int, batch: seq<nat>)
    requires IsBatch(rows, now, batch)
    ensures NoDup(batch)
  {
  }

  lemma {:induction false} BatchHandled(copies: seq<Row>, batch: seq<nat>, verdicts: seq<Verdict>, now: int)
    requires |copies| == |verdicts| && NoDup(batch) && forall k :: 0 <= k < |batch| ==> batch[k] < |copies|
    ensures Handled(AfterBatch(copies, batch, verdicts, now), copies, batch, verdicts, now)
  {
    hide Processed;
    if batch != [] {
      var n := |batch| - 1;
      BatchHandled(copies, batch[..n], verdicts, now);
      assert batch == batch[..n] + [batch[n]];
      assert batch[n] !in batch[..n];
    }
  }

  lemma {:induction false} Untouched(copies: seq<Row>, batch: seq<nat>, verdicts: seq<Verdict>, now: int, i: nat)
    requires |copies| == |verdicts| && forall k :: 0 <= k < |batch| ==> batch[k] < |copies|
    requires i !in batch && i < |copies|
    ensures AfterBatch(copies, batch, verdicts, now)[i] == copies[i]
  {
    if batch != [] {
      Untouched(copies, batch[..|batch| - 1], verdicts, now, i);
    }
  }

  /** The row that comes up is still as it was fetched, and is delivered just when accepted. */
  lemma NextInBatch(copies: seq<Row>, batch: seq<nat>, k: nat, verdicts: seq<Verdict>, now: int)
    requires |copies| == |verdicts| && k < |batch| && IsBatch(copies, now, batch)
    ensures forall j :: 0 <= j < |batch| ==> batch[j] < |copies|
    ensures var i := batch[k];
            var rows := AfterBatch(copies, batch[..k], verdicts, now);
            var p := Processed(rows[i], copies[i], verdicts[i], now);
            && rows[i := p] == AfterBatch(copies, batch[..k + 1], verdicts, now)
            && (p.status == Succeeded <==> verdicts[i] == Accepted)
            && Wins(batch[..k + 1], verdicts) == Wins(batch[..k], verdicts) + if verdicts[i] == Accepted then 1 else 0
  {
    assert batch[..k + 1][..k] == batch[..k];
    assert batch[k] !in batch[..k];
    Untouched(copies, batch[..k], verdicts, now, batch[k]);
  }
}
