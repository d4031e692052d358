/** One row of the outbound federation queue and every worker that has read it. A worker
    keeps the copy it fetched; claims are guarded by the row's status, outcomes are not. */
module FederationQueue {
  import opened Common

  const MAX_ATTEMPTS: nat := 11
  const IN_FLIGHT_TIMEOUT_SECONDS := 300

  datatype Status = Pending | InFlight | Succeeded | DeadLetter

  /** `envelope` is None once scrubbed; `ts` is the signed timestamp of the original. */
  datatype Row = Row(status: Status, attempts: nat, nextAttemptAt: int, envelope: Option<nat>)

  /** What a worker is doing with its copy of the row. */
  datatype Hand =
    | Fetched(copy: Row)
    | Claiming(copy: Row, now: int)
    | Owning(copy: Row, claimedAt: int)
    | Waiting(copy: Row, claimedAt: int)
    | Answered(copy: Row, claimedAt: int, ok: bool, now: int)
  {
    predicate Live() { Owning? || Waiting? || Answered? }
  }

  datatype Sending = Sending(envelope: Option<nat>, attempts: nat, at: int)

  datatype Queue = Queue(
    clock: int, row: Row, hands: map<nat, Hand>, cutoffs: map<nat, int>,
    created: int, original: nat, claims: nat, recoveries: nat, sends: set<Sending>)

  datatype Step =
    | Wait(seconds: nat)
    | Fetch(w: nat)
    | ClaimRead(w: nat)
    | ClaimWrite(w: nat)
    | Send(w: nat)
    | Answer(w: nat, ok: bool)
    | Outcome(w: nat)
    | Crash(w: nat)
    | RecoverRead(r: nat)
    | RecoverWrite(r: nat)

  function BackoffSeconds(attempts: int): int {
    if attempts == 1 then 30 else if attempts == 2 then 60 else if attempts == 3 then 120
    else if attempts == 4 then 300 else if attempts == 5 then 900 else if attempts == 6 then 1800
    else if attempts == 7 then 3600 else if attempts == 8 then 7200 else if attempts == 9 then 14400
    else 28800
  }

  /** The least time between a row's creation and its retry number n. */
  function BackoffSum(n: nat): int { if n == 0 then 0 else BackoffSum(n - 1) + BackoffSeconds(n) }

  /** A failure counted from the worker's own copy of the row. */
  function Retried(row: Row, copy: Row, now: int): Row {
    var n := copy.attempts + 1;
    if n >= MAX_ATTEMPTS then row.(status := DeadLetter, attempts := n)
    else row.(status := Pending, attempts := n, nextAttemptAt := now + BackoffSeconds(n))
  }

  function Delivered(row: Row): Row { row.(status := Succeeded, envelope := None) }

  function Hold(q: Queue, w: nat, h: Hand): Queue { q.(hands := q.hands[w := h]) }

  function DoFetch(q: Queue, w: nat): Queue {
    if w in q.hands || q.row.status != Pending || q.row.nextAttemptAt > q.clock then q
    else Hold(q, w, Fetched(q.row))
  }

  function DoClaimRead(q: Queue, w: nat): Queue {
    if w !in q.hands || !q.hands[w].Fetched? then q else Hold(q, w, Claiming(q.hands[w].copy, q.clock))
  }

  function DoClaimWrite(q: Queue, w: nat): Queue {
    if w !in q.hands || !q.hands[w].Claiming? then q
    else if q.row.status != Pending then q.(hands := q.hands - {w})
    else q.(row := q.row.(status := InFlight, nextAttemptAt := q.hands[w].now),
            hands := q.hands[w := Owning(q.hands[w].copy, q.hands[w].now)], claims := q.claims + 1)
  }

  function DoSend(q: Queue, w: nat): Queue {
    if w !in q.hands || !q.hands[w].Owning? then q
    else
      var h := q.hands[w];
      q.(hands := q.hands[w := Waiting(h.copy, h.claimedAt)],
         sends := q.sends + {Sending(h.copy.envelope, h.copy.attempts, q.clock)})
  }

  function DoAnswer(q: Queue, w: nat, ok: bool): Queue {
    if w !in q.hands || !q.hands[w].Waiting? then q
    else Hold(q, w, Answered(q.hands[w].copy, q.hands[w].claimedAt, ok, q.clock))
  }

  function DoOutcome(q: Queue, w: nat): Queue {
    if w !in q.hands || !q.hands[w].Answered? then q
    else
      var h := q.hands[w];
      q.(row := if h.ok then Delivered(q.row) else Retried(q.row, h.copy, h.now), hands := q.hands - {w})
  }

  function DoRecoverWrite(q: Queue, r: nat): Queue {
    if r !in q.cutoffs then q
    else if q.row.status == InFlight && q.row.nextAttemptAt < q.cutoffs[r] then
      q.(row := q.row.(status := Pending), cutoffs := q.cutoffs - {r}, recoveries := q.recoveries + 1)
    else q.(cutoffs := q.cutoffs - {r})
  }

  function Apply(q: Queue, step: Step): Queue {
    match step
    case Wait(d) => q.(clock := q.clock + d)
    case Fetch(w) => DoFetch(q, w)
    case ClaimRead(w) => DoClaimRead(q, w)
    case ClaimWrite(w) => DoClaimWrite(q, w)
    case Send(w) => DoSend(q, w)
    case Answer(w, ok) => DoAnswer(q, w, ok)
    case Outcome(w) => DoOutcome(q, w)
    case Crash(w) => q.(hands := q.hands - {w})
    case RecoverRead(r) => q.(cutoffs := q.cutoffs[r := q.clock - IN_FLIGHT_TIMEOUT_SECONDS])
    case RecoverWrite(r) => DoRecoverWrite(q, r)
  }

  function Run(q: Queue, steps: seq<Step>): Queue
    decreases |steps|
  {
    if steps == [] then q else Run(Apply(q, steps[0]), steps[1..])
  }

  /** A fresh row is due at once. */
  function Enqueued(now: int, envelope: nat): Queue {
    Queue(now, Row(Pending, 0, now, Some(envelope)), map[], map[], now, envelope, 0, 0, {})
  }

  // ---- any number of workers, each prompt or dead ----

  /** Every worker still at work claimed at most the in-flight timeout ago. */
  predicate PromptOwners(q: Queue) {
    forall w :: w in q.hands && q.hands[w].Live() ==> q.clock <= q.hands[w].claimedAt + IN_FLIGHT_TIMEOUT_SECONDS
  }

  predicate PromptRun(q: Queue, steps: seq<Step>)
    decreases |steps|
  {
    steps == [] || (PromptOwners(Apply(q, steps[0])) && PromptRun(Apply(q, steps[0]), steps[1..]))
  }

  predicate Final(row: Row) { row.status == Succeeded || row.status == DeadLetter }

  predicate OwnedBy(q: Queue, w: nat) {
    w in q.hands && q.hands[w].Live()
  }

  ghost predicate Safe(q: Queue) {
    && (forall w :: OwnedBy(q, w) ==> q.row.status == InFlight && q.row.nextAttemptAt == q.hands[w].claimedAt)
    && (forall v, w :: OwnedBy(q, v) && OwnedBy(q, w) ==> v == w)
    && (forall w :: w in q.hands ==> q.hands[w].copy.envelope == Some(q.original))
    && (forall s :: s in q.sends ==> s.envelope == Some(q.original))
    && (forall r :: r in q.cutoffs ==> q.cutoffs[r] <= q.clock - IN_FLIGHT_TIMEOUT_SECONDS)
    && (q.row.envelope == if q.row.status == Succeeded then None else Some(q.original))
  }

  lemma StepSafe(q: Queue, step: Step)
    requires Safe(q) && PromptOwners(q)
    ensures Safe(Apply(q, step))
    ensures Final(q.row) ==> Apply(q, step).row == q.row
  {
    var v := Apply(q, step);
    assert forall w :: OwnedBy(v, w) && !step.ClaimWrite? ==> OwnedBy(q, w);
    match step {
      case Outcome(w) => assert OwnedBy(q, w) || v == q;
      case ClaimWrite(w) => assert forall u :: u != w && OwnedBy(v, u) ==> OwnedBy(q, u);
      case _ =>
    }
  }

  lemma {:induction false} RunSafe(q: Queue, steps: seq<Step>)
    requires Safe(q) && PromptOwners(q) && PromptRun(q, steps)
    ensures Safe(Run(q, steps))
    ensures Final(q.row) ==> Run(q, steps).row == q.row
    decreases |steps|
  {
    if steps != [] {
      StepSafe(q, steps[0]);
      RunSafe(Apply(q, steps[0]), steps[1..]);
    }
  }

  /** Any number of workers with stale batches: at most one live worker owns the row, and
      every copy ever sent is the original envelope, never the scrubbed one. */
  lemma OneOwnerSendsOriginal(now: int, envelope: nat, steps: seq<Step>)
    requires PromptRun(Enqueued(now, envelope), steps)
    ensures var q := Run(Enqueued(now, envelope), steps);
            && (forall v, w :: OwnedBy(q, v) && OwnedBy(q, w) ==> v == w)
            && (forall s :: s in q.sends ==> s.envelope == Some(envelope))
            && (q.row.envelope == None <==> q.row.status == Succeeded)
  {
    RunSafe(Enqueued(now, envelope), steps);
    KeepsOriginal(Enqueued(now, envelope), steps);
  }

  lemma {:induction false} KeepsOriginal(q: Queue, steps: seq<Step>)
    ensures Run(q, steps).original == q.original && Run(q, steps).created == q.created
    decreases |steps|
  {
    if steps != [] {
      KeepsOriginal(Apply(q, steps[0]), steps[1..]);
    }
  }

  lemma {:induction false} RunConcat(q: Queue, a: seq<Step>, b: seq<Step>)
    requires PromptRun(q, a + b)
    ensures Run(q, a + b) == Run(Run(q, a), b)
    ensures PromptRun(q, a) && PromptRun(Run(q, a), b)
    ensures PromptOwners(q) ==> PromptOwners(Run(q, a))
    decreases |a|
  {
    if a == [] {
      assert a + b == b;
    } else {
      assert (a + b)[1..] == a[1..] + b;
      RunConcat(Apply(q, a[0]), a[1..], b);
    }
  }

  /** SUCCEEDED and DEAD_LETTER are absorbing: once reached, nothing later touches the row. */
  lemma FinalIsAbsorbing(now: int, envelope: nat, before: seq<Step>, after: seq<Step>)
    requires PromptRun(Enqueued(now, envelope), before + after)
    ensures Final(Run(Enqueued(now, envelope), before).row) ==>
              Run(Enqueued(now, envelope), before + after).row == Run(Enqueued(now, envelope), before).row
  {
    var q := Enqueued(now, envelope);
    RunConcat(q, before, after);
    RunSafe(q, before);
    RunSafe(Run(q, before), after);
  }

  /** Outcomes carry no guard: in any state, whoever writes one, a final row survives it
      exactly when nothing in it had to change. */
  lemma UnguardedOutcomeIff(q: Queue, w: nat)
    requires w in q.hands && q.hands[w].Answered? && Final(q.row)
    ensures Final(DoOutcome(q, w).row) <==> q.hands[w].ok || q.hands[w].copy.attempts + 1 >= MAX_ATTEMPTS
    ensures q.row.status == Succeeded && !Final(DoOutcome(q, w).row) ==>
              DoOutcome(q, w).row.status == Pending && DoOutcome(q, w).row.envelope == q.row.envelope
  {
  }

  /** Whoever works on the row has it in flight under its own claim. */
  ghost predicate Owned(q: Queue) {
    forall w :: OwnedBy(q, w) ==> q.row.status == InFlight && q.row.nextAttemptAt == q.hands[w].claimedAt
  }

  /** The timeout's half, exactly: a recovery takes the row from nobody at work on it if and
      only if no live worker claimed before the recovery's cutoff. */
  lemma RecoveryKeepsOwnerIff(q: Queue, r: nat)
    requires Owned(q) && r in q.cutoffs
    ensures Owned(DoRecoverWrite(q, r)) <==> forall w :: OwnedBy(q, w) ==> q.cutoffs[r] <= q.hands[w].claimedAt
  {
    var v := DoRecoverWrite(q, r);
    assert forall w :: OwnedBy(v, w) == OwnedBy(q, w);
  }
}
