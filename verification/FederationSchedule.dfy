/** The retry schedule when workers do not overlap, however slow they are, and what happens
    when one overstays the in-flight timeout by a second. */
module FederationSchedule {
  import opened Common
  import opened FederationQueue

  /** One worker at a time: a run starts (recovering, then fetching) when no other is at work. */
  predicate SoloStep(q: Queue, step: Step) {
    step.Fetch? || step.RecoverWrite? ==> q.hands == map[]
  }

  predicate Solo(q: Queue, steps: seq<Step>)
    decreases |steps|
  {
    steps == [] || (SoloStep(q, steps[0]) && Solo(Apply(q, steps[0]), steps[1..]))
  }

  function Unfinished(row: Row): nat { if row.status == InFlight || row.status == Succeeded then 1 else 0 }

  lemma {:induction false} BackoffGrows(m: nat, n: nat)
    requires m <= n
    ensures BackoffSum(m) <= BackoffSum(n)
  {
    if m < n {
      BackoffGrows(m, n - 1);
    }
  }

  /** When the holder of the copy last had its turn, at the earliest. */
  predicate HandOk(q: Queue, h: Hand) {
    match h
    case Fetched(copy) => copy == q.row && copy.status == Pending && copy.nextAttemptAt <= q.clock
    case Claiming(copy, now) => copy == q.row && copy.status == Pending && q.created + BackoffSum(copy.attempts) <= now <= q.clock
    case Answered(copy, at, ok, now) => copy.attempts == q.row.attempts && q.row.status == InFlight
      && q.created + BackoffSum(copy.attempts) <= now <= q.clock
    case _ => h.copy.attempts == q.row.attempts && q.row.status == InFlight
  }

  ghost predicate OnSchedule(q: Queue) {
    && (forall v, w :: v in q.hands && w in q.hands ==> v == w)
    && (forall w :: w in q.hands ==> HandOk(q, q.hands[w]))
    && q.claims == q.row.attempts + q.recoveries + Unfinished(q.row)
    && q.row.attempts <= MAX_ATTEMPTS
    && (q.row.status == DeadLetter <==> q.row.attempts == MAX_ATTEMPTS)
    && (q.row.status != DeadLetter ==> q.created + BackoffSum(q.row.attempts) <= q.row.nextAttemptAt)
    && (q.row.status == InFlight || q.row.status == Succeeded ==> q.row.nextAttemptAt <= q.clock)
    && (q.row.status == DeadLetter ==> q.created + BackoffSum(MAX_ATTEMPTS - 1) <= q.clock)
    && (forall s :: s in q.sends ==> q.created + BackoffSum(s.attempts) <= s.at)
  }

  lemma OutcomeOnSchedule(q: Queue, w: nat)
    requires OnSchedule(q)
    ensures OnSchedule(DoOutcome(q, w))
  {
    if w in q.hands && q.hands[w].Answered? {
      assert DoOutcome(q, w).hands == map[];
    }
  }

  lemma ClaimOnSchedule(q: Queue, w: nat)
    requires OnSchedule(q)
    ensures OnSchedule(DoClaimWrite(q, w))
  {
  }

  lemma HandOnSchedule(q: Queue, step: Step)
    requires OnSchedule(q) && SoloStep(q, step) && (step.Fetch? || step.ClaimRead? || step.Send? || step.Answer? || step.Crash?)
    ensures OnSchedule(Apply(q, step))
  {
    hide BackoffSum;
  }

  lemma ClockOnSchedule(q: Queue, step: Step)
    requires OnSchedule(q) && SoloStep(q, step) && (step.Wait? || step.RecoverRead? || step.RecoverWrite?)
    ensures OnSchedule(Apply(q, step))
  {
    hide BackoffSum;
  }

  lemma StepOnSchedule(q: Queue, step: Step)
    requires OnSchedule(q) && SoloStep(q, step)
    ensures OnSchedule(Apply(q, step))
  {
    hide OnSchedule, SoloStep;
    match step {
      case Outcome(w) => OutcomeOnSchedule(q, w);
      case ClaimWrite(w) => ClaimOnSchedule(q, w);
      case Wait(_) => ClockOnSchedule(q, step);
      case RecoverRead(_) => ClockOnSchedule(q, step);
      case RecoverWrite(_) => ClockOnSchedule(q, step);
      case _ => HandOnSchedule(q, step);
    }
  }

  lemma {:induction false} RunOnSchedule(q: Queue, steps: seq<Step>)
    requires OnSchedule(q) && Solo(q, steps)
    ensures OnSchedule(Run(q, steps))
    decreases |steps|
  {
    if steps != [] {
      StepOnSchedule(q, steps[0]);
      RunOnSchedule(Apply(q, steps[0]), steps[1..]);
    }
  }

  /** Every claim is a counted attempt, was recovered, or is the one that is open or won; so a
      row is claimed at most eleven times more than it is recovered. */
  lemma ClaimsAreAccountedFor(now: int, envelope: nat, steps: seq<Step>)
    requires Solo(Enqueued(now, envelope), steps)
    ensures var q := Run(Enqueued(now, envelope), steps);
            && q.claims == q.row.attempts + q.recoveries + Unfinished(q.row)
            && q.claims <= MAX_ATTEMPTS + q.recoveries
            && (q.row.status == DeadLetter <==> q.row.attempts == MAX_ATTEMPTS)
  {
    RunOnSchedule(Enqueued(now, envelope), steps);
  }

  /** No attempt comes before its place in the schedule, and no row is given up on earlier
      than 57210 seconds after it was queued. */
  lemma RetriesKeepToBackoff(now: int, envelope: nat, steps: seq<Step>)
    requires Solo(Enqueued(now, envelope), steps)
    ensures var q := Run(Enqueued(now, envelope), steps);
            && (q.row.status != DeadLetter ==> now + BackoffSum(q.row.attempts) <= q.row.nextAttemptAt)
            && (q.row.status == DeadLetter ==> now + 57210 <= q.clock)
            && (forall s :: s in q.sends ==> now + BackoffSum(s.attempts) <= s.at)
  {
    RunOnSchedule(Enqueued(now, envelope), steps);
    KeepsOriginal(Enqueued(now, envelope), steps);
    FullSchedule();
  }

  lemma FullSchedule()
    ensures BackoffSum(MAX_ATTEMPTS - 1) == 57210 && BackoffSum(4) == 510 && BackoffSum(3) == 210
  {
    assert BackoffSum(1) == 30 && BackoffSum(2) == 90 && BackoffSum(3) == 210 && BackoffSum(4) == 510;
    assert BackoffSum(5) == 1410 && BackoffSum(6) == 3210 && BackoffSum(7) == 6810;
    assert BackoffSum(8) == 14010 && BackoffSum(9) == 28410;
  }

  // ---- the receiver's freshness window ----

  const ENVELOPE_MAX_AGE_SECONDS := 300
  const ENVELOPE_MAX_FUTURE_SECONDS := 60

  /** What both relays ask of a signed envelope's timestamp. */
  predicate InWindow(ts: int, now: int) {
    now - ENVELOPE_MAX_AGE_SECONDS <= ts <= now + ENVELOPE_MAX_FUTURE_SECONDS
  }

  /** Of the eleven attempts only the first four can find the receiver's window open: every
      later one arrives too late for any envelope the sending relay could have taken. */
  lemma LateRetriesAreRefused(now: int, envelope: nat, steps: seq<Step>, ts: int, s: Sending)
    requires Solo(Enqueued(now, envelope), steps) && InWindow(ts, now)
    ensures s in Run(Enqueued(now, envelope), steps).sends && s.attempts >= 4 ==> !InWindow(ts, s.at)
  {
    RetriesKeepToBackoff(now, envelope, steps);
    if s.attempts >= 4 {
      BackoffGrows(4, s.attempts);
      FullSchedule();
    }
  }

  // ---- the schedule is kept to the second ----

  lemma RunStep(q: Queue, step: Step, rest: seq<Step>)
    ensures Run(q, [step] + rest) == Run(Apply(q, step), rest)
  {
    assert ([step] + rest)[1..] == rest;
  }

  function Claim(w: nat): seq<Step> { [Fetch(w)] + ([ClaimRead(w)] + ([ClaimWrite(w)] + [Send(w)])) }

  lemma ClaimRuns(q: Queue, w: nat, rest: seq<Step>)
    requires w !in q.hands && q.row.status == Pending && q.row.nextAttemptAt <= q.clock
    ensures Run(q, Claim(w) + rest) == Run(
              q.(row := q.row.(status := InFlight, nextAttemptAt := q.clock),
                 hands := q.hands[w := Waiting(q.row, q.clock)], claims := q.claims + 1,
                 sends := q.sends + {Sending(q.row.envelope, q.row.attempts, q.clock)}), rest)
  {
    hide Run;
    var q1 := DoFetch(q, w);
    var q2 := DoClaimRead(q1, w);
    var q3 := DoClaimWrite(q2, w);
    var q4 := DoSend(q3, w);
    assert Claim(w) + rest == [Fetch(w)] + ([ClaimRead(w)] + ([ClaimWrite(w)] + ([Send(w)] + rest)));
    RunStep(q, Fetch(w), [ClaimRead(w)] + ([ClaimWrite(w)] + ([Send(w)] + rest)));
    RunStep(q1, ClaimRead(w), [ClaimWrite(w)] + ([Send(w)] + rest));
    RunStep(q2, ClaimWrite(w), [Send(w)] + rest);
    RunStep(q3, Send(w), rest);
    assert q4.hands == q.hands[w := Waiting(q.row, q.clock)];
  }

  lemma SoloCons(q: Queue, step: Step, rest: seq<Step>)
    requires SoloStep(q, step) && Solo(Apply(q, step), rest)
    ensures Solo(q, [step] + rest)
  {
    assert ([step] + rest)[1..] == rest;
  }

  lemma ClaimIsSolo(q: Queue, w: nat, rest: seq<Step>)
    requires q.hands == map[]
    requires Solo(DoSend(DoClaimWrite(DoClaimRead(DoFetch(q, w), w), w), w), rest)
    ensures Solo(q, Claim(w) + rest)
  {
    hide Solo, Apply;
    var q1 := DoFetch(q, w);
    var q2 := DoClaimRead(q1, w);
    var q3 := DoClaimWrite(q2, w);
    ClaimApplies(q, w);
    SoloCons(q3, Send(w), rest);
    SoloCons(q2, ClaimWrite(w), [Send(w)] + rest);
    SoloCons(q1, ClaimRead(w), [ClaimWrite(w)] + ([Send(w)] + rest));
    SoloCons(q, Fetch(w), [ClaimRead(w)] + ([ClaimWrite(w)] + ([Send(w)] + rest)));
    assert Claim(w) + rest == [Fetch(w)] + ([ClaimRead(w)] + ([ClaimWrite(w)] + ([Send(w)] + rest)));
  }

  lemma ClaimApplies(q: Queue, w: nat)
    ensures Apply(q, Fetch(w)) == DoFetch(q, w) && Apply(q, ClaimRead(w)) == DoClaimRead(q, w)
    ensures Apply(DoFetch(q, w), ClaimRead(w)) == DoClaimRead(DoFetch(q, w), w)
    ensures forall x :: Apply(x, ClaimWrite(w)) == DoClaimWrite(x, w) && Apply(x, Send(w)) == DoSend(x, w)
  {
  }

  /** One failed attempt and the wait for the next. */
  function Try(n: nat): seq<Step> {
    Claim(0) + ([Answer(0, false)] + ([Outcome(0)] + ([Wait(BackoffWait(n))] + [])))
  }

  function BackoffWait(n: nat): nat { BackoffSeconds(n) }

  function Tries(n: nat): seq<Step> { if n == 0 then [] else Tries(n - 1) + Try(n) }

  /** A row whose n-th attempt is due this second. */
  predicate DueAt(q: Queue, n: nat, at: int, envelope: nat) {
    q.hands == map[] && q.clock == at && q.row == Row(Pending, n, at, Some(envelope))
  }

  lemma TryRuns(q: Queue, n: nat, at: int, envelope: nat, rest: seq<Step>) returns (v: Queue)
    requires DueAt(q, n, at, envelope) && n + 1 < MAX_ATTEMPTS
    ensures DueAt(v, n + 1, at + BackoffSeconds(n + 1), envelope)
    ensures Run(q, Try(n + 1) + rest) == Run(v, rest) && (Solo(v, rest) ==> Solo(q, Try(n + 1) + rest))
  {
    hide Run, Solo;
    var wait := BackoffWait(n + 1);
    var t1 := [Wait(wait)] + rest;
    var t2 := [Answer(0, false)] + ([Outcome(0)] + t1);
    assert Try(n + 1) + rest == Claim(0) + t2;
    ClaimRuns(q, 0, t2);
    var q4 := DoSend(DoClaimWrite(DoClaimRead(DoFetch(q, 0), 0), 0), 0);
    assert q4.hands == map[0 := Waiting(q.row, at)];
    var q5 := DoAnswer(q4, 0, false);
    var q6 := DoOutcome(q5, 0);
    assert q6.hands == map[];
    RunStep(q4, Answer(0, false), [Outcome(0)] + t1);
    RunStep(q5, Outcome(0), t1);
    RunStep(q6, Wait(wait), rest);
    v := Apply(q6, Wait(wait));
    if Solo(v, rest) {
      SoloCons(q6, Wait(wait), rest);
      SoloCons(q5, Outcome(0), t1);
      SoloCons(q4, Answer(0, false), [Outcome(0)] + t1);
      ClaimIsSolo(q, 0, t2);
    }
  }

  lemma TriesMore(n: nat, rest: seq<Step>)
    requires n > 0
    ensures Tries(n) + rest == Tries(n - 1) + (Try(n) + rest)
    ensures BackoffSum(n) == BackoffSum(n - 1) + BackoffSeconds(n)
  {
    hide Try, BackoffSeconds;
  }

  lemma {:induction false} TriesRun(now: int, envelope: nat, n: nat, rest: seq<Step>) returns (v: Queue)
    requires n < MAX_ATTEMPTS
    ensures DueAt(v, n, now + BackoffSum(n), envelope)
    ensures Run(Enqueued(now, envelope), Tries(n) + rest) == Run(v, rest)
    ensures Solo(v, rest) ==> Solo(Enqueued(now, envelope), Tries(n) + rest)
  {
    hide Run, Solo, Try, BackoffSeconds;
    if n == 0 {
      v := Enqueued(now, envelope);
      assert Tries(0) + rest == rest;
    } else {
      TriesMore(n, rest);
      hide *;
      var u := TriesRun(now, envelope, n - 1, Try(n) + rest);
      v := TryRuns(u, n - 1, now + BackoffSum(n - 1), envelope, rest);
    }
  }

  /** The bound of RetriesKeepToBackoff is met by every attempt: a single worker that is always
      on time and never succeeds sends attempt n at exactly its place in the schedule. */
  lemma AttemptsKeepPace(now: int, envelope: nat, n: nat)
    requires n < MAX_ATTEMPTS
    ensures Solo(Enqueued(now, envelope), Tries(n) + Claim(0))
    ensures Sending(Some(envelope), n, now + BackoffSum(n)) in Run(Enqueued(now, envelope), Tries(n) + Claim(0)).sends
  {
    hide BackoffSum, Run, Tries, Enqueued, Claim;
    var q := TriesRun(now, envelope, n, Claim(0));
    assert Claim(0) + [] == Claim(0);
    ClaimIsSolo(q, 0, []);
    EndsInSend(q, 0);
  }

  /** So the fourth attempt can still be in time, and the fifth cannot: of a row queued the
      second its envelope was signed, one run sends attempt 3 (counting from 0) inside the
      receiver's window, and no timestamp the sender could have taken is inside at attempt 4. */
  lemma FourthAttemptMayStillPass(now: int, envelope: nat)
    ensures exists steps, s :: Solo(Enqueued(now, envelope), steps) && s in Run(Enqueued(now, envelope), steps).sends
                               && s.attempts == 3 && InWindow(now, now) && InWindow(now, s.at)
    ensures !exists ts :: InWindow(ts, now) && InWindow(ts, now + BackoffSum(4))
  {
    FullSchedule();
    AttemptsKeepPace(now, envelope, 3);
    assert InWindow(now, now) && InWindow(now, now + 210);
    var s := Sending(Some(envelope), 3, now + 210);
    assert s in Run(Enqueued(now, envelope), Tries(3) + Claim(0)).sends;
  }

  // ---- one second too long ----

  /** Worker 1 answers 301 seconds after its claim. By then worker 2 has recovered the row,
      delivered and scrubbed it; the late failure makes it PENDING again, and worker 3 sends
      the scrubbed, empty envelope. */
  function Overstay(): seq<Step> {
    Claim(1) + ([Wait(301)] + ([RecoverRead(0)] + ([RecoverWrite(0)] + (Claim(2) + ([Answer(2, true)] +
      ([Outcome(2)] + ([Answer(1, false)] + ([Outcome(1)] + ([Wait(30)] + (Claim(3) + []))))))))))
  }

  lemma OverstayedClaimSendsScrubbed(now: int, envelope: nat)
    ensures exists s :: s in Run(Enqueued(now, envelope), Overstay()).sends && s.envelope == None
  {
    hide Run;
    var q := Enqueued(now, envelope);
    var tail3 := [Wait(30)] + (Claim(3) + []);
    var tail2 := [Answer(2, true)] + ([Outcome(2)] + ([Answer(1, false)] + ([Outcome(1)] + tail3)));
    ClaimRuns(q, 1, [Wait(301)] + ([RecoverRead(0)] + ([RecoverWrite(0)] + (Claim(2) + tail2))));
    var q4 := Recovered(now, envelope);
    Recovery(now, envelope, Claim(2) + tail2);
    var none: set<Sending> := {};
    assert none + {Sending(Some(envelope), 0, now)} == {Sending(Some(envelope), 0, now)};
    assert q.sends == none && q.hands[1 := Waiting(q.row, now)] == q4.hands;
    ClaimRuns(q4, 2, tail2);
    LateFailure(q4, tail3);
    var q8 := AfterLateFailure(q4);
    RunStep(q8, Wait(30), Claim(3) + []);
    var q9 := q8.(clock := q8.clock + 30);
    ClaimRuns(q9, 3, []);
    EndsInSend(q9, 3);
  }

  lemma EndsInSend(q: Queue, w: nat)
    requires w !in q.hands && q.row.status == Pending && q.row.nextAttemptAt <= q.clock
    ensures Sending(q.row.envelope, q.row.attempts, q.clock) in Run(q, Claim(w) + []).sends
  {
    ClaimRuns(q, w, []);
  }

  function Recovered(now: int, envelope: nat): Queue {
    Queue(now + 301, Row(Pending, 0, now, Some(envelope)),
          map[1 := Waiting(Row(Pending, 0, now, Some(envelope)), now)], map[], now, envelope, 1, 1,
          {Sending(Some(envelope), 0, now)})
  }

  lemma Recovery(now: int, envelope: nat, rest: seq<Step>)
    ensures Run(Recovered(now, envelope).(clock := now, row := Row(InFlight, 0, now, Some(envelope)), recoveries := 0),
                [Wait(301)] + ([RecoverRead(0)] + ([RecoverWrite(0)] + rest))) ==
            Run(Recovered(now, envelope), rest)
  {
    hide Run;
    var q1 := Recovered(now, envelope).(clock := now, row := Row(InFlight, 0, now, Some(envelope)), recoveries := 0);
    RunStep(q1, Wait(301), [RecoverRead(0)] + ([RecoverWrite(0)] + rest));
    var q2 := q1.(clock := now + 301);
    RunStep(q2, RecoverRead(0), [RecoverWrite(0)] + rest);
    var q3 := q2.(cutoffs := map[0 := now + 1]);
    RunStep(q3, RecoverWrite(0), rest);
    assert q3.cutoffs - {0} == map[];
  }

  function AfterLateFailure(q: Queue): Queue {
    q.(row := Row(Pending, 1, q.clock + 30, None), hands := map[], claims := q.claims + 1,
       sends := q.sends + {Sending(q.row.envelope, q.row.attempts, q.clock)})
  }

  lemma LateFailure(q: Queue, rest: seq<Step>)
    requires q.row.Row? && q.row.attempts == 0 && q.hands.Keys == {1} && q.hands[1].Waiting? && q.hands[1].copy.attempts == 0
    ensures var owned := q.(row := q.row.(status := InFlight, nextAttemptAt := q.clock),
                            hands := q.hands[2 := Waiting(q.row, q.clock)], claims := q.claims + 1,
                            sends := q.sends + {Sending(q.row.envelope, q.row.attempts, q.clock)});
            Run(owned, [Answer(2, true)] + ([Outcome(2)] + ([Answer(1, false)] + ([Outcome(1)] + rest)))) ==
            Run(AfterLateFailure(q), rest)
  {
    var owned := q.(row := q.row.(status := InFlight, nextAttemptAt := q.clock),
                    hands := q.hands[2 := Waiting(q.row, q.clock)], claims := q.claims + 1,
                    sends := q.sends + {Sending(q.row.envelope, q.row.attempts, q.clock)});
    hide Run;
    var q1 := DoAnswer(owned, 2, true);
    var q2 := DoOutcome(q1, 2);
    var q3 := DoAnswer(q2, 1, false);
    RunStep(owned, Answer(2, true), [Outcome(2)] + ([Answer(1, false)] + ([Outcome(1)] + rest)));
    RunStep(q1, Outcome(2), [Answer(1, false)] + ([Outcome(1)] + rest));
    assert q2.hands.Keys == {1} && q2.hands[1] == q.hands[1];
    RunStep(q2, Answer(1, false), [Outcome(1)] + rest);
    RunStep(q3, Outcome(1), rest);
    assert DoOutcome(q3, 1).hands == map[];
  }
}
