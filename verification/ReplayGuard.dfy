/** One-time acceptance of signed events: a freshness check, then a claim key that is set
    only if absent and dies after the window. Federated events and sensitive actions share it. */
module ReplayGuard {
  import opened Common

  datatype Kind = DataDelete | GroupGone | SensitiveAction
  {
    function Window(): int {
      match this
      case DataDelete => 7 * 86400
      case GroupGone => 3600
      case SensitiveAction => 300
    }

    /** The claim key's time to live; only the federation helper has the floor of a minute. */
    function ClaimTtl(): int { if SensitiveAction? then Window() else Max(Window(), 60) }
  }

  /** `subject` is the nonce of an action or the envelope of an event; `rest` is whatever else
      is signed: target, action and relay, or the group. */
  datatype Event = Event(kind: Kind, signer: nat, subject: nat, rest: nat, ts: int)
  {
    predicate FreshAt(now: int) { -kind.Window() <= now - ts <= kind.Window() }

    /** A federated event is claimed by all that is signed, an action by signer and nonce. */
    function Key(): ClaimKey {
      if kind.SensitiveAction? then NonceKey(signer, subject) else EventKey(kind, signer, subject, rest, ts)
    }
  }

  datatype ClaimKey = EventKey(kind: Kind, signer: nat, subject: nat, rest: nat, ts: int) | NonceKey(signer: nat, nonce: nat)

  /** `verified`: requests past the freshness and signature checks, with the time they read.
      `first`, `accepts` and `spent` are history: when an event was first accepted, how often,
      and when its key was set. */
  datatype Guard = Guard(
    clock: int, keys: map<ClaimKey, int>, verified: map<nat, (Event, int)>,
    first: map<Event, int>, accepts: map<Event, nat>, spent: map<ClaimKey, seq<int>>)

  datatype Step = Wait(seconds: nat) | Verify(o: nat, e: Event) | Claim(o: nat)

  function Accepts(g: Guard, e: Event): nat { if e in g.accepts then g.accepts[e] else 0 }

  predicate Claimed(g: Guard, e: Event) { e.Key() in g.keys && g.clock < g.keys[e.Key()] }

  /** When the key was set, in order. */
  function Spent(g: Guard, k: ClaimKey): seq<int> { if k in g.spent then g.spent[k] else [] }

  function DoVerify(g: Guard, o: nat, e: Event): Guard {
    if o in g.verified || !e.FreshAt(g.clock) then g else g.(verified := g.verified[o := (e, g.clock)])
  }

  function DoClaim(g: Guard, o: nat): Guard {
    if o !in g.verified then g
    else
      var e := g.verified[o].0;
      var done := g.(verified := g.verified - {o});
      if Claimed(g, e) then done
      else done.(keys := g.keys[e.Key() := g.clock + e.kind.ClaimTtl()],
                 first := if e in g.first then g.first else g.first[e := g.clock],
                 accepts := g.accepts[e := Accepts(g, e) + 1],
                 spent := g.spent[e.Key() := Spent(g, e.Key()) + [g.clock]])
  }

  function Apply(g: Guard, step: Step): Guard {
    match step
    case Wait(d) => g.(clock := g.clock + d)
    case Verify(o, e) => DoVerify(g, o, e)
    case Claim(o) => DoClaim(g, o)
  }

  function Run(g: Guard, steps: seq<Step>): Guard
    decreases |steps|
  {
    if steps == [] then g else Run(Apply(g, steps[0]), steps[1..])
  }

  function Start(now: int): Guard { Guard(now, map[], map[], map[], map[], map[]) }

  /** No request claims more than `delay` seconds after it read the clock. */
  predicate Prompt(g: Guard, steps: seq<Step>, delay: nat)
    decreases |steps|
  {
    steps == [] ||
    ((steps[0].Claim? && steps[0].o in g.verified ==> g.clock <= g.verified[steps[0].o].1 + delay)
     && Prompt(Apply(g, steps[0]), steps[1..], delay))
  }

  predicate EventInv(g: Guard, e: Event, delay: nat) {
    && (e in g.first <==> Accepts(g, e) > 0)
    && (e in g.first ==>
          && e.Key() in g.keys && g.first[e] <= g.clock && g.first[e] + e.kind.ClaimTtl() <= g.keys[e.Key()]
          && (e.ts + delay < g.first[e] ==> Accepts(g, e) == 1))
  }

  function KeyTtl(k: ClaimKey): int { if k.NonceKey? then SensitiveAction.ClaimTtl() else k.kind.ClaimTtl() }

  /** A key is set only when its last setting has run out. */
  predicate KeyInv(g: Guard, k: ClaimKey) {
    var ts := Spent(g, k);
    && (ts != [] ==> k in g.keys && g.keys[k] == ts[|ts| - 1] + KeyTtl(k))
    && (ts == [] ==> k !in g.keys)
    && (forall i, j :: 0 <= i < j < |ts| ==> ts[i] + KeyTtl(k) <= ts[j])
  }

  ghost predicate Inv(g: Guard, delay: nat) {
    && (forall e :: EventInv(g, e, delay))
    && (forall k :: KeyInv(g, k))
    && (forall o :: o in g.verified ==> g.verified[o].0.FreshAt(g.verified[o].1) && g.verified[o].1 <= g.clock)
  }

  lemma ClaimKeeps(g: Guard, o: nat, delay: nat, e: Event)
    requires Inv(g, delay) && (o in g.verified ==> g.clock <= g.verified[o].1 + delay)
    ensures EventInv(DoClaim(g, o), e, delay)
  {
    assert EventInv(g, e, delay);
    if o in g.verified && g.verified[o].0 == e && e in g.first && e.ts + delay < g.first[e] {
      assert e.FreshAt(g.verified[o].1);
      assert g.clock < g.keys[e.Key()];
    }
  }

  lemma ClaimKeepsKey(g: Guard, o: nat, delay: nat, k: ClaimKey)
    requires Inv(g, delay)
    ensures KeyInv(DoClaim(g, o), k)
  {
    assert KeyInv(g, k);
    if o in g.verified && g.verified[o].0.Key() == k {
      assert KeyTtl(k) == g.verified[o].0.kind.ClaimTtl();
      hide KeyTtl;
    }
  }

  lemma StepKeeps(g: Guard, step: Step, delay: nat)
    requires Inv(g, delay)
    requires step.Claim? && step.o in g.verified ==> g.clock <= g.verified[step.o].1 + delay
    ensures Inv(Apply(g, step), delay)
  {
    hide EventInv, KeyInv;
    var v := Apply(g, step);
    forall e ensures EventInv(v, e, delay) {
      assert EventInv(g, e, delay);
      if step.Claim? { ClaimKeeps(g, step.o, delay, e); } else { LaterEvent(g, v, e, delay); }
    }
    forall k ensures KeyInv(v, k) {
      assert KeyInv(g, k);
      if step.Claim? { ClaimKeepsKey(g, step.o, delay, k); } else { SameKey(g, v, k); }
    }
    hide DoClaim;
  }

  lemma LaterEvent(g: Guard, v: Guard, e: Event, delay: nat)
    requires EventInv(g, e, delay) && v == g.(clock := v.clock, verified := v.verified) && g.clock <= v.clock
    ensures EventInv(v, e, delay)
  {
  }

  lemma SameKey(g: Guard, v: Guard, k: ClaimKey)
    requires KeyInv(g, k) && v == g.(clock := v.clock, verified := v.verified)
    ensures KeyInv(v, k)
  {
  }

  lemma {:induction false} RunKeeps(g: Guard, steps: seq<Step>, delay: nat)
    requires Inv(g, delay) && Prompt(g, steps, delay)
    ensures Inv(Run(g, steps), delay)
    decreases |steps|
  {
    if steps != [] {
      StepKeeps(g, steps[0], delay);
      RunKeeps(Apply(g, steps[0]), steps[1..], delay);
    }
  }

  /** An event first accepted later than its own timestamp, by more than any request dawdles
      between checking and claiming, is accepted once and never again. */
  lemma LateFirstAcceptIsLast(now: int, steps: seq<Step>, delay: nat, e: Event)
    requires Prompt(Start(now), steps, delay)
    ensures var g := Run(Start(now), steps);
            e in g.first && e.ts + delay < g.first[e] ==> Accepts(g, e) == 1
  {
    StartInv(now, delay);
    RunKeeps(Start(now), steps, delay);
    assert EventInv(Run(Start(now), steps), e, delay);
  }

  /** Two acceptances under one key, were they of different actions even, lie at least the
      key's life apart: a nonce is good for one action per window. */
  lemma OneAcceptancePerKeyLife(now: int, steps: seq<Step>, delay: nat, k: ClaimKey, i: nat, j: nat)
    requires Prompt(Start(now), steps, delay)
    ensures var ts := Spent(Run(Start(now), steps), k); i < j < |ts| ==> ts[i] + KeyTtl(k) <= ts[j]
  {
    StartInv(now, delay);
    RunKeeps(Start(now), steps, delay);
    assert KeyInv(Run(Start(now), steps), k);
  }

  lemma StartInv(now: int, delay: nat)
    ensures Inv(Start(now), delay)
  {
  }

  lemma RunStep(g: Guard, step: Step, rest: seq<Step>)
    ensures Run(g, [step] + rest) == Run(Apply(g, step), rest)
  {
    assert ([step] + rest)[1..] == rest;
  }

  /** The accept, and one more when the key has just died. */
  function Twice(e: Event): seq<Step> {
    [Verify(0, e)] + ([Claim(0)] + ([Wait(e.kind.Window())] + ([Verify(0, e)] + ([Claim(0)] + []))))
  }

  lemma TwiceRuns(now: int, e: Event)
    requires e.FreshAt(now)
    ensures var g := Run(Start(now), Twice(e));
            e in g.first && g.first[e] == now && Accepts(g, e) == if now <= e.ts then 2 else 1
    ensures Prompt(Start(now), Twice(e), 0)
  {
    var W := e.kind.Window();
    var g0 := Start(now);
    var g1 := Apply(g0, Verify(0, e));
    var g2 := Apply(g1, Claim(0));
    var g3 := Apply(g2, Wait(W));
    var g4 := Apply(g3, Verify(0, e));
    RunStep(g0, Verify(0, e), [Claim(0)] + ([Wait(W)] + ([Verify(0, e)] + ([Claim(0)] + []))));
    RunStep(g1, Claim(0), [Wait(W)] + ([Verify(0, e)] + ([Claim(0)] + [])));
    RunStep(g2, Wait(W), [Verify(0, e)] + ([Claim(0)] + []));
    RunStep(g3, Verify(0, e), [Claim(0)] + []);
    RunStep(g4, Claim(0), []);
    TwicePrompt(g0, e);
  }

  lemma PromptStep(g: Guard, step: Step, rest: seq<Step>)
    requires Prompt(Apply(g, step), rest, 0)
    requires step.Claim? && step.o in g.verified ==> g.clock <= g.verified[step.o].1
    ensures Prompt(g, [step] + rest, 0)
  {
    assert ([step] + rest)[1..] == rest;
  }

  lemma TwicePrompt(g: Guard, e: Event)
    requires g.verified == map[]
    ensures Prompt(g, Twice(e), 0)
  {
    var W := e.kind.Window();
    var g1 := Apply(g, Verify(0, e));
    var g2 := Apply(g1, Claim(0));
    var g3 := Apply(g2, Wait(W));
    var g4 := Apply(g3, Verify(0, e));
    assert 0 !in g3.verified;
    PromptStep(g4, Claim(0), []);
    PromptStep(g3, Verify(0, e), [Claim(0)] + []);
    PromptStep(g2, Wait(W), [Verify(0, e)] + ([Claim(0)] + []));
    PromptStep(g1, Claim(0), [Wait(W)] + ([Verify(0, e)] + ([Claim(0)] + [])));
    PromptStep(g, Verify(0, e), [Claim(0)] + ([Wait(W)] + ([Verify(0, e)] + ([Claim(0)] + []))));
  }

  predicate FirstAt(g: Guard, e: Event, now: int) { e in g.first && g.first[e] == now }

  /** With nothing between check and claim: for a first acceptance at `now`, no run whatever
      accepts the event again exactly when `now` is past the event's own timestamp. */
  lemma AtMostOnceIff(e: Event, now: int)
    requires e.FreshAt(now)
    ensures e.ts < now <==>
            forall steps :: Prompt(Start(now), steps, 0) && FirstAt(Run(Start(now), steps), e, now) ==>
              Accepts(Run(Start(now), steps), e) == 1
  {
    TwiceRuns(now, e);
    if e.ts < now {
      forall steps | Prompt(Start(now), steps, 0) && FirstAt(Run(Start(now), steps), e, now)
        ensures Accepts(Run(Start(now), steps), e) == 1
      {
        LateFirstAcceptIsLast(now, steps, 0, e);
      }
    }
  }

  /** One claim key per action nonce of a signer, whatever the action; and one per federated
      event, told apart by everything that is signed. */
  lemma SameKeyIff(d: Event, e: Event)
    ensures d.Key() == e.Key() <==>
              if d.kind.SensitiveAction? && e.kind.SensitiveAction? then d.signer == e.signer && d.subject == e.subject
              else d == e
  {
  }

  /** The claim keys updated in place; each call is a check and a claim with nothing between. */
  class ClaimStore {
    var clock: int
    var keys: map<ClaimKey, int>
    ghost var first: map<Event, int>
    ghost var accepts: map<Event, nat>
    ghost var spent: map<ClaimKey, seq<int>>

    ghost function View(): Guard
      reads this
    {
      Guard(clock, keys, map[], first, accepts, spent)
    }

    constructor (now: int)
      ensures View() == Start(now)
    {
      clock, keys, first, accepts, spent := now, map[], map[], map[], map[];
    }

    method Accept(e: Event) returns (ok: bool)
      requires Inv(View(), 0)
      modifies this
      ensures ok <==> e.FreshAt(clock) && !Claimed(old(View()), e)
      ensures var window := if e.kind.DataDelete? then 604800 else if e.kind.GroupGone? then 3600 else 300;
              && (ok <==> e.ts - window <= clock <= e.ts + window
                          && (e.Key() in old(keys) ==> old(keys)[e.Key()] <= clock))
              && keys == if ok then old(keys)[e.Key() := clock + window] else old(keys)
      ensures View() == DoClaim(DoVerify(old(View()), 0, e), 0)
      ensures ok && e in old(first) ==> old(first)[e] <= e.ts
      ensures Inv(View(), 0)
    {
      hide Inv, EventInv, KeyInv, DoClaim, DoVerify, e.Key, e.FreshAt;
      ghost var g := View();
      AcceptKeeps(g, e);
      AcceptEffect(g, e);
      WindowOf(e, clock);
      if !e.FreshAt(clock) {
        return false;
      }
      var k := e.Key();
      if k in keys && clock < keys[k] {
        return false;
      }
      keys := keys[k := clock + e.kind.ClaimTtl()];
      accepts, spent := accepts[e := Accepts(g, e) + 1], spent[k := Spent(g, k) + [clock]];
      if e !in first {
        first := first[e := clock];
      }
      return true;
    }
  }

  lemma WindowOf(e: Event, now: int)
    ensures var window := if e.kind.DataDelete? then 604800 else if e.kind.GroupGone? then 3600 else 300;
            e.kind.ClaimTtl() == window && (e.FreshAt(now) <==> e.ts - window <= now <= e.ts + window)
  {
  }

  /** What an accepted event writes; a refused one writes nothing. */
  lemma AcceptEffect(g: Guard, e: Event)
    requires g.verified == map[]
    ensures var k := e.Key();
            DoClaim(DoVerify(g, 0, e), 0) ==
            if !e.FreshAt(g.clock) || Claimed(g, e) then g
            else g.(keys := g.keys[k := g.clock + e.kind.ClaimTtl()],
                    first := if e in g.first then g.first else g.first[e := g.clock],
                    accepts := g.accepts[e := Accepts(g, e) + 1], spent := g.spent[k := Spent(g, k) + [g.clock]])
  {
    hide e.Key, e.FreshAt, e.kind.ClaimTtl;
    var none: map<nat, (Event, int)> := map[];
    assert none[0 := (e, g.clock)] - {0} == none;
  }

  lemma AcceptKeeps(g: Guard, e: Event)
    requires Inv(g, 0) && g.verified == map[]
    ensures Inv(DoClaim(DoVerify(g, 0, e), 0), 0)
    ensures e.FreshAt(g.clock) && !Claimed(g, e) && e in g.first ==> g.first[e] <= e.ts
  {
    var g1 := DoVerify(g, 0, e);
    assert Inv(g1, 0) by {
      forall x ensures EventInv(g1, x, 0) { assert EventInv(g, x, 0); }
      forall k ensures KeyInv(g1, k) { assert KeyInv(g, k); }
    }
    forall x ensures EventInv(DoClaim(g1, 0), x, 0) { ClaimKeeps(g1, 0, 0, x); }
    forall k ensures KeyInv(DoClaim(g1, 0), k) { ClaimKeepsKey(g1, 0, 0, k); }
    assert EventInv(g, e, 0);
    hide EventInv, KeyInv, DoVerify;
  }
}
