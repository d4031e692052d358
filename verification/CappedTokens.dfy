/** Burner tokens of an owner and invite tokens of a group: keys with a time to live beside a
    set that enumerates them, created under a cap by one script. */
module CappedTokens {
  import opened Common

  type Token = nat
  type Owner = nat

  const DAY := 86400
  const MAX_MESSAGES_PER_TOKEN: nat := 100

  datatype Kind = Burner | Invite
  {
    function Cap(): nat { if Burner? then 10 else 20 }

    function MinTtl(): int { 3600 }

    function MaxTtl(): int { 30 * DAY }

    /** Only the invite script gives the set a time to live. */
    function SetTtl(): Option<int> { if Burner? then None else Some(MaxTtl() + DAY) }

    function Ttl(asked: int): int { Max(MinTtl(), Min(asked, MaxTtl())) }
  }

  datatype Info = Info(owner: Owner, exp: int, count: nat)

  datatype Index = Index(members: set<Token>, exp: Option<int>)

  /** A listing that has read the members and is looking them up one by one. */
  datatype Listing = Listing(owner: Owner, todo: set<Token>, stale: set<Token>)

  /** `used`, `sent` and `taken` are history: tokens ever issued, messages let through, and
      how often an invite was handed to a consumer. */
  datatype Store = Store(
    clock: int, tokens: map<Token, Info>, sets: map<Owner, Index>,
    lists: map<nat, Listing>, cleanups: map<nat, (Owner, Token)>,
    used: set<Token>, sent: map<Token, nat>, taken: map<Token, nat>)

  datatype Step =
    | Wait(seconds: nat)
    | Create(owner: Owner, token: Token, ttl: int)
    | Send(token: Token)
    | Consume(o: nat, token: Token)
    | ConsumeCleanup(o: nat)
    | Revoke(owner: Owner, token: Token)
    | ListRead(o: nat, owner: Owner)
    | ListLook(o: nat, token: Token)
    | ListClean(o: nat)

  function Members(s: Store, owner: Owner): set<Token> { if owner in s.sets then s.sets[owner].members else {} }

  function Sent(s: Store, t: Token): nat { if t in s.sent then s.sent[t] else 0 }

  function Taken(s: Store, t: Token): nat { if t in s.taken then s.taken[t] else 0 }

  /** SREM: an empty set is gone with its time to live. */
  function Unlist(sets: map<Owner, Index>, owner: Owner, ts: set<Token>): map<Owner, Index> {
    if owner !in sets then sets
    else if sets[owner].members - ts == {} then sets - {owner}
    else sets[owner := sets[owner].(members := sets[owner].members - ts)]
  }

  function Tick(s: Store, seconds: nat): Store {
    var now := s.clock + seconds;
    s.(clock := now,
       tokens := map t | t in s.tokens && now < s.tokens[t].exp :: s.tokens[t],
       sets := map o | o in s.sets && (s.sets[o].exp.Some? ==> now < s.sets[o].exp.value) :: s.sets[o])
  }

  /** The members whose key exists: what the script counts. */
  function Alive(s: Store, owner: Owner): set<Token> { Members(s, owner) * s.tokens.Keys }

  /** SADD, and EXPIRE if there is a time to live to set. */
  function Enlist(sets: map<Owner, Index>, owner: Owner, t: Token, exp: Option<int>): map<Owner, Index> {
    var base := if owner in sets then sets[owner] else Index({}, None);
    sets[owner := Index(base.members + {t}, if exp.Some? then exp else base.exp)]
  }

  function Pruned(s: Store, owner: Owner): map<Owner, Index> {
    Unlist(s.sets, owner, Members(s, owner) - Alive(s, owner))
  }

  function SetExpiry(k: Kind, now: int): Option<int> {
    if k.SetTtl().Some? then Some(now + k.SetTtl().value) else None
  }

  /** The script: prune, count, and only below the cap insert. */
  function CreateScript(s: Store, k: Kind, owner: Owner, token: Token, ttl: int): (Store, bool) {
    if |Alive(s, owner)| >= k.Cap() then (s.(sets := Pruned(s, owner)), false)
    else
      (s.(tokens := s.tokens[token := Info(owner, s.clock + k.Ttl(ttl), 0)],
          sets := Enlist(Pruned(s, owner), owner, token, SetExpiry(k, s.clock)), used := s.used + {token}), true)
  }

  /** The counting script: one more message, or the token goes. */
  function SendScript(s: Store, t: Token): (Store, bool) {
    if t !in s.tokens then (s, false)
    else if s.tokens[t].count + 1 > MAX_MESSAGES_PER_TOKEN then
      (s.(tokens := s.tokens - {t}, sets := Unlist(s.sets, s.tokens[t].owner, {t})), false)
    else
      (s.(tokens := s.tokens[t := s.tokens[t].(count := s.tokens[t].count + 1)], sent := s.sent[t := Sent(s, t) + 1]), true)
  }

  function DoConsume(s: Store, o: nat, t: Token): Store {
    if t !in s.tokens || o in s.cleanups then s
    else s.(tokens := s.tokens - {t}, cleanups := s.cleanups[o := (s.tokens[t].owner, t)],
            taken := s.taken[t := Taken(s, t) + 1])
  }

  function DoListLook(s: Store, o: nat, t: Token): Store {
    if o !in s.lists || t !in s.lists[o].todo then s
    else
      var l := s.lists[o];
      s.(lists := s.lists[o := Listing(l.owner, l.todo - {t}, if t in s.tokens then l.stale else l.stale + {t})])
  }

  function Apply(s: Store, k: Kind, step: Step): Store {
    match step
    case Wait(d) => Tick(s, d)
    case Create(owner, t, ttl) => if t in s.used then s else CreateScript(s, k, owner, t, ttl).0
    case Send(t) => if k.Burner? then SendScript(s, t).0 else s
    case Consume(o, t) => if k.Invite? then DoConsume(s, o, t) else s
    case ConsumeCleanup(o) =>
      if o !in s.cleanups then s
      else s.(sets := Unlist(s.sets, s.cleanups[o].0, {s.cleanups[o].1}), cleanups := s.cleanups - {o})
    case Revoke(owner, t) => s.(tokens := s.tokens - {t}, sets := Unlist(s.sets, owner, {t}))
    case ListRead(o, owner) => if o in s.lists then s else s.(lists := s.lists[o := Listing(owner, Members(s, owner), {})])
    case ListLook(o, t) => DoListLook(s, o, t)
    case ListClean(o) =>
      if o !in s.lists then s
      else s.(sets := Unlist(s.sets, s.lists[o].owner, s.lists[o].stale), lists := s.lists - {o})
  }

  function Run(s: Store, k: Kind, steps: seq<Step>): Store
    decreases |steps|
  {
    if steps == [] then s else Run(Apply(s, k, steps[0]), k, steps[1..])
  }

  const EMPTY := Store(0, map[], map[], map[], map[], {}, map[], map[])

  // ---- the invariant, token by token and owner by owner ----

  predicate TokenInv(s: Store, k: Kind, t: Token) {
    && (t in s.tokens ==>
          var x := s.tokens[t];
          && t in s.used && t in Members(s, x.owner) && s.clock < x.exp <= s.clock + k.MaxTtl()
          && (s.sets[x.owner].exp.Some? ==> x.exp <= s.sets[x.owner].exp.value)
          && Sent(s, t) == x.count && Taken(s, t) == 0)
    && Sent(s, t) <= MAX_MESSAGES_PER_TOKEN && Taken(s, t) <= 1
    && (t !in s.used ==> Sent(s, t) == 0 && Taken(s, t) == 0)
  }

  predicate IndexInv(s: Store, owner: Owner) {
    && (forall t :: t in Members(s, owner) ==> t in s.used && (t in s.tokens ==> s.tokens[t].owner == owner))
    && (owner in s.sets ==> s.sets[owner].members != {})
  }

  predicate Dead(s: Store, t: Token) { t in s.used && t !in s.tokens }

  predicate ListingInv(s: Store, l: Listing) {
    (forall t :: t in l.stale ==> Dead(s, t)) && (forall t :: t in l.todo ==> t in s.used)
  }

  /** What a cleanup is about to unlist is dead for good. */
  predicate CleanupInv(s: Store) {
    && (forall o :: o in s.lists ==> ListingInv(s, s.lists[o]))
    && (forall o :: o in s.cleanups ==> Dead(s, s.cleanups[o].1))
  }

  function Live(s: Store, owner: Owner): set<Token> { set t | t in s.tokens && s.tokens[t].owner == owner }

  ghost predicate Inv(s: Store, k: Kind) {
    && (forall t :: TokenInv(s, k, t))
    && (forall owner :: IndexInv(s, owner) && |Live(s, owner)| <= k.Cap())
    && (k.Burner? ==> Timeless(s.sets))
    && CleanupInv(s)
  }

  lemma UnlistMembers(sets: map<Owner, Index>, owner: Owner, ts: set<Token>, x: Owner)
    ensures var u := Unlist(sets, owner, ts);
            && (x != owner ==> (x in u <==> x in sets) && (x in sets ==> u[x] == sets[x]))
            && (x in u ==> x in sets && u[x].exp == sets[x].exp)
            && (owner in u ==> u[owner].members == sets[owner].members - ts && u[owner].members != {})
            && (owner in sets && owner !in u ==> sets[owner].members - ts == {})
  {
  }

  /** The set the script counts is the set of truly live tokens. */
  lemma AliveIsLive(s: Store, k: Kind, owner: Owner)
    requires Inv(s, k)
    ensures Alive(s, owner) == Live(s, owner)
  {
    forall t ensures t in Alive(s, owner) <==> t in Live(s, owner) {
      assert TokenInv(s, k, t) && IndexInv(s, owner);
    }
  }

  // ---- tokens ----

  lemma TickToken(s: Store, k: Kind, d: nat, t: Token)
    requires TokenInv(s, k, t)
    ensures TokenInv(Tick(s, d), k, t)
  {
  }

  lemma PrunedMembers(s: Store, owner: Owner, o: Owner)
    ensures var u := Pruned(s, owner);
            && (if o in u then u[o].members else {}) == (if o == owner then Alive(s, o) else Members(s, o))
            && (o in u ==> o in s.sets && u[o].exp == s.sets[o].exp && (o == owner ==> u[o].members != {}))
            && (o != owner ==> (o in u <==> o in s.sets) && (o in u ==> u[o] == s.sets[o]))
  {
    UnlistMembers(s.sets, owner, Members(s, owner) - Alive(s, owner), o);
  }

  /** What the script leaves in each index and among the tokens. */
  lemma CreateFacts(s: Store, k: Kind, owner: Owner, x: Token, ttl: int, o: Owner)
    ensures var (v, ok) := CreateScript(s, k, owner, x, ttl);
            && v.clock == s.clock && v.sent == s.sent && v.taken == s.taken && v.lists == s.lists && v.cleanups == s.cleanups
            && v.used == (if ok then s.used + {x} else s.used)
            && v.tokens == (if ok then s.tokens[x := Info(owner, s.clock + k.Ttl(ttl), 0)] else s.tokens)
            && (ok <==> |Alive(s, owner)| < k.Cap())
    ensures var (v, ok) := CreateScript(s, k, owner, x, ttl);
            && Members(v, o) == (if o != owner then Members(s, o) else if ok then Alive(s, o) + {x} else Alive(s, o))
            && (o != owner && o in v.sets ==> o in s.sets && v.sets[o] == s.sets[o])
            && (o == owner && ok ==> o in v.sets)
  {
    PrunedMembers(s, owner, o);
    hide Pruned, Alive;
  }

  /** And its time to live: as before, or set anew, never under a token's. */
  lemma CreateExpiry(s: Store, k: Kind, owner: Owner, x: Token, ttl: int)
    ensures var (v, ok) := CreateScript(s, k, owner, x, ttl);
            owner in v.sets && v.sets[owner].exp.Some? ==>
              if ok && k.Invite? then v.sets[owner].exp == Some(s.clock + k.MaxTtl() + DAY)
              else owner in s.sets && v.sets[owner].exp == s.sets[owner].exp
  {
    PrunedMembers(s, owner, owner);
    hide Pruned, Alive;
  }

  lemma TtlBounds(k: Kind, ttl: int)
    ensures 0 < k.Ttl(ttl) <= k.MaxTtl()
  {
  }

  /** Burner indexes never get a time to live, so none can cut a token short. */
  lemma CreateToken(s: Store, k: Kind, owner: Owner, x: Token, ttl: int, t: Token)
    requires TokenInv(s, k, t) && TokenInv(s, k, x) && x !in s.used && IndexInv(s, owner)
    requires k.Burner? ==> Timeless(s.sets)
    ensures TokenInv(CreateScript(s, k, owner, x, ttl).0, k, t)
  {
    hide CreateScript, Pruned, k.Ttl, k.SetTtl, IndexInv;
    var (v, ok) := CreateScript(s, k, owner, x, ttl);
    TtlBounds(k, ttl);
    CreateFacts(s, k, owner, x, ttl, owner);
    CreateExpiry(s, k, owner, x, ttl);
    if k.Burner? { CreateTimeless(s, k, owner, x, ttl); }
    if t in s.tokens {
      CreateFacts(s, k, owner, x, ttl, s.tokens[t].owner);
    }
  }

  lemma SendToken(s: Store, k: Kind, x: Token, t: Token)
    requires TokenInv(s, k, t) && TokenInv(s, k, x)
    ensures TokenInv(SendScript(s, x).0, k, t)
  {
    if x in s.tokens && t in s.tokens {
      UnlistMembers(s.sets, s.tokens[x].owner, {x}, s.tokens[t].owner);
    }
    hide Unlist;
  }

  lemma UnlistToken(s: Store, k: Kind, v: Store, owner: Owner, ts: set<Token>, t: Token)
    requires TokenInv(s, k, t) && v.clock == s.clock && v.used == s.used
    requires v.tokens.Keys <= s.tokens.Keys && (forall x :: x in v.tokens ==> v.tokens[x] == s.tokens[x])
    requires v.sent == s.sent && v.taken == s.taken
    requires v.sets == Unlist(s.sets, owner, ts) && forall x :: x in ts ==> x !in v.tokens
    ensures TokenInv(v, k, t)
  {
    if t in v.tokens {
      UnlistMembers(s.sets, owner, ts, s.tokens[t].owner);
    }
  }

  lemma StepToken(s: Store, k: Kind, step: Step, t: Token)
    requires Inv(s, k)
    ensures TokenInv(Apply(s, k, step), k, t)
  {
    InvAt(s, k, t, 0);
    hide TokenInv, Inv, CreateScript, SendScript, Unlist, Tick, DoConsume, CleanupInv;
    var v := Apply(s, k, step);
    match step {
      case Wait(d) => TickToken(s, k, d, t);
      case Create(owner, x, ttl) =>
        InvAt(s, k, x, owner);
        if x !in s.used { CreateToken(s, k, owner, x, ttl, t); }
      case Send(x) =>
        InvAt(s, k, x, 0);
        SendToken(s, k, x, t);
      case Consume(o, x) =>
        InvAt(s, k, x, 0);
        ConsumeToken(s, k, o, x, t);
      case ConsumeCleanup(o) =>
        DeadCleanups(s, k, o);
        if o in s.cleanups { UnlistToken(s, k, v, s.cleanups[o].0, {s.cleanups[o].1}, t); }
      case Revoke(owner, x) => UnlistToken(s, k, v, owner, {x}, t);
      case ListClean(o) =>
        DeadCleanups(s, k, o);
        if o in s.lists { UnlistToken(s, k, v, s.lists[o].owner, s.lists[o].stale, t); }
      case _ => ListToken(s, k, step, t);
    }
  }

  lemma InvAt(s: Store, k: Kind, t: Token, owner: Owner)
    requires Inv(s, k)
    ensures TokenInv(s, k, t) && IndexInv(s, owner)
    ensures k.Burner? ==> Timeless(s.sets)
  {
  }

  lemma DeadCleanups(s: Store, k: Kind, o: nat)
    requires Inv(s, k)
    ensures o in s.cleanups ==> s.cleanups[o].1 !in s.tokens
    ensures o in s.lists ==> forall t :: t in s.lists[o].stale ==> t !in s.tokens
  {
  }

  lemma ListToken(s: Store, k: Kind, step: Step, t: Token)
    requires TokenInv(s, k, t) && (step.ListRead? || step.ListLook?)
    ensures TokenInv(Apply(s, k, step), k, t)
  {
  }

  lemma ConsumeToken(s: Store, k: Kind, o: nat, x: Token, t: Token)
    requires TokenInv(s, k, t) && TokenInv(s, k, x)
    ensures TokenInv(DoConsume(s, o, x), k, t)
  {
  }

  // ---- indexes ----

  /** An index that only loses members stays sound. */
  lemma IndexShrinks(s: Store, v: Store, owner: Owner)
    requires IndexInv(s, owner) && Members(v, owner) <= Members(s, owner) && s.used <= v.used
    requires forall t :: t in v.tokens ==> t in s.tokens && v.tokens[t].owner == s.tokens[t].owner
    requires owner in v.sets ==> v.sets[owner].members != {}
    ensures IndexInv(v, owner)
  {
  }

  lemma UnlistIndex(s: Store, v: Store, x: Owner, ts: set<Token>, owner: Owner)
    requires IndexInv(s, owner) && s.used <= v.used && v.sets == Unlist(s.sets, x, ts)
    requires forall t :: t in v.tokens ==> t in s.tokens && v.tokens[t].owner == s.tokens[t].owner
    ensures IndexInv(v, owner)
  {
    UnlistMembers(s.sets, x, ts, owner);
    hide Unlist;
    IndexShrinks(s, v, owner);
  }

  lemma CreateIndex(s: Store, k: Kind, x: Owner, t: Token, ttl: int, owner: Owner)
    requires IndexInv(s, owner) && t !in s.used && TokenInv(s, k, t)
    ensures IndexInv(CreateScript(s, k, x, t, ttl).0, owner)
  {
    CreateFacts(s, k, x, t, ttl, owner);
    CreatePrunes(s, k, x, t, ttl);
    hide CreateScript;
  }

  lemma CreatePrunes(s: Store, k: Kind, x: Owner, t: Token, ttl: int)
    ensures var v := CreateScript(s, k, x, t, ttl).0;
            x in v.sets ==> v.sets[x].members != {}
  {
    PrunedMembers(s, x, x);
    hide Pruned, Alive;
  }

  lemma StepIndex(s: Store, k: Kind, step: Step, owner: Owner)
    requires Inv(s, k)
    ensures IndexInv(Apply(s, k, step), owner)
  {
    InvAt(s, k, 0, owner);
    hide TokenInv, IndexInv, Inv, CreateScript, Unlist;
    var v := Apply(s, k, step);
    match step {
      case Wait(d) => TickIndex(s, d, owner);
      case Create(x, t, ttl) =>
        InvAt(s, k, t, owner);
        if t !in s.used { CreateIndex(s, k, x, t, ttl, owner); }
      case Send(t) => SendIndex(s, t, owner);
      case ConsumeCleanup(o) => if o in s.cleanups { UnlistIndex(s, v, s.cleanups[o].0, {s.cleanups[o].1}, owner); }
      case Revoke(x, t) => UnlistIndex(s, v, x, {t}, owner);
      case ListClean(o) => if o in s.lists { UnlistIndex(s, v, s.lists[o].owner, s.lists[o].stale, owner); }
      case _ => SameIndex(s, v, owner);
    }
  }

  lemma TickIndex(s: Store, d: nat, owner: Owner)
    requires IndexInv(s, owner)
    ensures IndexInv(Tick(s, d), owner)
  {
  }

  lemma SendIndex(s: Store, t: Token, owner: Owner)
    requires IndexInv(s, owner)
    ensures IndexInv(SendScript(s, t).0, owner)
  {
    if t in s.tokens {
      if s.tokens[t].count + 1 > MAX_MESSAGES_PER_TOKEN {
        UnlistIndex(s, SendScript(s, t).0, s.tokens[t].owner, {t}, owner);
      }
    }
    hide Unlist;
  }

  lemma SameIndex(s: Store, v: Store, owner: Owner)
    requires IndexInv(s, owner) && v.sets == s.sets && v.used == s.used
    requires forall t :: t in v.tokens ==> t in s.tokens && v.tokens[t].owner == s.tokens[t].owner
    ensures IndexInv(v, owner)
  {
  }

  predicate Timeless(sets: map<Owner, Index>) { forall o :: o in sets ==> sets[o].exp.None? }

  lemma UnlistTimeless(sets: map<Owner, Index>, x: Owner, ts: set<Token>)
    requires Timeless(sets)
    ensures Timeless(Unlist(sets, x, ts))
  {
  }

  /** Only the invite script gives an index a time to live. */
  lemma CreateTimeless(s: Store, k: Kind, x: Owner, t: Token, ttl: int)
    requires Timeless(s.sets) && k.Burner?
    ensures Timeless(CreateScript(s, k, x, t, ttl).0.sets)
  {
    UnlistTimeless(s.sets, x, Members(s, x) - Alive(s, x));
    hide Unlist, Alive;
  }

  lemma SendTimeless(s: Store, t: Token)
    requires Timeless(s.sets)
    ensures Timeless(SendScript(s, t).0.sets)
  {
    if t in s.tokens { UnlistTimeless(s.sets, s.tokens[t].owner, {t}); }
    hide Unlist;
  }

  lemma StepTimeless(s: Store, k: Kind, step: Step)
    requires Timeless(s.sets) && k.Burner?
    ensures Timeless(Apply(s, k, step).sets)
  {
    hide Unlist, CreateScript, SendScript, Alive;
    match step {
      case Create(x, t, ttl) => CreateTimeless(s, k, x, t, ttl);
      case Send(t) => SendTimeless(s, t);
      case Revoke(x, t) => UnlistTimeless(s.sets, x, {t});
      case ConsumeCleanup(c) => if c in s.cleanups { UnlistTimeless(s.sets, s.cleanups[c].0, {s.cleanups[c].1}); }
      case ListClean(c) => if c in s.lists { UnlistTimeless(s.sets, s.lists[c].owner, s.lists[c].stale); }
      case _ =>
    }
  }

  // ---- cleanups ----

  /** A used token whose key is gone stays gone. */
  lemma DeadStaysDead(s: Store, k: Kind, step: Step, t: Token)
    requires t in s.used && t !in s.tokens
    ensures t in Apply(s, k, step).used && t !in Apply(s, k, step).tokens
  {
    if step.Create? {
      CreateFacts(s, k, step.owner, step.token, step.ttl, step.owner);
    }
    hide CreateScript, Unlist;
  }

  lemma UsedStaysUsed(s: Store, k: Kind, step: Step)
    ensures s.used <= Apply(s, k, step).used
  {
    if step.Create? {
      CreateFacts(s, k, step.owner, step.token, step.ttl, step.owner);
    }
    hide CreateScript, Unlist;
  }

  lemma ListAfter(s: Store, k: Kind, step: Step, o: nat)
    requires o in Apply(s, k, step).lists
    ensures var l := Apply(s, k, step).lists[o];
            || (o in s.lists && l == s.lists[o])
            || (step.ListRead? && l == Listing(step.owner, Members(s, step.owner), {}))
            || (step.ListLook? && o in s.lists && step.token in s.lists[o].todo && l.todo <= s.lists[o].todo
                && l.stale == if step.token in s.tokens then s.lists[o].stale else s.lists[o].stale + {step.token})
  {
    if step.Create? {
      CreateFacts(s, k, step.owner, step.token, step.ttl, step.owner);
    }
    hide CreateScript, Unlist, Members;
  }

  lemma CleanupAfter(s: Store, k: Kind, step: Step, o: nat)
    requires o in Apply(s, k, step).cleanups
    ensures var v := Apply(s, k, step);
            || (o in s.cleanups && v.cleanups[o] == s.cleanups[o])
            || (step.Consume? && v.cleanups[o].1 == step.token && step.token in s.tokens && step.token !in v.tokens)
  {
    if step.Create? {
      CreateFacts(s, k, step.owner, step.token, step.ttl, step.owner);
    }
    hide CreateScript, Unlist;
  }

  lemma CleanupsOf(s: Store, k: Kind)
    requires Inv(s, k)
    ensures CleanupInv(s)
  {
  }

  /** What a request does for its token before CleanupInv can rely on it. */
  lemma RequestUsed(s: Store, k: Kind, step: Step)
    requires Inv(s, k)
    ensures step.Consume? && step.token in s.tokens ==> step.token in s.used
    ensures step.ListRead? ==> forall t :: t in Members(s, step.owner) ==> t in s.used
  {
    if step.Consume? { InvAt(s, k, step.token, 0); }
    if step.ListRead? { InvAt(s, k, 0, step.owner); }
  }

  lemma StepListing(s: Store, k: Kind, step: Step, o: nat)
    requires Inv(s, k) && o in Apply(s, k, step).lists
    ensures ListingInv(Apply(s, k, step), Apply(s, k, step).lists[o])
  {
    ListAfter(s, k, step, o);
    UsedStaysUsed(s, k, step);
    RequestUsed(s, k, step);
    CleanupsOf(s, k);
    forall t | Dead(s, t) ensures Dead(Apply(s, k, step), t) { DeadStaysDead(s, k, step, t); }
    hide Apply, Inv, Members;
  }

  lemma StepCleanup(s: Store, k: Kind, step: Step)
    requires Inv(s, k)
    ensures CleanupInv(Apply(s, k, step))
  {
    hide Apply, Inv, Members, ListingInv;
    var v := Apply(s, k, step);
    CleanupsOf(s, k);
    RequestUsed(s, k, step);
    UsedStaysUsed(s, k, step);
    forall o | o in v.lists ensures ListingInv(v, v.lists[o]) { StepListing(s, k, step, o); }
    forall o | o in v.cleanups ensures Dead(v, v.cleanups[o].1) {
      CleanupAfter(s, k, step, o);
      if o in s.cleanups && v.cleanups[o] == s.cleanups[o] { DeadStaysDead(s, k, step, v.cleanups[o].1); }
    }
  }

  // ---- the cap ----

  /** Which tokens live: none appears but the script's. */
  lemma LiveAfter(s: Store, k: Kind, step: Step, t: Token)
    requires !(step.Create? && step.token !in s.used && CreateScript(s, k, step.owner, step.token, step.ttl).1)
    ensures t in Apply(s, k, step).tokens ==> t in s.tokens && Apply(s, k, step).tokens[t].owner == s.tokens[t].owner
  {
    if step.Create? {
      CreateFacts(s, k, step.owner, step.token, step.ttl, step.owner);
    }
    hide CreateScript, Unlist;
  }

  lemma LivePlus(s: Store, v: Store, t: Token, x: Info, owner: Owner)
    requires t !in s.tokens && v.tokens == s.tokens[t := x]
    ensures Live(v, owner) == if owner == x.owner then Live(s, owner) + {t} else Live(s, owner)
    ensures |Live(v, owner)| == |Live(s, owner)| + if owner == x.owner then 1 else 0
  {
    assert Live(v, owner) == if owner == x.owner then Live(s, owner) + {t} else Live(s, owner);
    assert t !in Live(s, owner);
  }

  lemma CreateLive(s: Store, k: Kind, x: Owner, t: Token, ttl: int, owner: Owner)
    requires Inv(s, k) && t !in s.used && CreateScript(s, k, x, t, ttl).1
    ensures |Live(CreateScript(s, k, x, t, ttl).0, owner)| <= k.Cap()
  {
    hide *;
    AliveIsLive(s, k, x);
    CreateFacts(s, k, x, t, ttl, x);
    FreshNotLive(s, k, t);
    CapAt(s, k, owner);
    LivePlus(s, CreateScript(s, k, x, t, ttl).0, t, Info(x, s.clock + k.Ttl(ttl), 0), owner);
  }

  lemma FreshNotLive(s: Store, k: Kind, t: Token)
    requires Inv(s, k) && t !in s.used
    ensures t !in s.tokens
  {
    assert TokenInv(s, k, t);
  }

  /** The cap: only the script adds a live token, and only below it. */
  lemma StepLive(s: Store, k: Kind, step: Step, owner: Owner)
    requires Inv(s, k)
    ensures |Live(Apply(s, k, step), owner)| <= k.Cap()
  {
    hide Inv, CreateScript, SendScript, Tick;
    var v := Apply(s, k, step);
    if step.Create? && step.token !in s.used && CreateScript(s, k, step.owner, step.token, step.ttl).1 {
      CreateLive(s, k, step.owner, step.token, step.ttl, owner);
    } else {
      CapAt(s, k, owner);
      forall t | t in v.tokens ensures t in s.tokens && v.tokens[t].owner == s.tokens[t].owner { LiveAfter(s, k, step, t); }
      SubsetSize(Live(v, owner), Live(s, owner));
    }
  }

  lemma CapAt(s: Store, k: Kind, owner: Owner)
    requires Inv(s, k)
    ensures |Live(s, owner)| <= k.Cap()
  {
    assert IndexInv(s, owner);
  }

  lemma StepKeeps(s: Store, k: Kind, step: Step)
    requires Inv(s, k)
    ensures Inv(Apply(s, k, step), k)
  {
    hide *;
    var v := Apply(s, k, step);
    forall t ensures TokenInv(v, k, t) { StepToken(s, k, step, t); }
    forall owner ensures IndexInv(v, owner) && |Live(v, owner)| <= k.Cap() {
      StepIndex(s, k, step, owner);
      StepLive(s, k, step, owner);
    }
    if k.Burner? {
      InvAt(s, k, 0, 0);
      StepTimeless(s, k, step);
    }
    StepCleanup(s, k, step);
    InvFrom(v, k);
  }

  lemma InvFrom(v: Store, k: Kind)
    requires forall t :: TokenInv(v, k, t)
    requires forall owner :: IndexInv(v, owner) && |Live(v, owner)| <= k.Cap()
    requires k.Burner? ==> Timeless(v.sets)
    requires CleanupInv(v)
    ensures Inv(v, k)
  {
  }

  lemma {:induction false} RunKeeps(s: Store, k: Kind, steps: seq<Step>)
    requires Inv(s, k)
    ensures Inv(Run(s, k, steps), k)
    decreases |steps|
  {
    if steps != [] {
      StepKeeps(s, k, steps[0]);
      RunKeeps(Apply(s, k, steps[0]), k, steps[1..]);
    }
  }
}
