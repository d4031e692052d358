/** What the token caps guarantee over every run, and the operations in place. */
module TokenService {
  import opened Common
  import opened CappedTokens

  lemma Reachable(k: Kind, steps: seq<Step>)
    ensures Inv(Run(EMPTY, k, steps), k)
  {
    forall t ensures TokenInv(EMPTY, k, t) {}
    forall owner: Owner ensures IndexInv(EMPTY, owner) && |Live(EMPTY, owner)| <= k.Cap() {
      assert Live(EMPTY, owner) == {};
    }
    RunKeeps(EMPTY, k, steps);
  }

  /** A live token is enumerated: it is in its owner's index, which does not die before it. */
  lemma LiveIsListed(k: Kind, steps: seq<Step>, t: Token)
    ensures var s := Run(EMPTY, k, steps);
            t in s.tokens ==>
              var o := s.tokens[t].owner;
              t in Members(s, o) && (s.sets[o].exp.Some? ==> s.tokens[t].exp <= s.sets[o].exp.value)
  {
    Reachable(k, steps);
    InvAt(Run(EMPTY, k, steps), k, t, 0);
  }

  /** Creation is refused exactly when the cap is reached by tokens that really live. */
  lemma CreateRefusedIff(k: Kind, steps: seq<Step>, owner: Owner, t: Token, ttl: int)
    ensures var s := Run(EMPTY, k, steps);
            && |Live(s, owner)| <= k.Cap()
            && (!CreateScript(s, k, owner, t, ttl).1 <==> |Live(s, owner)| == k.Cap())
  {
    var s := Run(EMPTY, k, steps);
    Reachable(k, steps);
    AliveIsLive(s, k, owner);
    CapAt(s, k, owner);
    CreateFacts(s, k, owner, t, ttl, owner);
    hide *;
  }

  /** A live burner token lets a message through exactly until its hundredth. */
  lemma SendAcceptedIff(k: Kind, steps: seq<Step>, t: Token)
    ensures var s := Run(EMPTY, k, steps);
            && Sent(s, t) <= MAX_MESSAGES_PER_TOKEN
            && (SendScript(s, t).1 <==> t in s.tokens && Sent(s, t) < MAX_MESSAGES_PER_TOKEN)
  {
    Reachable(k, steps);
    InvAt(Run(EMPTY, k, steps), k, t, 0);
  }

  /** An invite is handed to at most one consumer, and only while nobody had it. */
  lemma ConsumedAtMostOnce(k: Kind, steps: seq<Step>, t: Token, o: nat)
    ensures var s := Run(EMPTY, k, steps);
            && Taken(s, t) <= 1
            && (DoConsume(s, o, t) != s ==> Taken(s, t) == 0 && Taken(DoConsume(s, o, t), t) == 1)
  {
    Reachable(k, steps);
    InvAt(Run(EMPTY, k, steps), k, t, 0);
  }

  lemma DeadCounts(s: Store, k: Kind, step: Step, t: Token)
    requires Dead(s, t)
    ensures var v := Apply(s, k, step); Sent(v, t) == Sent(s, t) && Taken(v, t) == Taken(s, t)
  {
    if step.Create? { CreateFacts(s, k, step.owner, step.token, step.ttl, step.owner); }
    hide CreateScript, Unlist;
  }

  /** Revoked, used up, consumed or expired: the token never comes back, sends nothing and is
      given to nobody, whatever requests were in flight. */
  lemma {:induction false} DeadForever(s: Store, k: Kind, steps: seq<Step>, t: Token)
    requires Dead(s, t)
    ensures var v := Run(s, k, steps);
            Dead(v, t) && Sent(v, t) == Sent(s, t) && Taken(v, t) == Taken(s, t)
    decreases |steps|
  {
    if steps != [] {
      DeadStaysDead(s, k, steps[0], t);
      DeadCounts(s, k, steps[0], t);
      DeadForever(Apply(s, k, steps[0]), k, steps[1..], t);
    }
  }

  /** A revocation and the send past the hundredth both kill the token. */
  lemma RevokeKills(k: Kind, steps: seq<Step>, owner: Owner, t: Token)
    ensures var s := Run(EMPTY, k, steps);
            t in s.tokens ==>
              && Dead(Apply(s, k, Revoke(owner, t)), t)
              && (k.Burner? && Sent(s, t) == MAX_MESSAGES_PER_TOKEN ==> Dead(Apply(s, k, Send(t)), t))
  {
    Reachable(k, steps);
    InvAt(Run(EMPTY, k, steps), k, t, 0);
  }

  /** The listing's cleanup, though it looked the members up one by one and much later,
      removes no live token from the index. */
  lemma CleanupKeepsLive(k: Kind, steps: seq<Step>, o: nat, t: Token)
    ensures var s := Run(EMPTY, k, steps);
            t in s.tokens ==> t in Members(Apply(s, k, ListClean(o)), s.tokens[t].owner)
  {
    Reachable(k, steps);
    var s := Run(EMPTY, k, steps);
    InvAt(s, k, t, 0);
    StepToken(s, k, ListClean(o), t);
  }

  // ---- what each script leaves ----

  /** A created token lives as long as asked, but at least an hour and at most thirty days,
      and has sent nothing; the index then holds the owner's live tokens and the new one. */
  lemma CreateLeaves(k: Kind, steps: seq<Step>, owner: Owner, t: Token, ttl: int)
    ensures var s := Run(EMPTY, k, steps);
            var (v, created) := CreateScript(s, k, owner, t, ttl);
            && (created <==> |Live(s, owner)| < if k.Burner? then 10 else 20)
            && (created ==> t in v.tokens && v.tokens - {t} == s.tokens - {t})
            && (created ==> v.tokens[t].owner == owner && v.tokens[t].count == 0)
            && (created ==>
                  v.tokens[t].exp == s.clock + if ttl < 3600 then 3600 else if ttl > 2592000 then 2592000 else ttl)
            && (created ==> owner in v.sets && v.sets[owner].members == Live(s, owner) + {t})
            && (created ==> v.sets[owner].exp == if k.Burner? then None else Some(s.clock + 2678400))
            && (!created ==> v.tokens == s.tokens && Members(v, owner) == Live(s, owner))
            && (forall o :: o != owner ==> Members(v, o) == Members(s, o))
  {
    Reachable(k, steps);
    var s := Run(EMPTY, k, steps);
    hide Run, Inv, CreateScript, Alive, Live;
    CreateRefusedIff(k, steps, owner, t, ttl);
    AliveIsLive(s, k, owner);
    InvAt(s, k, t, owner);
    CreateFacts(s, k, owner, t, ttl, owner);
    forall o | o != owner
      ensures Members(CreateScript(s, k, owner, t, ttl).0, o) == Members(s, o)
    {
      CreateFacts(s, k, owner, t, ttl, o);
    }
    if CreateScript(s, k, owner, t, ttl).1 {
      CreatedExpiry(s, k, owner, t, ttl);
    }
  }

  lemma CreatedExpiry(s: Store, k: Kind, owner: Owner, t: Token, ttl: int)
    requires (k.Burner? ==> Timeless(s.sets)) && CreateScript(s, k, owner, t, ttl).1
    ensures var v := CreateScript(s, k, owner, t, ttl).0;
            owner in v.sets && v.sets[owner].exp == if k.Burner? then None else Some(s.clock + 2678400)
  {
    CreateFacts(s, k, owner, t, ttl, owner);
    PrunedMembers(s, owner, owner);
    hide Pruned, Alive;
  }

  /** A send counts one message on the token and leaves its life alone; the one past the
      hundredth takes the token and its index entry, and no other. */
  lemma SendLeaves(s: Store, t: Token)
    ensures var (v, allowed) := SendScript(s, t);
            && (allowed <==> t in s.tokens && s.tokens[t].count < 100)
            && (allowed ==> && t in v.tokens && v.tokens[t].count == s.tokens[t].count + 1
                            && v.tokens[t].exp == s.tokens[t].exp && v.tokens[t].owner == s.tokens[t].owner
                            && v.tokens - {t} == s.tokens - {t} && v.sets == s.sets)
            && (!allowed ==> v.tokens == s.tokens - {t})
            && (!allowed && t in s.tokens ==>
                  forall o :: Members(v, o) == if o == s.tokens[t].owner then Members(s, o) - {t} else Members(s, o))
            && (t !in s.tokens ==> v == s)
  {
  }

  /** Revoking or consuming a token takes its key and its entry in the index named, alone. */
  lemma RevokeLeaves(s: Store, k: Kind, owner: Owner, t: Token)
    ensures var v := Apply(s, k, Revoke(owner, t));
            && v.tokens == s.tokens - {t}
            && (forall o :: Members(v, o) == if o == owner then Members(s, o) - {t} else Members(s, o))
  {
  }

  lemma Unlisted(s: Store, v: Store, owner: Owner, t: Token)
    requires v.sets == Unlist(s.sets, owner, {t})
    ensures forall o :: Members(v, o) == if o == owner then Members(s, o) - {t} else Members(s, o)
  {
  }

  // ---- the operations in place ----

  class TokenStore {
    const kind: Kind
    var clock: int
    var tokens: map<Token, Info>
    var sets: map<Owner, Index>
    ghost var used: set<Token>
    ghost var sent: map<Token, nat>
    ghost var taken: map<Token, nat>

    ghost function View(): Store
      reads this
    {
      Store(clock, tokens, sets, map[], map[], used, sent, taken)
    }

    constructor (kind: Kind)
      ensures View() == EMPTY && this.kind == kind
    {
      this.kind := kind;
      clock, tokens, sets, used, sent, taken := 0, map[], map[], {}, map[], map[];
    }

    method Srem(owner: Owner, ts: set<Token>)
      modifies this`sets
      ensures sets == Unlist(old(sets), owner, ts)
    {
      if owner in sets {
        var left := sets[owner].members - ts;
        sets := if left == {} then sets - {owner} else sets[owner := sets[owner].(members := left)];
      }
    }

    /** The script's loop: dead members go, live ones are counted. */
    method PruneAndCount(owner: Owner) returns (alive: nat)
      requires IndexInv(View(), owner)
      modifies this`sets
      ensures sets == Pruned(old(View()), owner)
      ensures alive == |Alive(old(View()), owner)|
    {
      ghost var s := View();
      var members := if owner in sets then sets[owner].members else {};
      assert members == Members(s, owner);
      PruneStart(sets, owner, members, tokens.Keys);
      hide *;
      var todo := members;
      alive := 0;
      while todo != {}
        invariant todo <= members && sets == Unlist(s.sets, owner, Gone(members, todo, tokens.Keys))
        invariant alive == |Kept(members, todo, tokens.Keys)|
        decreases todo
      {
        var m :| m in todo;
        PruneNext(s.sets, owner, members, todo, tokens.Keys, m);
        if m in tokens {
          alive := alive + 1;
        } else {
          Srem(owner, {m});
        }
        todo := todo - {m};
      }
      PruneEnd(s, owner, members);
    }

    /** Below the cap, and only there, the token is written and listed. */
    method CreateToken(owner: Owner, t: Token, ttl: int) returns (created: bool)
      requires Inv(View(), kind) && t !in used
      modifies this
      ensures (View(), created) == CreateScript(old(View()), kind, owner, t, ttl)
      ensures created <==> |Live(old(View()), owner)| < kind.Cap()
      ensures Inv(View(), kind)
    {
      ghost var s := View();
      hide Inv, Live, Alive, Pruned, Enlist, IndexInv, TokenInv, SetExpiry, kind.Ttl, kind.Cap;
      CreateKeeps(s, kind, owner, t, ttl);
      AliveIsLive(s, kind, owner);
      InvAt(s, kind, t, owner);
      var alive := PruneAndCount(owner);
      if alive >= kind.Cap() {
        return false;
      }
      tokens := tokens[t := Info(owner, clock + kind.Ttl(ttl), 0)];
      sets := Enlist(sets, owner, t, SetExpiry(kind, clock));
      used := used + {t};
      return true;
    }

    method IncrementMessageCount(t: Token) returns (allowed: bool, count: nat)
      requires Inv(View(), kind) && kind.Burner?
      modifies this
      ensures (View(), allowed) == SendScript(old(View()), t)
      ensures allowed <==> t in old(tokens) && Sent(old(View()), t) < MAX_MESSAGES_PER_TOKEN
      ensures allowed ==> count == Sent(View(), t) == old(Sent(View(), t)) + 1
      ensures Inv(View(), kind)
    {
      ghost var s := View();
      SendKeeps(s, kind, t);
      InvAt(s, kind, t, 0);
      hide Inv, Unlist;
      if t !in tokens {
        return false, 0;
      }
      count := tokens[t].count + 1;
      if count > MAX_MESSAGES_PER_TOKEN {
        var owner := tokens[t].owner;
        tokens := tokens - {t};
        Srem(owner, {t});
        return false, count;
      }
      tokens := tokens[t := tokens[t].(count := count)];
      sent := sent[t := count];
      return true, count;
    }

    /** GETDEL, then the index. */
    method ConsumeToken(t: Token) returns (meta: Option<Info>)
      requires Inv(View(), kind) && kind.Invite?
      modifies this
      ensures meta == if t in old(tokens) then Some(old(tokens)[t]) else None
      ensures meta.None? ==> View() == old(View())
      ensures meta.Some? ==>
                View() == Apply(Apply(old(View()), kind, Consume(0, t)), kind, ConsumeCleanup(0))
      ensures meta.Some? ==> Dead(View(), t) && Taken(View(), t) == 1
      ensures tokens == old(tokens) - {t}
      ensures forall o :: Members(View(), o) ==
                if meta.Some? && o == meta.value.owner then Members(old(View()), o) - {t} else Members(old(View()), o)
    {
      ghost var s := View();
      InvAt(s, kind, t, 0);
      hide Inv, Unlist;
      if t !in tokens {
        return None;
      }
      meta := Some(tokens[t]);
      tokens := tokens - {t};
      taken := taken[t := Taken(s, t) + 1];
      Srem(meta.value.owner, {t});
      Unlisted(s, View(), meta.value.owner, t);
      hide Members;
      var none: map<nat, (Owner, Token)> := map[];
      assert none[0 := (meta.value.owner, t)] - {0} == none;
    }

    method RevokeToken(owner: Owner, t: Token) returns (existed: bool)
      modifies this`tokens, this`sets
      ensures existed <==> t in old(tokens)
      ensures View() == Apply(old(View()), kind, Revoke(owner, t))
    {
      existed := t in tokens;
      tokens := tokens - {t};
      Srem(owner, {t});
    }

    /** The pipelined GETs: the members found, and those that are stale. */
    method LookUp(members: set<Token>) returns (found: map<Token, Info>, stale: set<Token>)
      ensures found == (map t | t in members && t in tokens :: tokens[t])
      ensures stale == members - tokens.Keys
    {
      var todo := members;
      found, stale := map[], {};
      while todo != {}
        invariant todo <= members
        invariant found == (map t | t in members - todo && t in tokens :: tokens[t])
        invariant stale == (members - todo) - tokens.Keys
        decreases todo
      {
        var m :| m in todo;
        if m in tokens {
          found := found[m := tokens[m]];
        } else {
          stale := stale + {m};
        }
        todo := todo - {m};
      }
    }

    /** The live members, and the dead ones removed from the index. */
    method ListTokens(owner: Owner) returns (found: map<Token, Info>)
      requires Inv(View(), kind)
      modifies this`sets
      ensures found.Keys == Live(View(), owner) && forall t :: t in found ==> found[t] == tokens[t]
      ensures sets == Pruned(old(View()), owner)
    {
      hide Inv, Live, Unlist, TokenInv;
      ghost var s := View();
      AliveIsLive(s, kind, owner);
      InvAt(s, kind, 0, owner);
      var stale;
      var members := if owner in sets then sets[owner].members else {};
      found, stale := LookUp(members);
      assert found.Keys == Alive(s, owner);
      assert stale == Members(s, owner) - Alive(s, owner);
      hide Alive, Members, Pruned;
      UnlistNothing(s, owner);
      if stale != {} {
        Srem(owner, stale);
      }
      LiveIgnoresSets(s, View(), owner);
    }
  }

  lemma CreateKeeps(s: Store, k: Kind, owner: Owner, t: Token, ttl: int)
    requires Inv(s, k) && t !in s.used
    ensures Inv(CreateScript(s, k, owner, t, ttl).0, k)
  {
    StepKeeps(s, k, Create(owner, t, ttl));
    hide Inv, CreateScript;
  }

  lemma SendKeeps(s: Store, k: Kind, t: Token)
    requires Inv(s, k) && k.Burner?
    ensures Inv(SendScript(s, t).0, k)
  {
    StepKeeps(s, k, CappedTokens.Send(t));
    hide Inv, SendScript;
  }

  lemma LiveIgnoresSets(s: Store, v: Store, owner: Owner)
    requires v.tokens == s.tokens
    ensures Live(v, owner) == Live(s, owner)
  {
  }

  lemma UnlistNothing(s: Store, owner: Owner)
    requires IndexInv(s, owner)
    ensures Unlist(s.sets, owner, {}) == s.sets
    ensures Pruned(s, owner) == Unlist(s.sets, owner, Members(s, owner) - Alive(s, owner))
  {
    if owner in s.sets {
      assert s.sets[owner].members - {} == s.sets[owner].members;
    }
  }

  /** The members seen so far that have no key, and those that have one. */
  function Gone(members: set<Token>, todo: set<Token>, keys: set<Token>): set<Token> { (members - todo) - keys }

  function Kept(members: set<Token>, todo: set<Token>, keys: set<Token>): set<Token> { (members - todo) * keys }

  lemma PruneStart(sets: map<Owner, Index>, owner: Owner, members: set<Token>, keys: set<Token>)
    requires owner in sets ==> sets[owner].members != {}
    ensures Unlist(sets, owner, Gone(members, members, keys)) == sets && Kept(members, members, keys) == {}
  {
    assert Gone(members, members, keys) == {};
    if owner in sets {
      assert sets[owner].members - {} == sets[owner].members;
    }
  }

  lemma PruneEnd(s: Store, owner: Owner, members: set<Token>)
    requires members == Members(s, owner)
    ensures Unlist(s.sets, owner, Gone(members, {}, s.tokens.Keys)) == Pruned(s, owner)
    ensures Kept(members, {}, s.tokens.Keys) == Alive(s, owner)
  {
    assert members - {} == members;
    assert Gone(members, {}, s.tokens.Keys) == members - Alive(s, owner);
  }

  lemma UnlistTwice(sets: map<Owner, Index>, owner: Owner, a: set<Token>, b: set<Token>)
    ensures Unlist(Unlist(sets, owner, a), owner, b) == Unlist(sets, owner, a + b)
  {
    if owner in sets {
      var ms := sets[owner].members;
      assert ms - a - b == ms - (a + b);
    }
  }

  lemma PruneNext(sets: map<Owner, Index>, owner: Owner, members: set<Token>, todo: set<Token>, keys: set<Token>, m: Token)
    requires m in todo && todo <= members
    ensures var (a, b) := (Gone(members, todo, keys), Gone(members, todo - {m}, keys));
            && (m in keys ==> a == b)
            && (m !in keys ==> Unlist(Unlist(sets, owner, a), owner, {m}) == Unlist(sets, owner, b))
    ensures |Kept(members, todo - {m}, keys)| == |Kept(members, todo, keys)| + if m in keys then 1 else 0
  {
    hide Unlist;
    var (a, b) := (Gone(members, todo, keys), Gone(members, todo - {m}, keys));
    var (c, d) := (Kept(members, todo, keys), Kept(members, todo - {m}, keys));
    if m !in keys {
      assert b == a + {m} && d == c;
      UnlistTwice(sets, owner, a, {m});
    } else {
      assert a == b && d == c + {m};
    }
  }
}
