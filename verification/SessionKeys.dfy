/** One user's session keys in Redis, the commands that touch them, and every request in
    flight between two commands. */
module SessionKeys {
  import opened Common

  type Token = nat

  const DAY := 86400
  const SESSION_TTL_SECONDS := 7 * DAY
  const SESSION_ABSOLUTE_MAX_SECONDS := 30 * DAY
  const REVERSE_TTL_SECONDS := SESSION_ABSOLUTE_MAX_SECONDS + DAY

  /** The part of the value after the public key. */
  datatype Stamp = Bare | Unreadable | At(created: int)

  datatype Fwd = Fwd(stamp: Stamp, exp: int)

  /** The reverse index names a session by its digest, or an old one by its raw token. */
  datatype Member = Hashed(token: Token) | Raw(token: Token)

  datatype Rev = Rev(members: set<Member>, exp: Option<int>)

  datatype Keys = Keys(clock: int, fwd: map<Token, Fwd>, raw: map<Token, Fwd>, rev: Option<Rev>)

  predicate Indexed(k: Keys, m: Member) { k.rev.Some? && m in k.rev.value.members }

  predicate OverAge(stamp: Stamp, now: int) { stamp.At? && now - stamp.created > SESSION_ABSOLUTE_MAX_SECONDS }

  // ---- commands ----

  function SetFwd(k: Keys, t: Token, stamp: Stamp): Keys {
    k.(fwd := k.fwd[t := Fwd(stamp, k.clock + SESSION_TTL_SECONDS)])
  }

  function AddMember(k: Keys, m: Member): Keys {
    k.(rev := Some(if k.rev.Some? then k.rev.value.(members := k.rev.value.members + {m}) else Rev({m}, None)))
  }

  /** SREM; a set that becomes empty is gone with its time to live. */
  function DropMembers(k: Keys, ms: set<Member>): Keys {
    k.(rev := if k.rev.Some? && k.rev.value.members - ms != {}
              then Some(k.rev.value.(members := k.rev.value.members - ms)) else None)
  }

  function ExpireFwd(k: Keys, t: Token): Keys {
    if t in k.fwd then k.(fwd := k.fwd[t := k.fwd[t].(exp := k.clock + SESSION_TTL_SECONDS)]) else k
  }

  function ExpireRev(k: Keys): Keys {
    k.(rev := if k.rev.Some? then Some(k.rev.value.(exp := Some(k.clock + REVERSE_TTL_SECONDS))) else None)
  }

  function DelKeys(k: Keys, ms: set<Member>): Keys {
    k.(fwd := map t | t in k.fwd && Hashed(t) !in ms :: k.fwd[t],
       raw := map t | t in k.raw && Raw(t) !in ms :: k.raw[t])
  }

  function DelRev(k: Keys): Keys { k.(rev := None) }

  /** The MULTI block that moves an old session to the hashed scheme. */
  function Migrate(k: Keys, t: Token, now: int): Keys {
    AddMember(DropMembers(DelKeys(SetFwd(k, t, At(now)), {Raw(t)}), {Raw(t)}), Hashed(t))
  }

  predicate RevLapsed(k: Keys, now: int) { k.rev.Some? && k.rev.value.exp.Some? && k.rev.value.exp.value <= now }

  function Tick(k: Keys, seconds: nat): Keys {
    var now := k.clock + seconds;
    Keys(now, map t | t in k.fwd && now < k.fwd[t].exp :: k.fwd[t], map t | t in k.raw && now < k.raw[t].exp :: k.raw[t],
         if RevLapsed(k, now) then None else k.rev)
  }

  // ---- requests in flight ----

  /** `moved`: this request migrated the session. */
  datatype Op =
    | Stored(t: Token)
    | Added(t: Token)
    | LegacyRead(t: Token, now: int)
    | Found(t: Token, moved: bool)
    | Refreshed(t: Token, at: int, moved: bool)
    | Ending(t: Token, kills: Member, drops: set<Member>)
    | Dropping(t: Token, drops: set<Member>)
  {
    /** Index entry written, index time to live not yet. */
    predicate Unsettled() { Added? || (Found? && moved) || (Refreshed? && moved) }
  }

  /** A revoke_all that has read the index; `added` joined the index since. */
  datatype Sweep = Sweep(members: set<Member>, added: set<Token>, cleared: bool)

  datatype State = State(k: Keys, used: set<Token>, ops: map<nat, Op>, sweeps: map<nat, Sweep>)

  datatype Step =
    | Wait(seconds: nat)
    | Create(o: nat, t: Token)
    | CreateIndex(o: nat)
    | CreateExpire(o: nat)
    | VerifyRead(o: nat, t: Token)
    | VerifyMigrate(o: nat)
    | VerifyRefresh(o: nat)
    | VerifyRefreshIndex(o: nat)
    | RevokeRead(o: nat, t: Token)
    | EndDelete(o: nat)
    | EndUnindex(o: nat)
    | SweepRead(o: nat)
    | SweepDelete(o: nat)
    | SweepUnindex(o: nat)

  predicate Has(s: State, o: nat, t: Token) { o in s.ops && s.ops[o].t == t }

  /** Every sweep under way learns that t joined the index. */
  function Rejoin(s: State, t: Token): State { s.(sweeps := Joined(s.sweeps, t)) }

  function Joined(sweeps: map<nat, Sweep>, t: Token): map<nat, Sweep> {
    map o | o in sweeps :: sweeps[o].(added := sweeps[o].added + {t})
  }

  function DoCreate(s: State, o: nat, t: Token): State {
    if o in s.ops || t in s.used then s
    else s.(k := SetFwd(s.k, t, At(s.k.clock)), used := s.used + {t}, ops := s.ops[o := Stored(t)])
  }

  function DoCreateIndex(s: State, o: nat): State {
    if o !in s.ops || !s.ops[o].Stored? then s
    else
      var t := s.ops[o].t;
      var s' := Rejoin(s, t);
      s'.(k := AddMember(s.k, Hashed(t)), ops := s'.ops[o := Added(t)])
  }

  function DoVerifyRead(s: State, o: nat, t: Token): State {
    if o in s.ops then s
    else if t in s.k.fwd then
      s.(ops := s.ops[o := if OverAge(s.k.fwd[t].stamp, s.k.clock) then Ending(t, Hashed(t), {Hashed(t)})
                           else Found(t, false)])
    else if t in s.k.raw then s.(ops := s.ops[o := LegacyRead(t, s.k.clock)])
    else s
  }

  function DoVerifyMigrate(s: State, o: nat): State {
    if o !in s.ops || !s.ops[o].LegacyRead? then s
    else
      var t := s.ops[o].t;
      var s' := Rejoin(s, t);
      s'.(k := Migrate(s.k, t, s.ops[o].now), ops := s'.ops[o := Found(t, true)])
  }

  function DoVerifyRefresh(s: State, o: nat): State {
    if o !in s.ops || !s.ops[o].Found? then s
    else s.(k := ExpireFwd(s.k, s.ops[o].t), ops := s.ops[o := Refreshed(s.ops[o].t, s.k.clock, s.ops[o].moved)])
  }

  function DoRevokeRead(s: State, o: nat, t: Token): State {
    if o in s.ops then s
    else if t in s.k.fwd then s.(ops := s.ops[o := Ending(t, Hashed(t), {Hashed(t), Raw(t)})])
    else if t in s.k.raw then s.(ops := s.ops[o := Ending(t, Raw(t), {Hashed(t), Raw(t)})])
    else s
  }

  function DoEndDelete(s: State, o: nat): State {
    if o !in s.ops || !s.ops[o].Ending? then s
    else s.(k := DelKeys(s.k, {s.ops[o].kills}), ops := s.ops[o := Dropping(s.ops[o].t, s.ops[o].drops)])
  }

  function DoEndUnindex(s: State, o: nat): State {
    if o !in s.ops || !s.ops[o].Dropping? then s
    else s.(k := DropMembers(s.k, s.ops[o].drops), ops := s.ops - {o})
  }

  function DoSweepRead(s: State, o: nat): State {
    if o in s.sweeps || s.k.rev.None? then s
    else s.(sweeps := s.sweeps[o := Sweep(s.k.rev.value.members, {}, false)])
  }

  function DoSweepDelete(s: State, o: nat): State {
    if o !in s.sweeps || s.sweeps[o].cleared then s
    else s.(k := DelKeys(s.k, s.sweeps[o].members), sweeps := s.sweeps[o := s.sweeps[o].(cleared := true)])
  }

  function DoSweepUnindex(s: State, o: nat): State {
    if o !in s.sweeps || !s.sweeps[o].cleared then s
    else s.(k := DelRev(s.k), sweeps := s.sweeps - {o})
  }

  function Apply(s: State, step: Step): State {
    match step
    case Wait(d) => s.(k := Tick(s.k, d))
    case Create(o, t) => DoCreate(s, o, t)
    case CreateIndex(o) => DoCreateIndex(s, o)
    case CreateExpire(o) =>
      if o in s.ops && s.ops[o].Added? then s.(k := ExpireRev(s.k), ops := s.ops - {o}) else s
    case VerifyRead(o, t) => DoVerifyRead(s, o, t)
    case VerifyMigrate(o) => DoVerifyMigrate(s, o)
    case VerifyRefresh(o) => DoVerifyRefresh(s, o)
    case VerifyRefreshIndex(o) =>
      if o in s.ops && s.ops[o].Refreshed? then s.(k := ExpireRev(s.k), ops := s.ops - {o}) else s
    case RevokeRead(o, t) => DoRevokeRead(s, o, t)
    case EndDelete(o) => DoEndDelete(s, o)
    case EndUnindex(o) => DoEndUnindex(s, o)
    case SweepRead(o) => DoSweepRead(s, o)
    case SweepDelete(o) => DoSweepDelete(s, o)
    case SweepUnindex(o) => DoSweepUnindex(s, o)
  }

  function Run(s: State, steps: seq<Step>): State
    decreases |steps|
  {
    if steps == [] then s else Run(Apply(s, steps[0]), steps[1..])
  }

  /** A deployment finds sessions of the old scheme, indexed or not. */
  function Start(raw: map<Token, Fwd>, rev: Option<Rev>): State {
    State(Keys(0, map[], raw, rev),
          raw.Keys + if rev.Some? then (set m | m in rev.value.members :: m.token) else {}, map[], map[])
  }
}
