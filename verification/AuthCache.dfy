/**
 The identity cache of internal/service/auth/auth.go: a map per gateway process, one shared
 Redis entry per key, revision counters in Redis, and the store behind them.

 Every lock section, Redis command and store query is one step, so authentications of any
 number of processes interleave freely with each other, with store changes and with bumps.
 Redis commands do not fail. The fields `asOf`, `cachedAt`, `readAt` and `bumpedAtStart` are
 bookkeeping for the theorems; no step depends on them.
 */
module AuthCache {
  import opened Options

  type Gateway = nat
  type OpId = nat

  /** The four ids an identity depends on. */
  datatype Field = ApiKeyId | UserId | TenantId | ProjectId
  datatype Identity = Identity(apiKey: string, user: string, tenant: string, project: string, rest: string)
  datatype Revs = Revs(apiKey: nat, user: nat, tenant: nat, project: nat)
  datatype RevKey = RevKey(field: Field, id: string)
  type Store = map<string, Identity>
  type Counters = map<RevKey, nat>

  function IdOf(x: Identity, f: Field): string {
    match f case ApiKeyId => x.apiKey case UserId => x.user case TenantId => x.tenant case ProjectId => x.project
  }

  function RevOf(r: Revs, f: Field): nat {
    match f case ApiKeyId => r.apiKey case UserId => r.user case TenantId => r.tenant case ProjectId => r.project
  }

  /** strings.TrimSpace(s) == "". */
  predicate Blank(s: string) { forall c :: c in s ==> c in " \t\n\r" }

  /** A counter that was never bumped reads as the empty revision, written 0. */
  function Counter(cs: Counters, f: Field, id: string): nat {
    if !Blank(id) && RevKey(f, id) in cs then cs[RevKey(f, id)] else 0
  }

  /** currentIdentityRevisions: one MGET over the nonblank ids. */
  function Current(cs: Counters, x: Identity): Revs {
    Revs(Counter(cs, ApiKeyId, x.apiKey), Counter(cs, UserId, x.user),
         Counter(cs, TenantId, x.tenant), Counter(cs, ProjectId, x.project))
  }

  datatype Entry = Entry(identity: Identity, revs: Revs, expires: int, asOf: nat, cachedAt: int)

  datatype Answer = Answer(identity: Option<Identity>, fromCache: bool, asOf: nat, cachedAt: int, readAt: int)

  /** Program points of authenticateAPIKey. */
  datatype Pc =
    | LocalCheck(e: Entry, readAt: int)      // unexpired local entry, revisions not compared yet
    | RedisLookup
    | RedisCheck(e: Entry, readAt: int)      // Redis entry, revisions not compared yet
    | CopyLocal(e: Entry, readAt: int)       // Redis hit, about to setCached
    | Load
    | ReadRevs(identity: Identity, asOf: nat)
    | PutLocal(identity: Identity, revs: Revs, asOf: nat)
    | PutRedis(identity: Identity, revs: Revs, asOf: nat)
    | Answered(answer: Answer)

  datatype Op = Op(gw: Gateway, key: string, pc: Pc, bumpedAtStart: set<nat>)

  /** Every store version so far, the change that led to each, which of them were bumped, and the counters. */
  datatype World = World(hist: seq<Store>, changes: seq<RevKey>, bumped: set<nat>, counters: Counters)

  datatype State = State(
    now: int, ttl: nat, w: World,
    local: map<(Gateway, string), Entry>, redis: map<string, Entry>,
    ops: map<OpId, Op>)

  datatype Event =
    | Begin(o: OpId, gw: Gateway, key: string)
    | Step(o: OpId, verified: bool)          // verified: what verifyIdentity says of the identity at hand
    | Change(k: RevKey, store: Store)
    | Bump(change: nat)
    | EvictLocal(gw: Gateway, key: string)   // InvalidateKey, sampling cleanup
    | EvictRedis(key: string)                // InvalidateKey, Redis eviction
    | Tick(ms: nat)

  function Start(store: Store, ttl: nat): State {
    State(0, ttl, World([store], [], {}, map[]), map[], map[], map[])
  }

  function At(s: State, o: OpId, pc: Pc): State
    requires o in s.ops
  {
    s.(ops := s.ops[o := s.ops[o].(pc := pc)])
  }

  /** getCached up to its first unlock. */
  function BeginOp(s: State, o: OpId, g: Gateway, key: string): State {
    var pc := if (g, key) in s.local && s.now <= s.local[(g, key)].expires
              then LocalCheck(s.local[(g, key)], s.now) else RedisLookup;
    s.(ops := s.ops[o := Op(g, key, pc, s.w.bumped)])
  }

  /** One step of authenticateAPIKey. */
  function StepOp(s: State, o: OpId, verified: bool): State
    requires o in s.ops && s.w.hist != []
  {
    var op := s.ops[o];
    match op.pc
    case LocalCheck(e, readAt) =>
      if e.revs == Current(s.w.counters, e.identity)
      then At(s, o, Answered(Answer(Some(e.identity), true, e.asOf, e.cachedAt, readAt)))
      else At(s.(local := s.local - {(op.gw, op.key)}), o, RedisLookup)
    case RedisLookup =>
      if !Blank(op.key) && op.key in s.redis && s.now <= s.redis[op.key].expires &&
        s.redis[op.key].identity.apiKey != ""
      then At(s, o, RedisCheck(s.redis[op.key], s.now))
      else At(s, o, Load)
    case RedisCheck(e, readAt) =>
      if e.revs != Current(s.w.counters, e.identity) then At(s.(redis := s.redis - {op.key}), o, Load)
      else if verified then At(s, o, CopyLocal(e, readAt))
      else At(s, o, Answered(Answer(Some(e.identity), true, e.asOf, e.cachedAt, readAt)))
    case CopyLocal(e, readAt) =>
      At(s.(local := s.local[(op.gw, op.key) := e.(expires := s.now + s.ttl)]), o,
         Answered(Answer(Some(e.identity), true, e.asOf, e.cachedAt, readAt)))
    case Load =>
      var v := |s.w.hist| - 1;
      if op.key !in s.w.hist[v] then At(s, o, Answered(Answer(None, false, v, s.now, s.now)))
      else if verified then At(s, o, ReadRevs(s.w.hist[v][op.key], v))
      else At(s, o, Answered(Answer(Some(s.w.hist[v][op.key]), false, v, s.now, s.now)))
    case ReadRevs(x, v) => At(s, o, PutLocal(x, Current(s.w.counters, x), v))
    case PutLocal(x, r, v) =>
      At(s.(local := s.local[(op.gw, op.key) := Entry(x, r, s.now + s.ttl, v, s.now)]), o, PutRedis(x, r, v))
    case PutRedis(x, r, v) =>
      At(if Blank(op.key) then s else s.(redis := s.redis[op.key := Entry(x, r, s.now + s.ttl, v, s.now)]), o,
         Answered(Answer(Some(x), false, v, s.now, s.now)))
    case Answered(_) => s
  }

  /** A store change names one id and alters only identities that carry it (or brand-new keys). */
  ghost predicate ChangeOk(before: Store, k: RevKey, after: Store) {
    && !Blank(k.id)
    && forall key :: key in before && IdOf(before[key], k.field) != k.id ==> key in after && after[key] == before[key]
  }

  ghost predicate Enabled(s: State, e: Event) {
    s.w.hist != [] &&
    match e
    case Begin(o, _, _) => o !in s.ops
    case Step(o, _) => o in s.ops
    case Change(k, store) => ChangeOk(s.w.hist[|s.w.hist| - 1], k, store)
    case Bump(i) => i < |s.w.changes| && i !in s.w.bumped
    case _ => true
  }

  function BumpCounter(cs: Counters, k: RevKey): Counters {
    cs[k := (if k in cs then cs[k] else 0) + 1]
  }

  function Changed(w: World, k: RevKey, store: Store): World {
    w.(hist := w.hist + [store], changes := w.changes + [k])
  }

  function Bumped(w: World, i: nat): World
    requires i < |w.changes|
  {
    w.(bumped := w.bumped + {i}, counters := BumpCounter(w.counters, w.changes[i]))
  }

  function Next(s: State, e: Event): State
    requires Enabled(s, e)
  {
    match e
    case Begin(o, g, key) => BeginOp(s, o, g, key)
    case Step(o, verified) => StepOp(s, o, verified)
    case Change(k, store) => s.(w := Changed(s.w, k, store))
    case Bump(i) => s.(w := Bumped(s.w, i))
    case EvictLocal(g, key) => s.(local := s.local - {(g, key)})
    case EvictRedis(key) => s.(redis := s.redis - {key})
    case Tick(ms) => s.(now := s.now + ms)
  }

  /** A Redis hit reaches the local map within `lag` of its GET. */
  ghost predicate Prompt(s: State, e: Event, lag: nat) {
    e.Step? && e.o in s.ops && s.ops[e.o].pc.CopyLocal? ==> s.now <= s.ops[e.o].pc.readAt + lag
  }

  ghost predicate ValidRun(s: State, es: seq<Event>)
    decreases |es|
  {
    es == [] || (Enabled(s, es[0]) && ValidRun(Next(s, es[0]), es[1..]))
  }

  ghost predicate NoLateRead(s: State, es: seq<Event>)
    requires ValidRun(s, es)
    decreases |es|
  {
    es == [] || (!LateRead(s, es[0]) && NoLateRead(Next(s, es[0]), es[1..]))
  }

  ghost predicate AllPrompt(s: State, es: seq<Event>, lag: nat)
    requires ValidRun(s, es)
    decreases |es|
  {
    es == [] || (Prompt(s, es[0], lag) && AllPrompt(Next(s, es[0]), es[1..], lag))
  }

  function Exec(s: State, es: seq<Event>): State
    requires ValidRun(s, es)
    decreases |es|
  {
    if es == [] then s else Exec(Next(s, es[0]), es[1..])
  }

  // ---- Coherence invariant ----

  /** Change i concerns an id of x. */
  ghost predicate Concerns(w: World, i: nat, x: Identity)
    requires i < |w.changes|
  {
    IdOf(x, w.changes[i].field) == w.changes[i].id
  }

  /** x is what the store held under key at version v. */
  ghost predicate Held(w: World, key: string, x: Identity, v: nat) {
    v < |w.hist| && key in w.hist[v] && w.hist[v][key] == x
  }

  /** The store held x under key at some version after change i. */
  ghost predicate HeldAfter(w: World, key: string, x: Identity, i: nat) {
    exists u :: i < u && Held(w, key, x, u)
  }

  /** A bumped change to an id of x has taken x away. */
  ghost predicate Outdated(w: World, key: string, x: Identity) {
    exists i :: i in w.bumped && i < |w.changes| && Concerns(w, i, x) && !HeldAfter(w, key, x, i)
  }

  /** The step reads the revisions of an identity loaded earlier when it is outdated already. */
  ghost predicate LateRead(s: State, e: Event) {
    e.Step? && e.o in s.ops && s.ops[e.o].pc.ReadRevs? && Outdated(s.w, s.ops[e.o].key, s.ops[e.o].pc.identity)
  }

  /** Every bumped change that took x away shows as a counter above r. */
  ghost predicate RevsOk(w: World, key: string, x: Identity, r: Revs) {
    && (forall f :: RevOf(r, f) <= Counter(w.counters, f, IdOf(x, f)))
    && (forall i :: i in w.bumped && i < |w.changes| && Concerns(w, i, x) ==>
          RevOf(r, w.changes[i].field) < Counter(w.counters, w.changes[i].field, w.changes[i].id)
          || HeldAfter(w, key, x, i))
  }

  ghost predicate EntryOk(w: World, key: string, e: Entry) {
    Held(w, key, e.identity, e.asOf) && RevsOk(w, key, e.identity, e.revs)
  }

  /** No change to an id of x that was bumped before the operation began has taken x away for good. */
  ghost predicate FreshFor(w: World, op: Op, x: Identity) {
    forall i :: i in op.bumpedAtStart && i < |w.changes| && Concerns(w, i, x) ==> HeldAfter(w, op.key, x, i)
  }

  ghost predicate LoadedOk(w: World, op: Op, x: Identity, r: Revs, v: nat) {
    Held(w, op.key, x, v) && RevsOk(w, op.key, x, r) && FreshFor(w, op, x)
  }

  ghost predicate AnswerOk(w: World, op: Op, a: Answer) {
    match a.identity
    case Some(x) => Held(w, op.key, x, a.asOf) && FreshFor(w, op, x)
    case None => a.asOf < |w.hist| && op.key !in w.hist[a.asOf] && forall i :: i in op.bumpedAtStart ==> i < a.asOf
  }

  ghost predicate OpOk(w: World, op: Op) {
    && op.bumpedAtStart <= w.bumped
    && match op.pc
       case LocalCheck(e, _) => EntryOk(w, op.key, e)
       case RedisCheck(e, _) => EntryOk(w, op.key, e)
       case CopyLocal(e, _) => EntryOk(w, op.key, e) && FreshFor(w, op, e.identity)
       case ReadRevs(x, v) => Held(w, op.key, x, v) && FreshFor(w, op, x)
       case PutLocal(x, r, v) => LoadedOk(w, op, x, r, v)
       case PutRedis(x, r, v) => LoadedOk(w, op, x, r, v)
       case Answered(a) => AnswerOk(w, op, a)
       case _ => true
  }

  ghost predicate HistoryOk(w: World) {
    && |w.hist| == |w.changes| + 1
    && (forall i :: i in w.bumped ==> i < |w.changes|)
    && forall i :: 0 <= i < |w.changes| ==> ChangeOk(w.hist[i], w.changes[i], w.hist[i + 1])
  }

  ghost predicate LocalOk(w: World, local: map<(Gateway, string), Entry>) {
    forall gk :: gk in local ==> EntryOk(w, gk.1, local[gk])
  }

  ghost predicate RedisOk(w: World, redis: map<string, Entry>) {
    forall key :: key in redis ==> EntryOk(w, key, redis[key])
  }

  ghost predicate OpsOk(w: World, ops: map<OpId, Op>) {
    forall o :: o in ops ==> OpOk(w, ops[o])
  }

  ghost predicate Inv(s: State) {
    HistoryOk(s.w) && LocalOk(s.w, s.local) && RedisOk(s.w, s.redis) && OpsOk(s.w, s.ops)
  }

  lemma {:induction false} CurrentIs(cs: Counters, x: Identity, f: Field)
    ensures RevOf(Current(cs, x), f) == Counter(cs, f, IdOf(x, f))
  {}

  /** Matching revisions rule out every bumped change that took the entry's identity away. */
  lemma {:induction false} MatchIsFresh(w: World, op: Op, x: Identity, r: Revs)
    requires RevsOk(w, op.key, x, r) && r == Current(w.counters, x) && op.bumpedAtStart <= w.bumped
    ensures FreshFor(w, op, x)
  {
    forall i | i in op.bumpedAtStart && i < |w.changes| && Concerns(w, i, x) ensures HeldAfter(w, op.key, x, i) {
      CurrentIs(w.counters, x, w.changes[i].field);
    }
  }

  lemma {:induction false} CurrentRevsOk(w: World, key: string, x: Identity)
    requires !Outdated(w, key, x)
    ensures RevsOk(w, key, x, Current(w.counters, x))
  {
    forall f ensures RevOf(Current(w.counters, x), f) <= Counter(w.counters, f, IdOf(x, f)) {
      CurrentIs(w.counters, x, f);
    }
  }

  /** What the store holds now is held after every change so far. */
  lemma {:induction false} LoadIsFresh(w: World, op: Op)
    requires HistoryOk(w) && op.key in w.hist[|w.hist| - 1]
    ensures FreshFor(w, op, w.hist[|w.hist| - 1][op.key])
  {
    assert Held(w, op.key, w.hist[|w.hist| - 1][op.key], |w.hist| - 1);
  }

  // ---- Steps of an authentication ----

  lemma {:induction false} HitKeepsOp(s: State, o: OpId, verified: bool)
    requires o in s.ops && OpOk(s.w, s.ops[o]) && s.w.hist != []
    requires var pc := s.ops[o].pc; pc.LocalCheck? || pc.RedisCheck? || pc.CopyLocal?
    ensures OpOk(s.w, StepOp(s, o, verified).ops[o])
  {
    var op := s.ops[o];
    if !op.pc.CopyLocal? && op.pc.e.revs == Current(s.w.counters, op.pc.e.identity) {
      MatchIsFresh(s.w, op, op.pc.e.identity, op.pc.e.revs);
    }
  }

  lemma {:induction false} MissKeepsOp(s: State, o: OpId, verified: bool)
    requires HistoryOk(s.w) && RedisOk(s.w, s.redis) && o in s.ops && OpOk(s.w, s.ops[o])
    requires var pc := s.ops[o].pc; !(pc.LocalCheck? || pc.RedisCheck? || pc.CopyLocal?)
    requires !LateRead(s, Step(o, verified))
    ensures OpOk(s.w, StepOp(s, o, verified).ops[o])
  {
    var op := s.ops[o];
    if op.pc.ReadRevs? {
      CurrentRevsOk(s.w, op.key, op.pc.identity);
    } else if op.pc.Load? && op.key in s.w.hist[|s.w.hist| - 1] {
      LoadIsFresh(s.w, op);
    }
  }

  lemma {:induction false} StepKeepsLocal(s: State, o: OpId, verified: bool)
    requires LocalOk(s.w, s.local) && o in s.ops && OpOk(s.w, s.ops[o]) && s.w.hist != []
    ensures LocalOk(s.w, StepOp(s, o, verified).local)
  {
    var op, local' := s.ops[o], StepOp(s, o, verified).local;
    forall gk | gk in local' ensures EntryOk(s.w, gk.1, local'[gk]) {
      if !(gk in s.local && local'[gk] == s.local[gk]) {
        assert op.pc.CopyLocal? || op.pc.PutLocal?;
        assert gk == (op.gw, op.key);
      }
    }
  }

  lemma {:induction false} StepKeepsRedis(s: State, o: OpId, verified: bool)
    requires RedisOk(s.w, s.redis) && o in s.ops && OpOk(s.w, s.ops[o]) && s.w.hist != []
    ensures RedisOk(s.w, StepOp(s, o, verified).redis)
  {
    var op, redis' := s.ops[o], StepOp(s, o, verified).redis;
    forall key | key in redis' ensures EntryOk(s.w, key, redis'[key]) {
      if !(key in s.redis && redis'[key] == s.redis[key]) {
        assert op.pc.PutRedis? && key == op.key;
      }
    }
  }

  /** A step writes only its own operation and the caches. */
  ghost predicate OnlyOp(s: State, s': State, o: OpId) {
    && s'.w == s.w && s'.now == s.now && s'.ttl == s.ttl && s'.ops.Keys == s.ops.Keys
    && forall p :: p in s.ops && p != o ==> s'.ops[p] == s.ops[p]
  }

  lemma {:induction false} LookupFrame(s: State, o: OpId, verified: bool)
    requires o in s.ops && s.w.hist != []
    requires var pc := s.ops[o].pc; pc.LocalCheck? || pc.RedisLookup? || pc.RedisCheck? || pc.CopyLocal?
    ensures OnlyOp(s, StepOp(s, o, verified), o)
  {}

  lemma {:induction false} LoadFrame(s: State, o: OpId, verified: bool)
    requires o in s.ops && s.w.hist != []
    requires var pc := s.ops[o].pc; pc.Load? || pc.ReadRevs? || pc.PutLocal? || pc.PutRedis? || pc.Answered?
    ensures OnlyOp(s, StepOp(s, o, verified), o)
  {}

  lemma {:induction false} StepFrame(s: State, o: OpId, verified: bool)
    requires o in s.ops && s.w.hist != []
    ensures OnlyOp(s, StepOp(s, o, verified), o)
  {
    var pc := s.ops[o].pc;
    if pc.LocalCheck? || pc.RedisLookup? || pc.RedisCheck? || pc.CopyLocal? {
      LookupFrame(s, o, verified);
    } else {
      LoadFrame(s, o, verified);
    }
  }

  lemma {:induction false} StepKeepsInv(s: State, o: OpId, verified: bool)
    requires Inv(s) && o in s.ops && !LateRead(s, Step(o, verified))
    ensures Inv(StepOp(s, o, verified))
  {
    StepFrame(s, o, verified);
    StepKeepsLocal(s, o, verified);
    StepKeepsRedis(s, o, verified);
    var pc := s.ops[o].pc;
    if pc.LocalCheck? || pc.RedisCheck? || pc.CopyLocal? {
      HitKeepsOp(s, o, verified);
    } else {
      MissKeepsOp(s, o, verified);
    }
  }

  // ---- Changes and bumps ----

  lemma {:induction false} ChangeKeepsHeld(w: World, k: RevKey, store: Store, key: string, x: Identity, i: nat)
    ensures forall v :: Held(w, key, x, v) ==> Held(Changed(w, k, store), key, x, v)
    ensures HeldAfter(w, key, x, i) ==> HeldAfter(Changed(w, k, store), key, x, i)
  {
    var w' := Changed(w, k, store);
    assert forall v: nat :: Held(w, key, x, v) ==> w'.hist[v] == w.hist[v];
    assert forall v :: Held(w, key, x, v) ==> Held(w', key, x, v);
  }

  lemma {:induction false} ChangeKeepsRevs(w: World, k: RevKey, store: Store, key: string, x: Identity, r: Revs)
    requires HistoryOk(w) && RevsOk(w, key, x, r)
    ensures RevsOk(Changed(w, k, store), key, x, r)
  {
    forall i: nat ensures HeldAfter(w, key, x, i) ==> HeldAfter(Changed(w, k, store), key, x, i) {
      ChangeKeepsHeld(w, k, store, key, x, i);
    }
  }

  lemma {:induction false} ChangeKeepsEntry(w: World, k: RevKey, store: Store, key: string, e: Entry)
    requires HistoryOk(w) && EntryOk(w, key, e)
    ensures EntryOk(Changed(w, k, store), key, e)
  {
    ChangeKeepsHeld(w, k, store, key, e.identity, 0);
    ChangeKeepsRevs(w, k, store, key, e.identity, e.revs);
  }

  lemma {:induction false} ChangeKeepsFresh(w: World, k: RevKey, store: Store, op: Op, x: Identity)
    requires HistoryOk(w) && FreshFor(w, op, x) && op.bumpedAtStart <= w.bumped
    ensures FreshFor(Changed(w, k, store), op, x)
  {
    forall i: nat ensures HeldAfter(w, op.key, x, i) ==> HeldAfter(Changed(w, k, store), op.key, x, i) {
      ChangeKeepsHeld(w, k, store, op.key, x, i);
    }
  }

  lemma {:induction false} ChangeKeepsOp(w: World, k: RevKey, store: Store, op: Op)
    requires HistoryOk(w) && OpOk(w, op)
    ensures OpOk(Changed(w, k, store), op)
  {
    match op.pc
    case LocalCheck(e, _) => ChangeKeepsEntry(w, k, store, op.key, e);
    case RedisCheck(e, _) => ChangeKeepsEntry(w, k, store, op.key, e);
    case CopyLocal(e, _) =>
      ChangeKeepsEntry(w, k, store, op.key, e);
      ChangeKeepsFresh(w, k, store, op, e.identity);
    case ReadRevs(x, _) =>
      ChangeKeepsHeld(w, k, store, op.key, x, 0);
      ChangeKeepsFresh(w, k, store, op, x);
    case PutLocal(x, r, _) => ChangeKeepsLoaded(w, k, store, op, x, r);
    case PutRedis(x, r, _) => ChangeKeepsLoaded(w, k, store, op, x, r);
    case Answered(a) =>
      if a.identity.Some? {
        ChangeKeepsHeld(w, k, store, op.key, a.identity.value, 0);
        ChangeKeepsFresh(w, k, store, op, a.identity.value);
      }
    case _ =>
  }

  lemma {:induction false} ChangeKeepsLoaded(w: World, k: RevKey, store: Store, op: Op, x: Identity, r: Revs)
    requires HistoryOk(w) && RevsOk(w, op.key, x, r) && FreshFor(w, op, x) && op.bumpedAtStart <= w.bumped
    ensures RevsOk(Changed(w, k, store), op.key, x, r) && FreshFor(Changed(w, k, store), op, x)
    ensures forall v :: Held(w, op.key, x, v) ==> Held(Changed(w, k, store), op.key, x, v)
  {
    ChangeKeepsHeld(w, k, store, op.key, x, 0);
    ChangeKeepsRevs(w, k, store, op.key, x, r);
    ChangeKeepsFresh(w, k, store, op, x);
  }

  lemma {:induction false} BumpKeepsHeld(w: World, i: nat, key: string, x: Identity, j: nat)
    requires i < |w.changes|
    ensures forall v :: Held(w, key, x, v) <==> Held(Bumped(w, i), key, x, v)
    ensures HeldAfter(w, key, x, j) <==> HeldAfter(Bumped(w, i), key, x, j)
  {
    var w' := Bumped(w, i);
    assert forall v :: Held(w, key, x, v) <==> Held(w', key, x, v);
  }

  lemma {:induction false} BumpKeepsRevs(w: World, i: nat, key: string, x: Identity, r: Revs)
    requires HistoryOk(w) && RevsOk(w, key, x, r) && i < |w.changes|
    ensures RevsOk(Bumped(w, i), key, x, r)
  {
    var w' := Bumped(w, i);
    var k := w.changes[i];
    assert forall f, id :: Counter(w.counters, f, id) <= Counter(w'.counters, f, id);
    assert ChangeOk(w.hist[i], k, w.hist[i + 1]);
    assert Counter(w'.counters, k.field, k.id) > Counter(w.counters, k.field, k.id);
    forall j: nat ensures HeldAfter(w, key, x, j) <==> HeldAfter(w', key, x, j) {
      BumpKeepsHeld(w, i, key, x, j);
    }
  }

  lemma {:induction false} BumpKeepsEntry(w: World, i: nat, key: string, e: Entry)
    requires HistoryOk(w) && EntryOk(w, key, e) && i < |w.changes|
    ensures EntryOk(Bumped(w, i), key, e)
  {
    BumpKeepsRevs(w, i, key, e.identity, e.revs);
  }

  lemma {:induction false} BumpKeepsFresh(w: World, i: nat, op: Op, x: Identity)
    requires HistoryOk(w) && FreshFor(w, op, x) && i < |w.changes|
    ensures FreshFor(Bumped(w, i), op, x)
  {
    forall j: nat ensures HeldAfter(w, op.key, x, j) <==> HeldAfter(Bumped(w, i), op.key, x, j) {
      BumpKeepsHeld(w, i, op.key, x, j);
    }
  }

  lemma {:induction false} BumpKeepsOp(w: World, i: nat, op: Op)
    requires HistoryOk(w) && OpOk(w, op) && i < |w.changes|
    ensures OpOk(Bumped(w, i), op)
  {
    match op.pc
    case LocalCheck(e, _) => BumpKeepsEntry(w, i, op.key, e);
    case RedisCheck(e, _) => BumpKeepsEntry(w, i, op.key, e);
    case CopyLocal(e, _) =>
      BumpKeepsEntry(w, i, op.key, e);
      BumpKeepsFresh(w, i, op, e.identity);
    case ReadRevs(x, _) => BumpKeepsFresh(w, i, op, x);
    case PutLocal(x, r, _) =>
      BumpKeepsRevs(w, i, op.key, x, r);
      BumpKeepsFresh(w, i, op, x);
    case PutRedis(x, r, _) =>
      BumpKeepsRevs(w, i, op.key, x, r);
      BumpKeepsFresh(w, i, op, x);
    case Answered(a) =>
      if a.identity.Some? {
        BumpKeepsFresh(w, i, op, a.identity.value);
      }
    case _ =>
  }

  lemma {:induction false} ChangeKeepsInv(s: State, k: RevKey, store: Store)
    requires Inv(s) && Enabled(s, Change(k, store))
    ensures Inv(Next(s, Change(k, store)))
  {
    var w' := Changed(s.w, k, store);
    forall gk | gk in s.local ensures EntryOk(w', gk.1, s.local[gk]) {
      ChangeKeepsEntry(s.w, k, store, gk.1, s.local[gk]);
    }
    forall key | key in s.redis ensures EntryOk(w', key, s.redis[key]) {
      ChangeKeepsEntry(s.w, k, store, key, s.redis[key]);
    }
    forall p | p in s.ops ensures OpOk(w', s.ops[p]) {
      ChangeKeepsOp(s.w, k, store, s.ops[p]);
    }
  }

  lemma {:induction false} BumpKeepsInv(s: State, i: nat)
    requires Inv(s) && Enabled(s, Bump(i))
    ensures Inv(Next(s, Bump(i)))
  {
    var w' := Bumped(s.w, i);
    forall gk | gk in s.local ensures EntryOk(w', gk.1, s.local[gk]) {
      BumpKeepsEntry(s.w, i, gk.1, s.local[gk]);
    }
    forall key | key in s.redis ensures EntryOk(w', key, s.redis[key]) {
      BumpKeepsEntry(s.w, i, key, s.redis[key]);
    }
    forall p | p in s.ops ensures OpOk(w', s.ops[p]) {
      BumpKeepsOp(s.w, i, s.ops[p]);
    }
  }

  lemma {:induction false} BeginKeepsInv(s: State, o: OpId, g: Gateway, key: string)
    requires Inv(s) && o !in s.ops
    ensures Inv(BeginOp(s, o, g, key))
  {
    assert OpOk(s.w, BeginOp(s, o, g, key).ops[o]);
  }

  lemma {:induction false} EventKeepsInv(s: State, e: Event)
    requires Inv(s) && Enabled(s, e) && !LateRead(s, e)
    ensures Inv(Next(s, e))
  {
    match e
    case Begin(o, g, key) => BeginKeepsInv(s, o, g, key);
    case Step(o, verified) => StepKeepsInv(s, o, verified);
    case Change(k, store) => ChangeKeepsInv(s, k, store);
    case Bump(i) => BumpKeepsInv(s, i);
    case _ =>
  }

  lemma {:induction false} RunKeepsInv(s: State, es: seq<Event>)
    requires Inv(s) && ValidRun(s, es) && NoLateRead(s, es)
    ensures Inv(Exec(s, es))
    decreases |es|
  {
    if es != [] {
      EventKeepsInv(s, es[0]);
      RunKeepsInv(Next(s, es[0]), es[1..]);
    }
  }

  // ---- Freshness ----

  lemma {:induction false} StartInv(store: Store, ttl: nat)
    ensures Inv(Start(store, ttl))
  {}

  /** The answer is what store version v says about the key. */
  ghost predicate AnswersFrom(w: World, key: string, identity: Option<Identity>, v: nat) {
    v < |w.hist| &&
    match identity
    case Some(x) => key in w.hist[v] && w.hist[v][key] == x
    case None => key !in w.hist[v]
  }

  /** The answer is the store's own at some version after change i. */
  ghost predicate SeesChange(w: World, key: string, identity: Option<Identity>, i: nat) {
    exists v :: i < v && AnswersFrom(w, key, identity, v)
  }

  /** The answer of a call sees every change, to an id of the answered identity, that was bumped before the call. */
  ghost predicate FreshAnswer(w: World, op: Op)
    requires op.pc.Answered?
  {
    var x := op.pc.answer.identity;
    forall i :: i in op.bumpedAtStart && i < |w.changes| && (x.Some? ==> Concerns(w, i, x.value)) ==>
      SeesChange(w, op.key, x, i)
  }

  ghost predicate FreshAnswers(s: State) {
    forall o :: o in s.ops && s.ops[o].pc.Answered? ==> FreshAnswer(s.w, s.ops[o])
  }

  lemma {:induction false} InvIsFresh(s: State)
    requires Inv(s)
    ensures FreshAnswers(s)
  {
    forall o | o in s.ops && s.ops[o].pc.Answered? ensures FreshAnswer(s.w, s.ops[o]) {
      var op, a := s.ops[o], s.ops[o].pc.answer;
      assert OpOk(s.w, op);
      forall i | i in op.bumpedAtStart && i < |s.w.changes| && (a.identity.Some? ==> Concerns(s.w, i, a.identity.value))
        ensures SeesChange(s.w, op.key, a.identity, i)
      {
        match a.identity
        case Some(x) =>
          var u :| i < u && Held(s.w, op.key, x, u);
          assert AnswersFrom(s.w, op.key, a.identity, u);
        case None => assert AnswersFrom(s.w, op.key, a.identity, a.asOf);
      }
    }
  }

  /** Without a late read no answer misses a change that was bumped before the call, whichever cache served it. */
  lemma {:induction false} AnswersSeeBumpedChanges(store: Store, ttl: nat, es: seq<Event>)
    requires ValidRun(Start(store, ttl), es) && NoLateRead(Start(store, ttl), es)
    ensures FreshAnswers(Exec(Start(store, ttl), es))
  {
    StartInv(store, ttl);
    RunKeepsInv(Start(store, ttl), es);
    InvIsFresh(Exec(Start(store, ttl), es));
  }

  /** An identity that outlives every change to its ids before n is held at n or later. */
  lemma {:induction false} HeldPast(w: World, key: string, x: Identity, v: nat, n: nat) returns (u: nat)
    requires HistoryOk(w) && Held(w, key, x, v) && n < |w.hist|
    requires forall i :: 0 <= i < n && Concerns(w, i, x) ==> HeldAfter(w, key, x, i)
    ensures n <= u && Held(w, key, x, u)
    decreases n - v
  {
    u := v;
    if v < n {
      if Concerns(w, v, x) {
        var next :| v < next && Held(w, key, x, next);
        u := HeldPast(w, key, x, next, n);
      } else {
        assert ChangeOk(w.hist[v], w.changes[v], w.hist[v + 1]);
        u := HeldPast(w, key, x, v + 1, n);
      }
    }
  }

  /** When the first n changes were all bumped before the call began, the answer is the store's own
      answer at some version that includes all n, whichever cache served it. */
  lemma {:induction false} AnswersFromPostChangeData(store: Store, ttl: nat, es: seq<Event>, o: OpId, n: nat)
    returns (v: nat)
    requires ValidRun(Start(store, ttl), es) && NoLateRead(Start(store, ttl), es)
    requires var s := Exec(Start(store, ttl), es);
      && o in s.ops && s.ops[o].pc.Answered? && n <= |s.w.changes|
      && forall i :: 0 <= i < n ==> i in s.ops[o].bumpedAtStart
    ensures var s := Exec(Start(store, ttl), es);
      n <= v && AnswersFrom(s.w, s.ops[o].key, s.ops[o].pc.answer.identity, v)
  {
    StartInv(store, ttl);
    RunKeepsInv(Start(store, ttl), es);
    var s := Exec(Start(store, ttl), es);
    var op := s.ops[o];
    var a := op.pc.answer;
    assert OpOk(s.w, op);
    v := a.asOf;
    if a.identity.Some? {
      v := HeldPast(s.w, op.key, a.identity.value, a.asOf, n);
    }
    assert a.identity.None? && n > 0 ==> n - 1 in op.bumpedAtStart;
  }

  // ---- The premise is exact ----

  /** Nothing that may still happen, short of a late read, gives an answer that misses a bumped change. */
  ghost predicate Safe(s: State) {
    forall es :: ValidRun(s, es) && NoLateRead(s, es) ==> FreshAnswers(Exec(s, es))
  }

  ghost predicate AlwaysSafe(s: State, es: seq<Event>)
    requires ValidRun(s, es)
    decreases |es|
  {
    Safe(s) && (es != [] ==> AlwaysSafe(Next(s, es[0]), es[1..]))
  }

  lemma {:induction false} InvIsSafe(s: State)
    requires Inv(s)
    ensures Safe(s)
  {
    forall es | ValidRun(s, es) && NoLateRead(s, es) ensures FreshAnswers(Exec(s, es)) {
      RunKeepsInv(s, es);
      InvIsFresh(Exec(s, es));
    }
  }

  lemma {:induction false} FreshOpId(ops: set<OpId>) returns (o: OpId)
    ensures o !in ops && forall p :: p in ops ==> p < o
  {
    o := 0;
    if ops != {} {
      var p :| p in ops;
      var q := FreshOpId(ops - {p});
      o := if p < q then q else p + 1;
      assert forall r :: r in ops ==> r == p || r in ops - {p};
    }
  }

  /** An outdated identity under current revisions, about to be cached, is answered to the next call. */
  lemma {:induction false} OutdatedIsServed(s: State, o: OpId, o2: OpId)
    requires s.w.hist != [] && o in s.ops && o2 !in s.ops && s.ops[o].pc.PutLocal?
    requires s.ops[o].pc.revs == Current(s.w.counters, s.ops[o].pc.identity)
    requires Outdated(s.w, s.ops[o].key, s.ops[o].pc.identity)
    ensures var es := [Step(o, true), Begin(o2, s.ops[o].gw, s.ops[o].key), Step(o2, true)];
      ValidRun(s, es) && NoLateRead(s, es) && !FreshAnswers(Exec(s, es))
  {
    var op := s.ops[o];
    var x := op.pc.identity;
    var es := [Step(o, true), Begin(o2, op.gw, op.key), Step(o2, true)];
    RunThree(s, es);
    var s1 := Next(s, es[0]);
    assert s1.w == s.w && (op.gw, op.key) in s1.local && s1.local[(op.gw, op.key)].identity == x;
    var s2 := Next(s1, es[1]);
    assert s2.ops[o2].pc.LocalCheck? && s2.ops[o2].bumpedAtStart == s.w.bumped;
    var s3 := Next(s2, es[2]);
    assert es[1..] == [es[1], es[2]] && es[1..][1..] == [es[2]] && es[1..][1..][1..] == [];
    assert !LateRead(s, es[0]) && !LateRead(s1, es[1]) && !LateRead(s2, es[2]);
    assert NoLateRead(s2, [es[2]]);
    assert NoLateRead(s1, es[1..]);
    MissesChange(s3, o2, x);
  }

  lemma {:induction false} MissesChange(s: State, o: OpId, x: Identity)
    requires o in s.ops && s.ops[o].pc.Answered? && s.ops[o].pc.answer.identity == Some(x)
    requires s.ops[o].bumpedAtStart == s.w.bumped && Outdated(s.w, s.ops[o].key, x)
    ensures !FreshAnswers(s)
  {
    var op := s.ops[o];
    var i :| i in s.w.bumped && i < |s.w.changes| && Concerns(s.w, i, x) && !HeldAfter(s.w, op.key, x, i);
    assert !SeesChange(s.w, op.key, Some(x), i) by {
      assert forall v :: AnswersFrom(s.w, op.key, Some(x), v) ==> Held(s.w, op.key, x, v);
    }
    assert !FreshAnswer(s.w, op);
  }

  lemma {:induction false} LateReadIsUnsafe(s: State, e: Event)
    requires Enabled(s, e) && LateRead(s, e)
    ensures !Safe(Next(s, e))
  {
    var s1 := Next(s, e);
    var o2 := FreshOpId(s1.ops.Keys);
    OutdatedIsServed(s1, e.o, o2);
  }

  /** Every moment of a run is safe iff the run has no late read. */
  lemma {:induction false} SafeExactly(s: State, es: seq<Event>)
    requires Inv(s) && ValidRun(s, es)
    ensures AlwaysSafe(s, es) <==> NoLateRead(s, es)
    decreases |es|
  {
    InvIsSafe(s);
    if es != [] {
      if LateRead(s, es[0]) {
        LateReadIsUnsafe(s, es[0]);
      } else {
        EventKeepsInv(s, es[0]);
        SafeExactly(Next(s, es[0]), es[1..]);
      }
    }
  }

  /** From an empty cache: no moment of a run leads to a stale answer iff no revisions are read for an identity that
      a bumped change had taken away. */
  lemma {:induction false} FreshExactlyWithoutLateReads(store: Store, ttl: nat, es: seq<Event>)
    requires ValidRun(Start(store, ttl), es)
    ensures AlwaysSafe(Start(store, ttl), es) <==> NoLateRead(Start(store, ttl), es)
  {
    StartInv(store, ttl);
    SafeExactly(Start(store, ttl), es);
  }

  // ---- The race itself ----

  /** The state in which the race ends: change and bump done, the old identity cached under the new revision. */
  ghost predicate Poisoned(s: State, x: Identity, y: Identity, key: string) {
    && s.w.hist == [map[key := x], map[key := y]] && s.w.changes == [RevKey(ApiKeyId, x.apiKey)] && s.w.bumped == {0}
    && (0, key) in s.local && s.local[(0, key)].identity == x && s.local[(0, key)].revs == Current(s.w.counters, x)
    && s.now <= s.local[(0, key)].expires && 1 !in s.ops
  }

  lemma {:induction false} RaceReads(s: State, x: Identity, y: Identity, key: string, ttl: nat) returns (es: seq<Event>)
    requires !Blank(x.apiKey)
    requires s == Start(map[key := x], ttl).(ops := map[0 := Op(0, key, ReadRevs(x, 0), {})])
    ensures ValidRun(s, es) && Poisoned(Exec(s, es), x, y, key)
  {
    var edit, tail := Change(RevKey(ApiKeyId, x.apiKey), map[key := y]), [Bump(0), Step(0, true), Step(0, true)];
    var s1 := Next(s, edit);
    RunThree(s1, tail);
    RunOne(s, edit, tail);
    es := [edit] + tail;
  }

  lemma {:induction false} Race(x: Identity, y: Identity, key: string, ttl: nat) returns (es: seq<Event>)
    requires !Blank(x.apiKey)
    ensures ValidRun(Start(map[key := x], ttl), es) && Poisoned(Exec(Start(map[key := x], ttl), es), x, y, key)
  {
    var load := [Begin(0, 0, key), Step(0, true), Step(0, true)];
    var s0 := Start(map[key := x], ttl);
    RunThree(s0, load);
    var s3 := Exec(s0, load);
    assert s3 == s0.(ops := map[0 := Op(0, key, ReadRevs(x, 0), {})]);
    var race := RaceReads(s3, x, y, key, ttl);
    RunBoth(s0, load, race);
    es := load + race;
  }

  /** A load and its revision read around one change and its bump poison the cache: a later call,
      begun after the bump, is answered from the old data. */
  lemma {:induction false} StraddledLoadServesStaleData(x: Identity, y: Identity, key: string, ttl: nat)
    returns (es: seq<Event>)
    requires x != y && !Blank(x.apiKey)
    ensures ValidRun(Start(map[key := x], ttl), es)
    ensures var s := Exec(Start(map[key := x], ttl), es);
      && 1 in s.ops && s.ops[1].pc.Answered? && 0 in s.ops[1].bumpedAtStart
      && s.w.changes == [RevKey(ApiKeyId, x.apiKey)] && s.w.hist == [map[key := x], map[key := y]]
      && s.ops[1].key == key && s.ops[1].pc.answer.identity == Some(x)
  {
    var poison := Race(x, y, key, ttl);
    var s0 := Start(map[key := x], ttl);
    var s7 := Exec(s0, poison);
    var s8 := Next(s7, Begin(1, 0, key));
    assert [Step(1, true)] == [Step(1, true)] + [];
    RunOne(s8, Step(1, true), []);
    RunOne(s7, Begin(1, 0, key), [Step(1, true)]);
    RunBoth(s0, poison, [Begin(1, 0, key)] + [Step(1, true)]);
    es := poison + ([Begin(1, 0, key)] + [Step(1, true)]);
  }

  lemma {:induction false} RunOne(s: State, e: Event, es: seq<Event>)
    requires Enabled(s, e)
    ensures ValidRun(Next(s, e), es) ==> ValidRun(s, [e] + es) && Exec(s, [e] + es) == Exec(Next(s, e), es)
  {
    assert ([e] + es)[1..] == es;
  }

  lemma {:induction false} RunThree(s: State, es: seq<Event>)
    requires |es| == 3
    ensures Enabled(s, es[0]) && Enabled(Next(s, es[0]), es[1]) && Enabled(Next(Next(s, es[0]), es[1]), es[2]) ==>
      ValidRun(s, es) && Exec(s, es) == Next(Next(Next(s, es[0]), es[1]), es[2])
  {
    if Enabled(s, es[0]) && Enabled(Next(s, es[0]), es[1]) && Enabled(Next(Next(s, es[0]), es[1]), es[2]) {
      assert es == [es[0]] + ([es[1]] + ([es[2]] + []));
      RunOne(Next(Next(s, es[0]), es[1]), es[2], []);
      RunOne(Next(s, es[0]), es[1], [es[2]] + []);
      RunOne(s, es[0], [es[1]] + ([es[2]] + []));
    }
  }

  lemma {:induction false} RunBoth(s: State, a: seq<Event>, b: seq<Event>)
    requires ValidRun(s, a) && ValidRun(Exec(s, a), b)
    ensures ValidRun(s, a + b) && Exec(s, a + b) == Exec(Exec(s, a), b)
    decreases |a|
  {
    if a == [] {
      assert a + b == b;
    } else {
      assert (a + b)[1..] == a[1..] + b;
      RunBoth(Next(s, a[0]), a[1..], b);
    }
  }

  // ---- Age ----

  ghost predicate LocalAge(s: State, lag: nat, key: string, e: Entry) {
    Held(s.w, key, e.identity, e.asOf) && e.expires <= e.cachedAt + 2 * s.ttl + lag
  }

  ghost predicate RedisAge(s: State, key: string, e: Entry) {
    Held(s.w, key, e.identity, e.asOf) && e.expires <= e.cachedAt + s.ttl
  }

  ghost predicate OpAge(s: State, lag: nat, op: Op) {
    match op.pc
    case LocalCheck(e, readAt) => LocalAge(s, lag, op.key, e) && readAt <= e.expires
    case RedisCheck(e, readAt) => RedisAge(s, op.key, e) && readAt <= e.expires
    case CopyLocal(e, readAt) => RedisAge(s, op.key, e) && readAt <= e.expires
    case ReadRevs(x, v) => Held(s.w, op.key, x, v)
    case PutLocal(x, _, v) => Held(s.w, op.key, x, v)
    case PutRedis(x, _, v) => Held(s.w, op.key, x, v)
    case Answered(a) =>
      a.fromCache ==>
        a.identity.Some? && Held(s.w, op.key, a.identity.value, a.asOf) && a.readAt <= a.cachedAt + 2 * s.ttl + lag
    case _ => true
  }

  ghost predicate AgeInv(s: State, lag: nat) {
    && s.w.hist != []
    && (forall gk :: gk in s.local ==> LocalAge(s, lag, gk.1, s.local[gk]))
    && (forall key :: key in s.redis ==> RedisAge(s, key, s.redis[key]))
    && (forall o :: o in s.ops ==> OpAge(s, lag, s.ops[o]))
  }

  lemma {:induction false} LookupKeepsOpAge(s: State, lag: nat, o: OpId, verified: bool)
    requires o in s.ops && s.w.hist != [] && OpAge(s, lag, s.ops[o])
    requires var pc := s.ops[o].pc; pc.LocalCheck? || pc.RedisCheck? || pc.CopyLocal?
    ensures OpAge(s, lag, StepOp(s, o, verified).ops[o])
  {
  }

  lemma {:induction false} LoadKeepsOpAge(s: State, lag: nat, o: OpId, verified: bool)
    requires o in s.ops && s.w.hist != [] && OpAge(s, lag, s.ops[o])
    requires forall key :: key in s.redis ==> RedisAge(s, key, s.redis[key])
    requires var pc := s.ops[o].pc; !(pc.LocalCheck? || pc.RedisCheck? || pc.CopyLocal?)
    ensures OpAge(s, lag, StepOp(s, o, verified).ops[o])
  {
  }

  lemma {:induction false} StepKeepsOpAge(s: State, lag: nat, o: OpId, verified: bool)
    requires AgeInv(s, lag) && o in s.ops
    ensures OpAge(s, lag, StepOp(s, o, verified).ops[o])
  {
    var pc := s.ops[o].pc;
    assert OpAge(s, lag, s.ops[o]);
    if pc.LocalCheck? || pc.RedisCheck? || pc.CopyLocal? {
      LookupKeepsOpAge(s, lag, o, verified);
    } else {
      LoadKeepsOpAge(s, lag, o, verified);
    }
  }

  /** What a step writes to the local map, if anything, is the entry at its program point. */
  lemma {:induction false} StepKeepsLocalAge(s: State, lag: nat, o: OpId, verified: bool, gk: (Gateway, string))
    requires o in s.ops && s.w.hist != [] && OpAge(s, lag, s.ops[o]) && Prompt(s, Step(o, verified), lag)
    requires gk in s.local ==> LocalAge(s, lag, gk.1, s.local[gk])
    requires gk in StepOp(s, o, verified).local
    ensures LocalAge(s, lag, gk.1, StepOp(s, o, verified).local[gk])
  {
    match s.ops[o].pc
    case CopyLocal(_, _) =>
    case PutLocal(_, _, _) =>
    case _ =>
  }

  lemma {:induction false} StepKeepsRedisAge(s: State, lag: nat, o: OpId, verified: bool, key: string)
    requires o in s.ops && s.w.hist != [] && OpAge(s, lag, s.ops[o])
    requires key in s.redis ==> RedisAge(s, key, s.redis[key])
    requires key in StepOp(s, o, verified).redis
    ensures RedisAge(s, key, StepOp(s, o, verified).redis[key])
  {
    match s.ops[o].pc
    case PutRedis(_, _, _) =>
    case _ =>
  }

  lemma {:induction false} SameAges(s: State, s': State, lag: nat)
    requires s'.w == s.w && s'.ttl == s.ttl
    ensures forall op :: OpAge(s, lag, op) ==> OpAge(s', lag, op)
    ensures forall key, e :: LocalAge(s, lag, key, e) ==> LocalAge(s', lag, key, e)
    ensures forall key, e :: RedisAge(s, key, e) ==> RedisAge(s', key, e)
  {
  }

  lemma {:induction false} StepKeepsAge(s: State, lag: nat, o: OpId, verified: bool)
    requires AgeInv(s, lag) && o in s.ops && Prompt(s, Step(o, verified), lag)
    ensures AgeInv(StepOp(s, o, verified), lag)
  {
    var s' := StepOp(s, o, verified);
    StepFrame(s, o, verified);
    SameAges(s, s', lag);
    assert OpAge(s, lag, s.ops[o]);
    forall gk | gk in s'.local ensures LocalAge(s, lag, gk.1, s'.local[gk]) {
      StepKeepsLocalAge(s, lag, o, verified, gk);
    }
    forall key | key in s'.redis ensures RedisAge(s, key, s'.redis[key]) {
      StepKeepsRedisAge(s, lag, o, verified, key);
    }
    forall p | p in s'.ops ensures OpAge(s, lag, s'.ops[p]) {
      if p == o {
        StepKeepsOpAge(s, lag, o, verified);
      }
    }
  }

  lemma {:induction false} WorldKeepsAge(s: State, s': State, lag: nat)
    requires AgeInv(s, lag) && s'.local == s.local && s'.redis == s.redis && s'.ops == s.ops && s'.ttl == s.ttl
    requires s.w.hist <= s'.w.hist
    ensures AgeInv(s', lag)
  {
    forall o | o in s'.ops ensures OpAge(s', lag, s'.ops[o]) { assert OpAge(s, lag, s.ops[o]); }
  }

  lemma {:induction false} BeginKeepsAge(s: State, lag: nat, o: OpId, g: Gateway, key: string)
    requires AgeInv(s, lag) && o !in s.ops
    ensures AgeInv(BeginOp(s, o, g, key), lag)
  {
    var s' := BeginOp(s, o, g, key);
    SameAges(s, s', lag);
    assert OpAge(s, lag, s'.ops[o]);
  }

  lemma {:induction false} EventKeepsAge(s: State, lag: nat, e: Event)
    requires AgeInv(s, lag) && Enabled(s, e) && Prompt(s, e, lag)
    ensures AgeInv(Next(s, e), lag)
  {
    match e
    case Step(o, verified) => StepKeepsAge(s, lag, o, verified);
    case Change(_, _) => WorldKeepsAge(s, Next(s, e), lag);
    case Bump(_) => WorldKeepsAge(s, Next(s, e), lag);
    case Tick(_) => WorldKeepsAge(s, Next(s, e), lag);
    case Begin(o, g, key) => BeginKeepsAge(s, lag, o, g, key);
    case _ =>
  }

  lemma {:induction false} RunKeepsAge(s: State, lag: nat, es: seq<Event>)
    requires AgeInv(s, lag) && ValidRun(s, es) && AllPrompt(s, es, lag)
    ensures AgeInv(Exec(s, es), lag)
    decreases |es|
  {
    if es != [] {
      EventKeepsAge(s, lag, es[0]);
      RunKeepsAge(Next(s, es[0]), lag, es[1..]);
    }
  }

  /** With no assumption on changes or bumps: a cached answer is the store's data, and it had been cached
      from the store at most 2 x ttl (plus the copy lag) before the lookup that served it. */
  lemma {:induction false} CachedAnswersAreYoung(store: Store, ttl: nat, lag: nat, es: seq<Event>, o: OpId)
    requires ValidRun(Start(store, ttl), es) && AllPrompt(Start(store, ttl), es, lag)
    requires var s := Exec(Start(store, ttl), es); o in s.ops && s.ops[o].pc.Answered? && s.ops[o].pc.answer.fromCache
    ensures var s := Exec(Start(store, ttl), es); var a := s.ops[o].pc.answer;
      && AnswersFrom(s.w, s.ops[o].key, a.identity, a.asOf) && a.identity.Some?
      && a.readAt - a.cachedAt <= 2 * s.ttl + lag
  {
    RunKeepsAge(Start(store, ttl), lag, es);
    var s := Exec(Start(store, ttl), es);
    assert OpAge(s, lag, s.ops[o]);
  }

  // ---- The age bound is attained ----

  /** A run with every copy made within `lag` leads from s to t. */
  ghost predicate Reaches(s: State, t: State, lag: nat) {
    exists es :: LeadsTo(s, es, t, lag)
  }

  ghost predicate LeadsTo(s: State, es: seq<Event>, t: State, lag: nat) {
    ValidRun(s, es) && AllPrompt(s, es, lag) && Exec(s, es) == t
  }

  lemma {:induction false} PromptThenOne(s: State, es: seq<Event>, e: Event, lag: nat)
    requires ValidRun(s, es) && AllPrompt(s, es, lag) && Enabled(Exec(s, es), e) && Prompt(Exec(s, es), e, lag)
    ensures ValidRun(s, es + [e]) && AllPrompt(s, es + [e], lag) && Exec(s, es + [e]) == Next(Exec(s, es), e)
    decreases |es|
  {
    if es == [] {
      assert es + [e] == [e] && [e][1..] == [];
    } else {
      assert (es + [e])[1..] == es[1..] + [e];
      PromptThenOne(Next(s, es[0]), es[1..], e, lag);
    }
  }

  lemma {:induction false} ReachNext(s: State, t: State, e: Event, lag: nat)
    requires Reaches(s, t, lag) && Enabled(t, e) && Prompt(t, e, lag)
    ensures Reaches(s, Next(t, e), lag)
  {
    var es :| LeadsTo(s, es, t, lag);
    PromptThenOne(s, es, e, lag);
    assert LeadsTo(s, es + [e], Next(t, e), lag);
  }

  ghost function Bare(x: Identity): Entry { Entry(x, Revs(0, 0, 0, 0), 0, 0, 0) }

  /** Gateway 0 loads the key at time 0 and caches it in Redis until ttl. */
  lemma {:induction false} CachedAtZero(x: Identity, key: string, ttl: nat, lag: nat) returns (t: State)
    requires !Blank(key) && x.apiKey != ""
    ensures Reaches(Start(map[key := x], ttl), t, lag)
    ensures t.now == 0 && t.ttl == ttl && t.w == Start(map[key := x], ttl).w && t.ops.Keys == {0}
    ensures t.redis == map[key := Bare(x).(expires := ttl)] && t.local.Keys == {(0, key)}
  {
    var s0 := Start(map[key := x], ttl);
    assert LeadsTo(s0, [], s0, lag);
    var s1 := Next(s0, Begin(0, 0, key));
    ReachNext(s0, s0, Begin(0, 0, key), lag);
    var s2 := Next(s1, Step(0, true));
    ReachNext(s0, s1, Step(0, true), lag);
    var s3 := Next(s2, Step(0, true));
    ReachNext(s0, s2, Step(0, true), lag);
    assert s3 == s0.(ops := map[0 := Op(0, key, ReadRevs(x, 0), {})]);
    t := LoadedIsCached(s0, s3, x, key, lag);
  }

  lemma {:induction false} LoadedIsCached(s0: State, s3: State, x: Identity, key: string, lag: nat) returns (t: State)
    requires Reaches(s0, s3, lag) && s0 == Start(map[key := x], s0.ttl) && !Blank(key)
    requires s3 == s0.(ops := map[0 := Op(0, key, ReadRevs(x, 0), {})])
    ensures Reaches(s0, t, lag)
    ensures t.now == 0 && t.ttl == s0.ttl && t.w == s0.w && t.ops.Keys == {0}
    ensures t.redis == map[key := Bare(x).(expires := s0.ttl)] && t.local.Keys == {(0, key)}
  {
    var s4 := Next(s3, Step(0, true));
    ReachNext(s0, s3, Step(0, true), lag);
    assert s4.ops[0].pc == PutLocal(x, Revs(0, 0, 0, 0), 0);
    var s5 := Next(s4, Step(0, true));
    ReachNext(s0, s4, Step(0, true), lag);
    assert s5.ops[0].pc == PutRedis(x, Revs(0, 0, 0, 0), 0) && s5.redis == map[];
    t := Next(s5, Step(0, true));
    ReachNext(s0, s5, Step(0, true), lag);
  }

  /** Gateway 1 reads that entry at its last moment and copies it `lag` later. */
  lemma {:induction false} CopiedLate(s0: State, t: State, x: Identity, key: string, lag: nat) returns (u: State)
    requires Reaches(s0, t, lag) && !Blank(key) && x.apiKey != "" && t.w.hist != [] && t.w.counters == map[]
    requires t.now == 0 && 1 !in t.ops && t.redis == map[key := Bare(x).(expires := t.ttl)]
    requires (1, key) !in t.local
    ensures Reaches(s0, u, lag) && u.w == t.w && u.ttl == t.ttl && u.now == t.ttl + lag
    ensures u.ops.Keys == t.ops.Keys + {1}
    ensures (1, key) in u.local && u.local[(1, key)] == Bare(x).(expires := 2 * t.ttl + lag)
  {
    var t1 := Next(t, Tick(t.ttl));
    ReachNext(s0, t, Tick(t.ttl), lag);
    var t2 := Next(t1, Begin(1, 1, key));
    ReachNext(s0, t1, Begin(1, 1, key), lag);
    var t3 := Next(t2, Step(1, true));
    ReachNext(s0, t2, Step(1, true), lag);
    assert t3.ops[1].pc == RedisCheck(Bare(x).(expires := t.ttl), t.ttl);
    var t4 := Next(t3, Step(1, true));
    ReachNext(s0, t3, Step(1, true), lag);
    assert t4.ops[1].pc == CopyLocal(Bare(x).(expires := t.ttl), t.ttl);
    var t5 := Next(t4, Tick(lag));
    ReachNext(s0, t4, Tick(lag), lag);
    u := Next(t5, Step(1, true));
    ReachNext(s0, t5, Step(1, true), lag);
  }

  /** The bound of CachedAnswersAreYoung is attained, for every ttl and lag. */
  lemma {:induction false} AgeBoundIsAttained(x: Identity, key: string, ttl: nat, lag: nat) returns (es: seq<Event>)
    requires !Blank(key) && x.apiKey != ""
    ensures ValidRun(Start(map[key := x], ttl), es) && AllPrompt(Start(map[key := x], ttl), es, lag)
    ensures var s := Exec(Start(map[key := x], ttl), es);
      && 2 in s.ops && s.ops[2].pc.Answered? && s.ops[2].pc.answer.fromCache
      && s.ops[2].pc.answer.readAt - s.ops[2].pc.answer.cachedAt == 2 * ttl + lag
  {
    var s0 := Start(map[key := x], ttl);
    var t := CachedAtZero(x, key, ttl, lag);
    var u := CopiedLate(s0, t, x, key, lag);
    var u1 := Next(u, Tick(ttl));
    ReachNext(s0, u, Tick(ttl), lag);
    var u2 := Next(u1, Begin(2, 1, key));
    ReachNext(s0, u1, Begin(2, 1, key), lag);
    assert u2.ops[2].pc == LocalCheck(Bare(x).(expires := 2 * ttl + lag), 2 * ttl + lag);
    ReachNext(s0, u2, Step(2, true), lag);
    es :| LeadsTo(s0, es, Next(u2, Step(2, true)), lag);
  }

  // ---- What the caches are for ----

  /** An entry whose revisions no longer match is dropped where it was found, and the lookup goes on. */
  lemma {:induction false} MismatchIsDropped(s: State, o: OpId, verified: bool)
    requires o in s.ops && s.w.hist != [] && (s.ops[o].pc.LocalCheck? || s.ops[o].pc.RedisCheck?)
    requires s.ops[o].pc.e.revs != Current(s.w.counters, s.ops[o].pc.e.identity)
    ensures var op, s' := s.ops[o], StepOp(s, o, verified);
      if op.pc.LocalCheck?
      then s'.local == s.local - {(op.gw, op.key)} && s'.redis == s.redis && s'.ops[o] == op.(pc := RedisLookup)
      else s'.redis == s.redis - {op.key} && s'.local == s.local && s'.ops[o] == op.(pc := Load)
  {
  }

  /** A key that fails verification leaves both caches as they are. */
  lemma {:induction false} FailedVerificationCachesNothing(s: State, o: OpId)
    requires o in s.ops && s.w.hist != [] && (s.ops[o].pc.RedisCheck? || s.ops[o].pc.Load?)
    requires s.ops[o].pc.RedisCheck? ==> s.ops[o].pc.e.revs == Current(s.w.counters, s.ops[o].pc.e.identity)
    ensures var s' := StepOp(s, o, false); s'.local == s.local && s'.redis == s.redis && s'.ops[o].pc.Answered?
  {
  }

  /** A loaded identity is cached for ttl at the gateway and, unless the key is blank, in Redis, under the revisions
      read. */
  lemma {:induction false} LoadedIsStored(s: State, o: OpId)
    requires o in s.ops && s.w.hist != [] && s.ops[o].pc.PutLocal?
    ensures var op, s1 := s.ops[o], StepOp(s, o, true); var s2 := StepOp(s1, o, true);
      var e := Entry(op.pc.identity, op.pc.revs, s.now + s.ttl, op.pc.asOf, s.now);
      && s1.local == s.local[(op.gw, op.key) := e] && s1.redis == s.redis
      && s2.local == s1.local && s2.redis == (if Blank(op.key) then s.redis else s.redis[op.key := e])
      && s2.ops[o].pc.Answered? && s2.ops[o].pc.answer.identity == Some(op.pc.identity)
  {
  }
}
