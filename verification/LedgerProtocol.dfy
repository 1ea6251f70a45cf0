/**
 The write-behind protocol around the ledger: concurrent charges, the multi-step flush
 under its lock, lazy creation of hashes under a second lock, and invalidation.

 A run is a sequence of events; every Lua script, SQL statement, SETNX, HGET, HSET,
 HINCRBYFLOAT and DEL is one event, so any interleaving of the processes is a run.
 Lock values record their owner only so that mutual exclusion can be stated.
 */
module LedgerProtocol {
  import opened LedgerScripts

  type Pid = nat

  /** Where a process stands in flushBudgetScopeDelta or flushQuotaLedgerDelta. */
  datatype FlushPc =
    | Locked(k: Key)
    | SpentRead(k: Key, ds: int)
    | BothRead(k: Key, ds: int, dr: int)
    | Applied(k: Key, ds: int, dr: int)   // SQL has the deltas, Redis still counts both
    | SpentDone(k: Key, dr: int)          // delta_spent subtracted
    | Drained(k: Key)

  /** Where a process stands in ensureBudgetLedgerScope or ensureQuotaLedger. */
  datatype InitPc =
    | Wants(k: Key)               // saw no hash, about to SETNX
    | Owns(k: Key)
    | Checked(k: Key)             // still no hash, under the lock
    | Loaded(k: Key, row: Row)
    | Finished(k: Key)

  /** A reservation not yet committed or released. */
  datatype Ticket = Ticket(keys: seq<Key>, amount: int)

  datatype State = State(
    rows: Rows, hashes: Hashes,
    flushLock: map<Key, Pid>, flushers: map<Pid, FlushPc>,
    initLock: map<Key, Pid>, initers: map<Pid, InitPc>,
    open: seq<Ticket>)

  datatype Event =
    | Charge(keys: seq<Key>, cost: int, tokens: int)
    | Reserve(keys: seq<Key>, amount: int)
    | Commit(ticket: nat)
    | Release(ticket: nat)
    | StartFlush(p: Pid, k: Key)
    | StartInit(p: Pid, k: Key)
    | StepFlush(p: Pid)
    | StepInit(p: Pid)
    | Invalidate(k: Key)

  function Fresh(rows: Rows): State {
    State(rows, map[], map[], map[], map[], map[], [])
  }

  function WithoutTicket(open: seq<Ticket>, i: nat): seq<Ticket>
    requires i < |open|
  {
    open[..i] + open[i + 1..]
  }

  /** UPDATE ... SET spent = spent + ?, reserved = CASE WHEN reserved + ? < 0 THEN 0 ELSE reserved + ? END. */
  function FlushRow(r: Row, ds: int, dr: int): Row {
    r.(spent := r.spent + ds, reserved := if r.reserved + dr < 0 then 0 else r.reserved + dr)
  }

  function FlushRows(rows: Rows, k: Key, ds: int, dr: int): Rows {
    if k in rows then rows[k := FlushRow(rows[k], ds, dr)] else rows
  }

  function LoadedEntry(r: Row): Entry {
    Entry(r.limit, r.spent, r.reserved, LoadedPolicy(r.policy), 0, 0)
  }

  function FlushTo(s: State, p: Pid, pc: FlushPc): State {
    s.(flushers := s.flushers[p := pc])
  }

  function InitTo(s: State, p: Pid, pc: InitPc): State {
    s.(initers := s.initers[p := pc])
  }

  /** SETNX on the flush lock: a process that loses it returns at once. */
  function BeginFlush(s: State, p: Pid, k: Key): State {
    if k in s.flushLock then s else FlushTo(s.(flushLock := s.flushLock[k := p]), p, Locked(k))
  }

  /** EXISTS on the hash: only a process that sees none goes on to create it. */
  function BeginInit(s: State, p: Pid, k: Key): State {
    if k in s.hashes then s else InitTo(s, p, Wants(k))
  }

  /** invalidateBudgetLedgerScope with the flush lock free: flush everything, then DEL. */
  function Drop(s: State, k: Key): State {
    var e := Read(s.hashes, k);
    s.(rows := FlushRows(s.rows, k, e.dSpent, e.dReserved), hashes := s.hashes - {k})
  }

  /** One atomic step of a flushing process. */
  function FlushStep(s: State, p: Pid): State
    requires p in s.flushers
  {
    match s.flushers[p]
    case Locked(k) => FlushTo(s, p, SpentRead(k, Read(s.hashes, k).dSpent))
    case SpentRead(k, ds) => FlushTo(s, p, BothRead(k, ds, if k.Quota? then 0 else Read(s.hashes, k).dReserved))
    case BothRead(k, ds, dr) =>
      if ds == 0 && dr == 0 then FlushTo(s, p, Drained(k))
      else FlushTo(s.(rows := FlushRows(s.rows, k, ds, dr)), p, Applied(k, ds, dr))
    case Applied(k, ds, dr) =>
      var e := Read(s.hashes, k);
      FlushTo(if ds == 0 then s else s.(hashes := s.hashes[k := e.(dSpent := e.dSpent - ds)]), p, SpentDone(k, dr))
    case SpentDone(k, dr) =>
      var e := Read(s.hashes, k);
      FlushTo(if dr == 0 then s else s.(hashes := s.hashes[k := e.(dReserved := e.dReserved - dr)]), p, Drained(k))
    case Drained(k) => s.(flushLock := s.flushLock - {k}, flushers := s.flushers - {p})
  }

  /** One atomic step of a process creating a hash. */
  function InitStep(s: State, p: Pid): State
    requires p in s.initers
  {
    match s.initers[p]
    case Wants(k) =>
      if k in s.initLock then s.(initers := s.initers - {p})
      else InitTo(s.(initLock := s.initLock[k := p]), p, Owns(k))
    case Owns(k) => InitTo(s, p, if k in s.hashes then Finished(k) else Checked(k))
    case Checked(k) => InitTo(s, p, if k in s.rows then Loaded(k, s.rows[k]) else Finished(k))
    case Loaded(k, row) => InitTo(s.(hashes := s.hashes[k := LoadedEntry(row)]), p, Finished(k))
    case Finished(k) => s.(initLock := s.initLock - {k}, initers := s.initers - {p})
  }

  ghost predicate Enabled(s: State, e: Event) {
    match e
    case Charge(keys, cost, tokens) =>
      && WellKeyed(keys, keys != [] && keys[0].Quota?)
      && (forall k :: k in keys && k.Quota? ==> tokens > 0)
      && (forall k :: k in keys && Due(k, Spend(cost, tokens)) > 0 ==> k in s.hashes)
    case Reserve(keys, amount) => WellKeyed(keys, false) && amount > 0 && forall k :: k in keys ==> k in s.hashes
    case Commit(i) => i < |s.open| && forall k :: k in s.open[i].keys ==> k in s.hashes
    case Release(i) => i < |s.open| && forall k :: k in s.open[i].keys ==> k in s.hashes
    case StartFlush(p, k) => p !in s.flushers
    case StartInit(p, k) => p !in s.initers
    case StepFlush(p) => p in s.flushers
    case StepInit(p) => p in s.initers
    case Invalidate(k) => k !in s.flushLock
  }

  /** The script call an event makes, if any. */
  function CallOf(s: State, e: Event): (seq<Key>, Op)
    requires e.Commit? || e.Release? ==> e.ticket < |s.open|
  {
    match e
    case Charge(keys, cost, tokens) => (keys, Spend(cost, tokens))
    case Reserve(keys, amount) => (keys, Hold(amount))
    case Commit(i) => (s.open[i].keys, Settle(s.open[i].amount))
    case Release(i) => (s.open[i].keys, Free(s.open[i].amount))
    case _ => ([], Spend(0, 0))
  }

  predicate IsCall(e: Event) {
    e.Charge? || e.Reserve? || e.Commit? || e.Release?
  }

  function Apply(s: State, e: Event): State
    requires Enabled(s, e)
  {
    match e
    case Charge(keys, cost, tokens) => s.(hashes := Script(s.hashes, keys, Spend(cost, tokens)).1)
    case Reserve(keys, amount) =>
      var (v, h) := Script(s.hashes, keys, Hold(amount));
      s.(hashes := h, open := if v == Allowed then s.open + [Ticket(keys, amount)] else s.open)
    case Commit(i) =>
      s.(hashes := Script(s.hashes, s.open[i].keys, Settle(s.open[i].amount)).1, open := WithoutTicket(s.open, i))
    case Release(i) =>
      s.(hashes := Script(s.hashes, s.open[i].keys, Free(s.open[i].amount)).1, open := WithoutTicket(s.open, i))
    case StartFlush(p, k) => BeginFlush(s, p, k)
    case StartInit(p, k) => BeginInit(s, p, k)
    case StepFlush(p) => FlushStep(s, p)
    case StepInit(p) => InitStep(s, p)
    case Invalidate(k) => Drop(s, k)
  }

  ghost predicate ValidRun(s: State, es: seq<Event>)
    decreases |es|
  {
    es == [] || (Enabled(s, es[0]) && ValidRun(Apply(s, es[0]), es[1..]))
  }

  function Exec(s: State, es: seq<Event>): State
    requires ValidRun(s, es)
    decreases |es|
  {
    if es == [] then s else Exec(Apply(s, es[0]), es[1..])
  }

  // ---- Invariant ----

  /** What a flush has written to SQL but Redis still counts as unflushed. */
  function InFlight(s: State, k: Key): (int, int) {
    if k in s.flushLock && s.flushLock[k] in s.flushers then
      match s.flushers[s.flushLock[k]]
      case Applied(k', ds, dr) => if k' == k then (ds, dr) else (0, 0)
      case SpentDone(k', dr) => if k' == k then (0, dr) else (0, 0)
      case _ => (0, 0)
    else (0, 0)
  }

  function Owed(open: seq<Ticket>, k: Key): int {
    if open == [] then 0
    else Owed(open[..|open| - 1], k) + (var t := open[|open| - 1]; if k in t.keys then t.amount else 0)
  }

  ghost predicate FlusherInv(s: State, p: Pid)
    requires p in s.flushers
  {
    var k := s.flushers[p].k;
    && k in s.flushLock && s.flushLock[k] == p
    && match s.flushers[p]
       case Locked(_) => true
       case SpentRead(_, ds) => ds != 0 ==> k in s.hashes
       case BothRead(_, ds, dr) =>
         && (ds != 0 || dr != 0 ==> k in s.hashes)
         && (k in s.rows ==> s.rows[k].reserved + dr >= 0) && (k.Quota? ==> dr == 0)
       case Applied(_, ds, dr) => k in s.hashes && (k.Quota? ==> dr == 0)
       case SpentDone(_, dr) => k in s.hashes && (k.Quota? ==> dr == 0)
       case Drained(_) => true
  }

  ghost predicate IniterInv(s: State, p: Pid)
    requires p in s.initers
  {
    var k := s.initers[p].k;
    && (!s.initers[p].Wants? ==> k in s.initLock && s.initLock[k] == p)
    && (s.initers[p].Checked? || s.initers[p].Loaded? ==> k !in s.hashes)
    && (s.initers[p].Loaded? ==> k in s.rows && s.rows[k] == s.initers[p].row)
  }

  /** The row a reader should see: the Redis figures when there is a hash, the SQL figures otherwise. */
  function AbsRow(s: State, k: Key): Row
    requires k in s.rows
  {
    if k in s.hashes then s.rows[k].(spent := s.hashes[k].spent, reserved := s.hashes[k].reserved) else s.rows[k]
  }

  function Abs(s: State): Rows {
    map k | k in s.rows :: AbsRow(s, k)
  }

  /** Redis = SQL + unflushed delta, less what a flush has applied and not yet subtracted. */
  ghost predicate Balanced(s: State, k: Key)
    requires k in s.rows && k in s.hashes
  {
    var (r, h, fl) := (s.rows[k], s.hashes[k], InFlight(s, k));
    && h.spent == r.spent + h.dSpent - fl.0
    && h.reserved == r.reserved + h.dReserved - fl.1
    && h.limit == r.limit && h.policy == LoadedPolicy(r.policy)
  }

  ghost predicate KeyInv(s: State, base: Rows, k: Key)
    requires k in s.rows
  {
    && (if k in s.hashes then Balanced(s, k) && (k.Quota? ==> s.hashes[k].dReserved == 0) else InFlight(s, k) == (0, 0))
    && s.rows[k].reserved >= 0
    && k in base && base[k].reserved >= 0
    && AbsRow(s, k).reserved == base[k].reserved + Owed(s.open, k)
  }

  ghost predicate TicketOk(t: Ticket) {
    t.amount > 0 && WellKeyed(t.keys, false)
  }

  ghost predicate FlushersInv(s: State) { forall p :: p in s.flushers ==> FlusherInv(s, p) }
  ghost predicate InitersInv(s: State) { forall p :: p in s.initers ==> IniterInv(s, p) }
  ghost predicate KeysInv(s: State, base: Rows) { forall k :: k in s.rows ==> KeyInv(s, base, k) }
  ghost predicate TicketsInv(s: State) { forall t :: t in s.open ==> TicketOk(t) }

  ghost predicate Inv(s: State, base: Rows) {
    && s.hashes.Keys <= s.rows.Keys
    && FlushersInv(s) && InitersInv(s) && KeysInv(s, base) && TicketsInv(s)
  }

  lemma {:induction false} OwedWithout(open: seq<Ticket>, i: nat, k: Key)
    requires i < |open|
    ensures Owed(WithoutTicket(open, i), k) == Owed(open, k) - (if k in open[i].keys then open[i].amount else 0)
  {
    var last, rest := |open| - 1, WithoutTicket(open, i);
    if i == last {
      assert rest == open[..last];
    } else {
      OwedWithout(open[..last], i, k);
      assert rest[..|rest| - 1] == WithoutTicket(open[..last], i);
      assert rest[|rest| - 1] == open[last];
    }
  }

  lemma {:induction false} OwedNonNegative(open: seq<Ticket>, k: Key)
    requires forall t :: t in open ==> TicketOk(t)
    ensures Owed(open, k) >= 0
  {
    if open != [] {
      assert open[|open| - 1] in open;
      OwedNonNegative(open[..|open| - 1], k);
    }
  }

  // ---- Per-key frames ----

  /** Nothing the invariant says about k has changed. */
  ghost predicate SameKey(s: State, s': State, k: Key) {
    && (k in s.rows <==> k in s'.rows) && (k in s.rows ==> s.rows[k] == s'.rows[k])
    && (k in s.hashes <==> k in s'.hashes) && (k in s.hashes ==> s.hashes[k] == s'.hashes[k])
    && InFlight(s, k) == InFlight(s', k) && s.open == s'.open
  }

  lemma {:induction false} SameKeyKeeps(s: State, s': State, base: Rows, k: Key)
    requires SameKey(s, s', k) && k in s.rows && KeyInv(s, base, k)
    ensures KeyInv(s', base, k) && AbsRow(s', k) == AbsRow(s, k)
  {}

  lemma {:induction false} InitersFrame(s: State, s': State)
    requires InitersInv(s) && s'.initers == s.initers && s'.initLock == s.initLock && s'.rows == s.rows
    requires s'.hashes.Keys <= s.hashes.Keys
    ensures InitersInv(s')
  {
    forall q | q in s'.initers ensures IniterInv(s', q) { assert IniterInv(s, q); }
  }

  lemma {:induction false} FlushersFrame(s: State, s': State)
    requires FlushersInv(s) && s'.flushers == s.flushers && s'.flushLock == s.flushLock && s'.rows == s.rows
    requires s.hashes.Keys <= s'.hashes.Keys
    ensures FlushersInv(s')
  {
    forall q | q in s'.flushers ensures FlusherInv(s', q) { assert FlusherInv(s, q); }
  }

  function HeldBy(op: Op, d: int): int {
    match op
    case Spend(_, _) => 0
    case Hold(_) => d
    case Settle(_) => -d
    case Free(_) => -d
  }

  /** A script's increments keep one key balanced. */
  lemma {:induction false} AdjustKeepsKey(s: State, s': State, base: Rows, k: Key, op: Op, d: int)
    requires k in s.rows && k in s.hashes && k in s'.hashes && KeyInv(s, base, k)
    requires s'.rows == s.rows && InFlight(s', k) == InFlight(s, k)
    requires s'.hashes[k] == Adjust(s.hashes[k], op, d) && (k.Quota? ==> op.Spend?)
    requires Owed(s'.open, k) == Owed(s.open, k) + HeldBy(op, d)
    ensures KeyInv(s', base, k)
  {}

  lemma {:induction false} InFlightFrame(s: State, s': State, k: Key)
    requires s'.flushLock == s.flushLock && s'.flushers == s.flushers
    ensures InFlight(s', k) == InFlight(s, k)
  {}

  // ---- Calls ----

  /** The amount a call moves on k: nothing when k is not a key of it or the call is refused. */
  function Moved(s: State, keys: seq<Key>, op: Op, k: Key): int {
    if k in keys && Due(k, op) > 0 && Script(s.hashes, keys, op).0 == Allowed then Due(k, op) else 0
  }

  /** A call under its precondition touches only existing hashes, each exactly once. */
  lemma {:induction false} CallEffect(s: State, e: Event)
    requires Enabled(s, e) && IsCall(e)
    ensures Apply(s, e).hashes.Keys == s.hashes.Keys
    ensures forall k :: k in s.hashes ==>
      var (keys, op) := CallOf(s, e);
      Apply(s, e).hashes[k] == Adjust(s.hashes[k], op, Moved(s, keys, op, k))
  {
    var (keys, op) := CallOf(s, e);
    assert HitKeys(keys, op) <= s.hashes.Keys;
  }

  lemma {:induction false} ReserveTickets(s: State, keys: seq<Key>, amount: int, k: Key)
    requires Enabled(s, Reserve(keys, amount)) && TicketsInv(s)
    ensures var s' := Apply(s, Reserve(keys, amount));
      TicketsInv(s') && Owed(s'.open, k) == Owed(s.open, k) + Moved(s, keys, Hold(amount), k)
    ensures k in keys ==> k.Budget? && k in s.hashes
  {
    var s' := Apply(s, Reserve(keys, amount));
    if s'.open != s.open {
      assert TicketOk(Ticket(keys, amount));
      assert s'.open[..|s.open|] == s.open;
    }
  }

  lemma {:induction false} CloseTickets(s: State, e: Event, k: Key)
    requires Enabled(s, e) && (e.Commit? || e.Release?) && TicketsInv(s)
    ensures var t := s.open[e.ticket];
      && TicketsInv(Apply(s, e))
      && Owed(Apply(s, e).open, k) == Owed(s.open, k) - (if k in t.keys then t.amount else 0)
      && t.amount > 0 && (k in t.keys ==> k.Budget? && k in s.hashes)
  {
    assert TicketOk(s.open[e.ticket]);
    OwedWithout(s.open, e.ticket, k);
  }

  /** How a call changes what is owed on open tickets. */
  lemma {:induction false} CallTickets(s: State, e: Event, k: Key)
    requires Enabled(s, e) && IsCall(e) && TicketsInv(s)
    ensures TicketsInv(Apply(s, e))
    ensures var (keys, op) := CallOf(s, e);
      && (k in keys && k.Quota? ==> op.Spend?)
      && (k in keys && Due(k, op) > 0 ==> k in s.hashes)
      && Owed(Apply(s, e).open, k) == Owed(s.open, k) + HeldBy(op, Moved(s, keys, op, k))
  {
    match e
    case Charge(_, _, _) =>
    case Reserve(keys, amount) => ReserveTickets(s, keys, amount, k);
    case Commit(_) => CloseTickets(s, e, k);
    case Release(_) => CloseTickets(s, e, k);
  }

  lemma {:induction false} CallKeepsKey(s: State, base: Rows, e: Event, k: Key)
    requires Enabled(s, e) && IsCall(e) && TicketsInv(s) && k in s.rows && KeyInv(s, base, k)
    ensures KeyInv(Apply(s, e), base, k)
  {
    CallEffect(s, e);
    CallTickets(s, e, k);
    InFlightFrame(s, Apply(s, e), k);
    var (keys, op) := CallOf(s, e);
    if Moved(s, keys, op, k) != 0 {
      AdjustKeepsKey(s, Apply(s, e), base, k, op, Moved(s, keys, op, k));
    }
  }

  lemma {:induction false} CallKeepsInv(s: State, base: Rows, e: Event)
    requires Inv(s, base) && Enabled(s, e) && IsCall(e)
    ensures Inv(Apply(s, e), base)
  {
    var s' := Apply(s, e);
    CallEffect(s, e);
    CallTickets(s, e, Quota(""));
    forall k | k in s'.rows ensures KeyInv(s', base, k) { CallKeepsKey(s, base, e, k); }
    FlushersFrame(s, s');
    InitersFrame(s, s');
  }

  // ---- Flush ----

  lemma {:induction false} StartFlushKeepsInv(s: State, base: Rows, p: Pid, k0: Key)
    requires Inv(s, base) && p !in s.flushers
    ensures var s' := BeginFlush(s, p, k0); Inv(s', base) && Abs(s') == Abs(s)
  {
    var s' := BeginFlush(s, p, k0);
    StartFlushKeepsFlushers(s, p, k0);
    InitersFrame(s, s');
    forall k | k in s'.rows ensures KeyInv(s', base, k) { StartFlushKeepsKey(s, base, p, k0, k); }
  }

  lemma {:induction false} StartFlushKeepsFlushers(s: State, p: Pid, k0: Key)
    requires FlushersInv(s) && p !in s.flushers
    ensures FlushersInv(BeginFlush(s, p, k0))
  {
    var s' := BeginFlush(s, p, k0);
    forall q | q in s'.flushers ensures FlusherInv(s', q) { assert q in s.flushers ==> FlusherInv(s, q); }
  }

  lemma {:induction false} StartFlushKeepsKey(s: State, base: Rows, p: Pid, k0: Key, k: Key)
    requires p !in s.flushers && k in s.rows && KeyInv(s, base, k)
    ensures KeyInv(BeginFlush(s, p, k0), base, k)
  {
    assert SameKey(s, BeginFlush(s, p, k0), k);
    SameKeyKeeps(s, BeginFlush(s, p, k0), base, k);
  }

  /** A flush step seen from the key it works on: the balance and the abstract row survive. */
  lemma {:induction false} FlushStepKeepsKey(s: State, base: Rows, p: Pid, k: Key)
    requires p in s.flushers && FlusherInv(s, p) && s.flushers[p].k == k && k in s.rows && KeyInv(s, base, k)
    ensures var s' := FlushStep(s, p); k in s'.rows && KeyInv(s', base, k) && AbsRow(s', k) == AbsRow(s, k)
  {
    var s' := FlushStep(s, p);
    match s.flushers[p]
    case BothRead(_, ds, dr) => FlushWriteKeepsKey(s, base, p, k);
    case Applied(_, ds, dr) => FlushWriteKeepsKey(s, base, p, k);
    case SpentDone(_, dr) => FlushWriteKeepsKey(s, base, p, k);
    case _ =>
      assert SameKey(s, s', k);
      SameKeyKeeps(s, s', base, k);
  }

  /** The three writing steps: SQL update, delta_spent and delta_reserved subtracted. */
  lemma {:induction false} FlushWriteKeepsKey(s: State, base: Rows, p: Pid, k: Key)
    requires p in s.flushers && FlusherInv(s, p) && s.flushers[p].k == k && k in s.rows && KeyInv(s, base, k)
    requires var pc := s.flushers[p]; pc.BothRead? || pc.Applied? || pc.SpentDone?
    ensures var s' := FlushStep(s, p); k in s'.rows && KeyInv(s', base, k) && AbsRow(s', k) == AbsRow(s, k)
  {
    var s', pc := FlushStep(s, p), s.flushers[p];
    assert InFlight(s, k) == if pc.BothRead? then (0, 0) else if pc.Applied? then (pc.ds, pc.dr) else (0, pc.dr);
    assert InFlight(s', k) == if pc.BothRead? then (pc.ds, pc.dr) else if pc.Applied? then (0, pc.dr) else (0, 0);
  }

  lemma {:induction false} FlushStepKeepsOtherKey(s: State, base: Rows, p: Pid, k: Key)
    requires p in s.flushers && FlusherInv(s, p) && s.flushers[p].k != k && k in s.rows && KeyInv(s, base, k)
    ensures var s' := FlushStep(s, p); k in s'.rows && KeyInv(s', base, k) && AbsRow(s', k) == AbsRow(s, k)
  {
    var s' := FlushStep(s, p);
    match s.flushers[p] {
      case Applied(_, _, _) => assert SameKey(s, s', k);
      case SpentDone(_, _) => assert SameKey(s, s', k);
      case BothRead(_, _, _) => assert SameKey(s, s', k);
      case _ => assert SameKey(s, s', k);
    }
    SameKeyKeeps(s, s', base, k);
  }

  /** A flush step seen from the process itself: the next program point's assertion holds. */
  lemma {:induction false} FlushStepKeepsSelf(s: State, base: Rows, p: Pid)
    requires p in s.flushers && FlusherInv(s, p) && p in FlushStep(s, p).flushers
    requires var k := s.flushers[p].k; k in s.rows ==> KeyInv(s, base, k) && AbsRow(s, k).reserved >= 0
    requires s.hashes.Keys <= s.rows.Keys
    ensures FlusherInv(FlushStep(s, p), p)
  {}

  /** A flush step writes only the locked key, and its row only when it has a hash. */
  lemma {:induction false} FlushStepFrame(s: State, p: Pid)
    requires p in s.flushers && FlusherInv(s, p)
    ensures var s', k0 := FlushStep(s, p), s.flushers[p].k;
      && s'.hashes.Keys == s.hashes.Keys && s'.rows.Keys == s.rows.Keys
      && s'.initLock == s.initLock && s'.initers == s.initers && s'.open == s.open
      && (k0 !in s.hashes ==> s'.rows == s.rows)
      && (forall k :: k in s.rows && k != k0 ==> s'.rows[k] == s.rows[k])
      && (forall k :: k in s.flushLock && k != k0 ==> k in s'.flushLock && s'.flushLock[k] == s.flushLock[k])
      && (forall q :: q in s'.flushers && q != p ==> q in s.flushers && s'.flushers[q] == s.flushers[q])
  {}

  lemma {:induction false} FlushStepKeepsOther(s: State, s': State, p: Pid, q: Pid)
    requires p in s.flushers && FlusherInv(s, p) && q in s'.flushers && q != p && s' == FlushStep(s, p)
    requires q in s.flushers ==> FlusherInv(s, q)
    ensures FlusherInv(s', q)
  {
    FlushStepFrame(s, p);
  }

  lemma {:induction false} FlushStepKeepsInv(s: State, base: Rows, p: Pid)
    requires Inv(s, base) && p in s.flushers
    ensures Inv(FlushStep(s, p), base) && Abs(FlushStep(s, p)) == Abs(s)
  {
    var s', k0 := FlushStep(s, p), s.flushers[p].k;
    FlushStepFrame(s, p);
    OwedNonNegative(s.open, k0);
    forall k | k in s'.rows ensures KeyInv(s', base, k) && AbsRow(s', k) == AbsRow(s, k) {
      if k == k0 { FlushStepKeepsKey(s, base, p, k); } else { FlushStepKeepsOtherKey(s, base, p, k); }
    }
    forall q | q in s'.flushers ensures FlusherInv(s', q) {
      if q == p { FlushStepKeepsSelf(s, base, p); } else { FlushStepKeepsOther(s, s', p, q); }
    }
    forall q | q in s'.initers ensures IniterInv(s', q) { assert IniterInv(s, q); }
  }

  // ---- Creation ----

  lemma {:induction false} StartInitKeepsInv(s: State, base: Rows, p: Pid, k0: Key)
    requires Inv(s, base) && p !in s.initers
    ensures var s' := BeginInit(s, p, k0); Inv(s', base) && Abs(s') == Abs(s)
  {
    var s' := BeginInit(s, p, k0);
    StartInitKeepsIniters(s, p, k0);
    FlushersFrame(s, s');
    forall k | k in s'.rows ensures KeyInv(s', base, k) {
      InFlightFrame(s, s', k);
      SameKeyKeeps(s, s', base, k);
    }
  }

  lemma {:induction false} StartInitKeepsIniters(s: State, p: Pid, k0: Key)
    requires InitersInv(s) && p !in s.initers
    ensures InitersInv(BeginInit(s, p, k0))
  {
    var s' := BeginInit(s, p, k0);
    forall q | q in s'.initers ensures IniterInv(s', q) { assert q in s.initers ==> IniterInv(s, q); }
  }

  lemma {:induction false} InitStepKeepsKey(s: State, base: Rows, p: Pid, k: Key)
    requires p in s.initers && IniterInv(s, p) && k in s.rows && KeyInv(s, base, k)
    ensures var s' := InitStep(s, p); k in s'.rows && KeyInv(s', base, k) && AbsRow(s', k) == AbsRow(s, k)
  {
    var s' := InitStep(s, p);
    InFlightFrame(s, s', k);
    if !(s.initers[p].Loaded? && s.initers[p].k == k) {
      SameKeyKeeps(s, s', base, k);
    }
  }

  /** A creation step writes at most the hash it owns the lock for, and only where none is. */
  lemma {:induction false} InitStepFrame(s: State, p: Pid)
    requires p in s.initers && IniterInv(s, p)
    ensures var s', k0 := InitStep(s, p), s.initers[p].k;
      && s'.rows == s.rows && s'.flushLock == s.flushLock && s'.flushers == s.flushers && s'.open == s.open
      && (forall k :: k in s'.hashes && k !in s.hashes ==>
            k == k0 && k0 in s.initLock && s.initLock[k0] == p && k in s.rows)
      && (forall k :: k in s.hashes ==> k in s'.hashes && s'.hashes[k] == s.hashes[k])
      && (forall k :: k in s.initLock && s.initLock[k] != p ==> k in s'.initLock && s'.initLock[k] == s.initLock[k])
      && (forall q :: q in s'.initers && q != p ==> q in s.initers && s'.initers[q] == s.initers[q])
  {
    match s.initers[p]
    case Wants(_) =>
    case Loaded(_, _) =>
    case Finished(_) =>
    case _ =>
  }

  lemma {:induction false} InitStepKeepsSelf(s: State, p: Pid)
    requires p in s.initers && IniterInv(s, p) && p in InitStep(s, p).initers
    ensures IniterInv(InitStep(s, p), p)
  {
    var s', pc := InitStep(s, p), InitStep(s, p).initers[p];
    InitStepFrame(s, p);
    assert pc.k == s.initers[p].k && pc.k in s'.initLock && s'.initLock[pc.k] == p && !pc.Wants?;
    assert pc.Checked? || pc.Loaded? ==> s'.hashes == s.hashes;
  }

  lemma {:induction false} InitStepKeepsInv(s: State, base: Rows, p: Pid)
    requires Inv(s, base) && p in s.initers
    ensures Inv(InitStep(s, p), base) && Abs(InitStep(s, p)) == Abs(s)
  {
    var s' := InitStep(s, p);
    InitStepFrame(s, p);
    forall k | k in s'.rows ensures KeyInv(s', base, k) && AbsRow(s', k) == AbsRow(s, k) {
      InitStepKeepsKey(s, base, p, k);
    }
    InitStepKeepsIniters(s, p);
    FlushersFrame(s, s');
    SameAbs(s, s');
  }

  lemma {:induction false} InitStepKeepsIniters(s: State, p: Pid)
    requires InitersInv(s) && p in s.initers
    ensures InitersInv(InitStep(s, p))
  {
    var s' := InitStep(s, p);
    assert IniterInv(s, p);
    InitStepFrame(s, p);
    forall q | q in s'.initers ensures IniterInv(s', q) {
      if q == p { InitStepKeepsSelf(s, p); } else { assert IniterInv(s, q); }
    }
  }

  lemma {:induction false} SameAbs(s: State, s': State)
    requires s'.rows.Keys == s.rows.Keys && forall k :: k in s.rows ==> AbsRow(s', k) == AbsRow(s, k)
    ensures Abs(s') == Abs(s)
  {
  }

  // ---- Invalidation ----

  lemma {:induction false} InvalidateKeepsKey(s: State, base: Rows, k0: Key, k: Key)
    requires k0 !in s.flushLock && k in s.rows && KeyInv(s, base, k) && AbsRow(s, k).reserved >= 0
    ensures var s' := Drop(s, k0); KeyInv(s', base, k) && AbsRow(s', k) == AbsRow(s, k)
    ensures k0 !in s.hashes ==> Drop(s, k0).rows[k] == s.rows[k]
  {
    InFlightFrame(s, Drop(s, k0), k);
  }

  lemma {:induction false} InvalidateKeepsProcs(s: State, k0: Key)
    requires FlushersInv(s) && InitersInv(s) && k0 !in s.flushLock
    requires k0 !in s.hashes ==> Drop(s, k0).rows == s.rows
    ensures FlushersInv(Drop(s, k0)) && InitersInv(Drop(s, k0))
  {
    var s' := Drop(s, k0);
    forall p | p in s'.flushers ensures FlusherInv(s', p) { assert FlusherInv(s, p); }
    forall p | p in s'.initers ensures IniterInv(s', p) { assert IniterInv(s, p); }
  }

  lemma {:induction false} InvalidateKeepsInv(s: State, base: Rows, k0: Key)
    requires Inv(s, base) && k0 !in s.flushLock
    ensures var s' := Drop(s, k0); Inv(s', base) && Abs(s') == Abs(s)
  {
    var s' := Drop(s, k0);
    InvalidateKeepsKeys(s, base, k0);
    InvalidateKeepsProcs(s, k0);
    SameAbs(s, s');
  }

  lemma {:induction false} InvalidateKeepsKeys(s: State, base: Rows, k0: Key)
    requires k0 !in s.flushLock && TicketsInv(s) && forall k :: k in s.rows ==> KeyInv(s, base, k)
    ensures var s' := Drop(s, k0);
      && s'.rows.Keys == s.rows.Keys && (k0 !in s.hashes ==> s'.rows == s.rows)
      && forall k :: k in s.rows ==> KeyInv(s', base, k) && AbsRow(s', k) == AbsRow(s, k)
  {
    var s' := Drop(s, k0);
    forall k | k in s.rows
      ensures KeyInv(s', base, k) && AbsRow(s', k) == AbsRow(s, k) && (k0 !in s.hashes ==> s'.rows[k] == s.rows[k])
    {
      OwedNonNegative(s.open, k);
      InvalidateKeepsKey(s, base, k0, k);
    }
  }

  /** Every event keeps the invariant; only calls show on the abstract rows. */
  lemma {:induction false} EventKeepsInv(s: State, base: Rows, e: Event)
    requires Inv(s, base) && Enabled(s, e)
    ensures Inv(Apply(s, e), base)
    ensures !IsCall(e) ==> Abs(Apply(s, e)) == Abs(s)
  {
    match e
    case Charge(_, _, _) => CallKeepsInv(s, base, e);
    case Reserve(_, _) => CallKeepsInv(s, base, e);
    case Commit(_) => CallKeepsInv(s, base, e);
    case Release(_) => CallKeepsInv(s, base, e);
    case StartFlush(p, k) => StartFlushKeepsInv(s, base, p, k);
    case StartInit(p, k) => StartInitKeepsInv(s, base, p, k);
    case StepFlush(p) => FlushStepKeepsInv(s, base, p);
    case StepInit(p) => InitStepKeepsInv(s, base, p);
    case Invalidate(k) => InvalidateKeepsInv(s, base, k);
  }
}
