/**
 What the processes of the ledger protocol get done: a flush carries every charge it could see into SQL, a creation
 leaves a hash that mirrors its row, an invalidation settles and removes one.
 */
module LedgerEffects {
  import opened LedgerScripts
  import opened LedgerProtocol
  import opened LedgerTheorems

  // ---- Runs one event at a time ----

  ghost predicate Leads(s: State, es: seq<Event>, t: State) { ValidRun(s, es) && Exec(s, es) == t }

  lemma {:induction false} LeadsOn(s: State, es: seq<Event>, t: State, e: Event)
    requires Leads(s, es, t) && Enabled(t, e)
    ensures Leads(s, es + [e], Apply(t, e))
    decreases |es|
  {
    if es == [] {
      assert es + [e] == [e] && [e][1..] == [];
    } else {
      assert (es + [e])[1..] == es[1..] + [e];
      LeadsOn(Apply(s, es[0]), es[1..], t, e);
    }
  }

  /** The first event, then only steps of the process it started. */
  ghost predicate Alone(es: seq<Event>, first: Event, step: Event) {
    es != [] && es[0] == first && forall i :: 1 <= i < |es| ==> es[i] == step
  }

  /** One more step of a process that runs alone. */
  lemma {:induction false} StepsOn(s: State, es: seq<Event>, t: State, first: Event, step: Event)
    returns (more: seq<Event>)
    requires Leads(s, es, t) && Alone(es, first, step) && Enabled(t, step)
    ensures Leads(s, more, Apply(t, step)) && Alone(more, first, step)
  {
    more := es + [step];
    LeadsOn(s, es, t, step);
  }

  // ---- An undisturbed flush ----

  /** The row takes the hash's figures, the hash keeps them with nothing left to flush, nothing else changes. */
  ghost predicate Settled(s: State, t: State, k: Key)
    requires k in s.rows && k in s.hashes
  {
    && t.rows == s.rows[k := s.rows[k].(spent := s.hashes[k].spent, reserved := s.hashes[k].reserved)]
    && t.hashes == s.hashes[k := s.hashes[k].(dSpent := 0, dReserved := 0)]
  }

  lemma {:induction false} LockFreeInFlight(s: State, base: Rows, k: Key)
    requires Inv(s, base) && k in s.rows && k in s.hashes && InFlight(s, k) == (0, 0)
    ensures var h := s.hashes[k];
      && h.spent == s.rows[k].spent + h.dSpent && h.reserved == s.rows[k].reserved + h.dReserved
      && h.reserved >= 0 && (k.Quota? ==> h.dReserved == 0)
  {
    assert KeyInv(s, base, k);
    OwedNonNegative(s.open, k);
  }

  /** s with its lock on k taken by a flush of p at this point. */
  function Midway(s: State, p: Pid, k: Key, pc: FlushPc): State {
    s.(flushLock := s.flushLock[k := p], flushers := s.flushers[p := pc])
  }

  lemma {:induction false} FlushReads(s: State, p: Pid, k: Key) returns (es: seq<Event>)
    requires k in s.hashes && k !in s.flushLock && p !in s.flushers
    ensures var h := s.hashes[k];
      Leads(s, es, Midway(s, p, k, BothRead(k, h.dSpent, if k.Quota? then 0 else h.dReserved)))
    ensures Alone(es, StartFlush(p, k), StepFlush(p))
  {
    var first, h := StartFlush(p, k), s.hashes[k];
    assert Leads(s, [], s);
    LeadsOn(s, [], s, first);
    es := [] + [first];
    es := FlushStepsTo(s, es, Midway(s, p, k, Locked(k)), Midway(s, p, k, SpentRead(k, h.dSpent)), p, first);
    var pc := BothRead(k, h.dSpent, if k.Quota? then 0 else h.dReserved);
    es := FlushStepsTo(s, es, Midway(s, p, k, SpentRead(k, h.dSpent)), Midway(s, p, k, pc), p, first);
  }

  lemma {:induction false} FlushStepsTo(s: State, es: seq<Event>, t: State, u: State, p: Pid, first: Event)
    returns (more: seq<Event>)
    requires Leads(s, es, t) && Alone(es, first, StepFlush(p)) && p in t.flushers && FlushStep(t, p) == u
    ensures Leads(s, more, u) && Alone(more, first, StepFlush(p))
  {
    more := StepsOn(s, es, t, first, StepFlush(p));
  }

  /** A flush that nothing disturbs ends by itself and settles its key. */
  lemma {:induction false} FlushSettles(s: State, base: Rows, p: Pid, k: Key) returns (es: seq<Event>)
    requires Inv(s, base) && k in s.rows && k in s.hashes && k !in s.flushLock && p !in s.flushers
    ensures Alone(es, StartFlush(p, k), StepFlush(p)) && ValidRun(s, es)
    ensures Settled(s, Exec(s, es), k)
    ensures p !in Exec(s, es).flushers && k !in Exec(s, es).flushLock
  {
    var h := s.hashes[k];
    LockFreeInFlight(s, base, k);
    es := FlushReads(s, p, k);
    if h.dSpent == 0 && h.dReserved == 0 {
      es := NothingToFlush(s, es, p, k);
    } else {
      es := FlushWrites(s, es, p, k);
    }
  }

  lemma {:induction false} NothingToFlush(s: State, before: seq<Event>, p: Pid, k: Key) returns (es: seq<Event>)
    requires k in s.rows && k in s.hashes && Alone(before, StartFlush(p, k), StepFlush(p))
    requires var h := s.hashes[k];
      && h.spent == s.rows[k].spent && h.reserved == s.rows[k].reserved && h.dSpent == 0 && h.dReserved == 0
      && Leads(s, before, Midway(s, p, k, BothRead(k, 0, 0)))
    ensures Alone(es, StartFlush(p, k), StepFlush(p)) && ValidRun(s, es)
    ensures Settled(s, Exec(s, es), k)
    ensures p !in Exec(s, es).flushers && k !in Exec(s, es).flushLock
  {
    es := FlushStepsTo(s, before, Midway(s, p, k, BothRead(k, 0, 0)), Midway(s, p, k, Drained(k)), p, StartFlush(p, k));
    es := FlushLeaves(s, es, s, p, k);
  }

  lemma {:induction false} FlushLeaves(s: State, es: seq<Event>, t: State, p: Pid, k: Key) returns (more: seq<Event>)
    requires Leads(s, es, Midway(t, p, k, Drained(k))) && Alone(es, StartFlush(p, k), StepFlush(p))
    ensures Leads(s, more, t.(flushLock := t.flushLock - {k}, flushers := t.flushers - {p}))
    ensures Alone(more, StartFlush(p, k), StepFlush(p))
  {
    var u := t.(flushLock := t.flushLock - {k}, flushers := t.flushers - {p});
    assert t.flushLock[k := p] - {k} == t.flushLock - {k} && t.flushers[p := Drained(k)] - {p} == t.flushers - {p};
    more := FlushStepsTo(s, es, Midway(t, p, k, Drained(k)), u, p, StartFlush(p, k));
  }

  lemma {:induction false} FlushWrites(s: State, before: seq<Event>, p: Pid, k: Key) returns (es: seq<Event>)
    requires k in s.rows && k in s.hashes && Alone(before, StartFlush(p, k), StepFlush(p))
    requires var h := s.hashes[k];
      && h.spent == s.rows[k].spent + h.dSpent && h.reserved == s.rows[k].reserved + h.dReserved && h.reserved >= 0
      && (h.dSpent != 0 || h.dReserved != 0)
      && Leads(s, before, Midway(s, p, k, BothRead(k, h.dSpent, h.dReserved)))
    ensures Alone(es, StartFlush(p, k), StepFlush(p)) && ValidRun(s, es)
    ensures Settled(s, Exec(s, es), k)
    ensures p !in Exec(s, es).flushers && k !in Exec(s, es).flushLock
  {
    var first, h := StartFlush(p, k), s.hashes[k];
    var u := s.(rows := s.rows[k := s.rows[k].(spent := h.spent, reserved := h.reserved)]);
    var v := u.(hashes := s.hashes[k := h.(dSpent := 0)]);
    var w := u.(hashes := s.hashes[k := h.(dSpent := 0, dReserved := 0)]);
    es := FlushStepsTo(s, before, Midway(s, p, k, BothRead(k, h.dSpent, h.dReserved)),
                       Midway(u, p, k, Applied(k, h.dSpent, h.dReserved)), p, first);
    SpentSubtracted(u, p, k);
    es := FlushStepsTo(s, es, Midway(u, p, k, Applied(k, h.dSpent, h.dReserved)),
                       Midway(v, p, k, SpentDone(k, h.dReserved)), p, first);
    ReservedSubtracted(v, p, k);
    es := FlushStepsTo(s, es, Midway(v, p, k, SpentDone(k, h.dReserved)), Midway(w, p, k, Drained(k)), p, first);
    es := FlushLeaves(s, es, w, p, k);
  }

  lemma {:induction false} SpentSubtracted(u: State, p: Pid, k: Key)
    requires k in u.hashes
    ensures var h := u.hashes[k];
      FlushStep(Midway(u, p, k, Applied(k, h.dSpent, h.dReserved)), p)
      == Midway(u.(hashes := u.hashes[k := h.(dSpent := 0)]), p, k, SpentDone(k, h.dReserved))
  {
    var h := u.hashes[k];
    assert h.dSpent == 0 ==> u.hashes[k := h.(dSpent := 0)] == u.hashes;
  }

  lemma {:induction false} ReservedSubtracted(v: State, p: Pid, k: Key)
    requires k in v.hashes
    ensures var h := v.hashes[k];
      FlushStep(Midway(v, p, k, SpentDone(k, h.dReserved)), p)
      == Midway(v.(hashes := v.hashes[k := h.(dReserved := 0)]), p, k, Drained(k))
  {
    var h := v.hashes[k];
    assert h.dReserved == 0 ==> v.hashes[k := h.(dReserved := 0)] == v.hashes;
  }

  // ---- Any flush, in any interleaving ----

  /** Where a flush of p on k stands with respect to x, the amount spent when it read the first delta. */
  ghost predicate Carries(s: State, p: Pid, k: Key, x: int) {
    && p in s.flushers && s.flushers[p].k == k && k in s.rows
    && match s.flushers[p]
       case Locked(_) => false
       case SpentRead(_, ds) => s.rows[k].spent + ds == x
       case BothRead(_, ds, _) => s.rows[k].spent + ds == x
       case _ => s.rows[k].spent == x
  }

  /** The same for y, the amount reserved when it read the second delta. */
  ghost predicate CarriesReserved(s: State, p: Pid, k: Key, y: int) {
    && p in s.flushers && s.flushers[p].k == k && k in s.rows
    && match s.flushers[p]
       case Locked(_) => false
       case SpentRead(_, _) => false
       case BothRead(_, _, dr) => s.rows[k].reserved + dr == y && y >= 0
       case _ => s.rows[k].reserved == y
  }

  /** Only the flush that holds the lock of k writes its row, and nobody else moves that flush. */
  lemma {:induction false} OthersLeaveFlush(s: State, base: Rows, e: Event, p: Pid)
    requires Inv(s, base) && Enabled(s, e) && p in s.flushers && e != StepFlush(p) && s.flushers[p].k in s.rows
    ensures var s', k := Apply(s, e), s.flushers[p].k;
      p in s'.flushers && s'.flushers[p] == s.flushers[p] && k in s'.rows && s'.rows[k] == s.rows[k]
  {
    assert FlusherInv(s, p);
    if e.StepFlush? {
      assert FlusherInv(s, e.p);
      FlushStepFrame(s, e.p);
      OtherFlusherStays(s, e.p, p);
    }
  }

  lemma {:induction false} OtherFlusherStays(s: State, q: Pid, p: Pid)
    requires q in s.flushers && p in s.flushers && p != q
    ensures p in FlushStep(s, q).flushers && FlushStep(s, q).flushers[p] == s.flushers[p]
  {
    match s.flushers[q]
    case Locked(_) =>
    case SpentRead(_, _) =>
    case BothRead(_, _, _) =>
    case _ =>
  }

  /** Only the step after both reads touches a row, and it adds what was read. */
  lemma {:induction false} OwnStepRows(s: State, p: Pid)
    requires p in s.flushers
    ensures !s.flushers[p].BothRead? ==> FlushStep(s, p).rows == s.rows
    ensures s.flushers[p].BothRead? ==>
      FlushStep(s, p).rows == var pc := s.flushers[p];
        if pc.ds == 0 && pc.dr == 0 then s.rows else FlushRows(s.rows, pc.k, pc.ds, pc.dr)
  {
  }

  lemma {:induction false} OwnStepPc(s: State, p: Pid)
    requires p in s.flushers && p in FlushStep(s, p).flushers
    ensures var pc, pc' := s.flushers[p], FlushStep(s, p).flushers[p];
      && pc'.k == pc.k && (pc.SpentRead? ==> pc'.BothRead? && pc'.ds == pc.ds)
      && (pc.BothRead? || pc.Applied? || pc.SpentDone? ==> pc'.Applied? || pc'.SpentDone? || pc'.Drained?)
      && !pc.Drained?
  {
  }

  lemma {:induction false} OwnStepCarries(s: State, p: Pid, k: Key, x: int)
    requires p in s.flushers && p in FlushStep(s, p).flushers && Carries(s, p, k, x)
    ensures Carries(FlushStep(s, p), p, k, x)
  {
    OwnStepRows(s, p);
    OwnStepPc(s, p);
  }

  lemma {:induction false} OwnStepCarriesReserved(s: State, p: Pid, k: Key, y: int)
    requires p in s.flushers && p in FlushStep(s, p).flushers && CarriesReserved(s, p, k, y)
    ensures CarriesReserved(FlushStep(s, p), p, k, y)
  {
    OwnStepRows(s, p);
    OwnStepPc(s, p);
  }

  lemma {:induction false} EventKeepsCarries(s: State, base: Rows, e: Event, p: Pid, k: Key, x: int)
    requires Inv(s, base) && Enabled(s, e) && Carries(s, p, k, x) && p in Apply(s, e).flushers
    ensures Carries(Apply(s, e), p, k, x)
  {
    if e == StepFlush(p) {
      OwnStepCarries(s, p, k, x);
    } else {
      OthersLeaveFlush(s, base, e, p);
    }
  }

  lemma {:induction false} EventKeepsCarriesReserved(s: State, base: Rows, e: Event, p: Pid, k: Key, y: int)
    requires Inv(s, base) && Enabled(s, e) && CarriesReserved(s, p, k, y) && p in Apply(s, e).flushers
    ensures CarriesReserved(Apply(s, e), p, k, y)
  {
    if e == StepFlush(p) {
      OwnStepCarriesReserved(s, p, k, y);
    } else {
      OthersLeaveFlush(s, base, e, p);
    }
  }

  /** The flush of p is never over during the run. */
  ghost predicate Flushing(s: State, es: seq<Event>, p: Pid)
    requires ValidRun(s, es)
    decreases |es|
  {
    p in s.flushers && (es != [] ==> Flushing(Apply(s, es[0]), es[1..], p))
  }

  lemma {:induction false} RunKeepsCarries(s: State, base: Rows, es: seq<Event>, p: Pid, k: Key, x: int)
    requires Inv(s, base) && ValidRun(s, es) && Flushing(s, es, p) && Carries(s, p, k, x)
    ensures Carries(Exec(s, es), p, k, x)
    decreases |es|
  {
    if es != [] {
      EventKeepsCarries(s, base, es[0], p, k, x);
      EventKeepsInv(s, base, es[0]);
      RunKeepsCarries(Apply(s, es[0]), base, es[1..], p, k, x);
    }
  }

  lemma {:induction false} RunKeepsCarriesReserved(s: State, base: Rows, es: seq<Event>, p: Pid, k: Key, y: int)
    requires Inv(s, base) && ValidRun(s, es) && Flushing(s, es, p) && CarriesReserved(s, p, k, y)
    ensures CarriesReserved(Exec(s, es), p, k, y)
    decreases |es|
  {
    if es != [] {
      EventKeepsCarriesReserved(s, base, es[0], p, k, y);
      EventKeepsInv(s, base, es[0]);
      RunKeepsCarriesReserved(Apply(s, es[0]), base, es[1..], p, k, y);
    }
  }

  /** In every interleaving: when a flush is about to give back its lock, the SQL row holds the opening figure and every
      charge accepted before the flush read its first delta. */
  lemma {:induction false} FlushCarriesCharges(rows: Rows, before: seq<Event>, during: seq<Event>, p: Pid)
    requires Opening(rows) && ValidRun(Fresh(rows), before)
    requires var s := Exec(Fresh(rows), before);
      && p in s.flushers && s.flushers[p].Locked? && s.flushers[p].k in rows
      && ValidRun(Apply(s, StepFlush(p)), during) && Flushing(Apply(s, StepFlush(p)), during, p)
      && p in Exec(Apply(s, StepFlush(p)), during).flushers
      && Exec(Apply(s, StepFlush(p)), during).flushers[p].Drained?
    ensures var s := Exec(Fresh(rows), before); var k, t := s.flushers[p].k, Exec(Apply(s, StepFlush(p)), during);
      && k in t.rows && t.rows[k].spent == rows[k].spent + Charged(Fresh(rows), before, k)
      && Apply(t, StepFlush(p)).rows == t.rows && p !in Apply(t, StepFlush(p)).flushers
      && k !in Apply(t, StepFlush(p)).flushLock
  {
    var s := Exec(Fresh(rows), before);
    var k, s1 := s.flushers[p].k, Apply(s, StepFlush(p));
    FreshInv(rows);
    RunKeepsInv(Fresh(rows), rows, before);
    RunCharges(Fresh(rows), rows, before, k);
    assert FlusherInv(s, p) && KeyInv(s, rows, k);
    EventKeepsInv(s, rows, StepFlush(p));
    RunKeepsCarries(s1, rows, during, p, k, AbsRow(s, k).spent);
  }

  /** And what is reserved there is the opening figure and all that was owed when it read the second delta. */
  lemma {:induction false} FlushCarriesReservations(rows: Rows, before: seq<Event>, during: seq<Event>, p: Pid)
    requires Opening(rows) && ValidRun(Fresh(rows), before)
    requires var s := Exec(Fresh(rows), before);
      && p in s.flushers && s.flushers[p].SpentRead? && s.flushers[p].k in rows
      && ValidRun(Apply(s, StepFlush(p)), during) && Flushing(Apply(s, StepFlush(p)), during, p)
      && p in Exec(Apply(s, StepFlush(p)), during).flushers
      && Exec(Apply(s, StepFlush(p)), during).flushers[p].Drained?
    ensures var s := Exec(Fresh(rows), before); var k, t := s.flushers[p].k, Exec(Apply(s, StepFlush(p)), during);
      k in t.rows && t.rows[k].reserved == rows[k].reserved + Owed(s.open, k)
  {
    var s := Exec(Fresh(rows), before);
    var k, s1 := s.flushers[p].k, Apply(s, StepFlush(p));
    FreshInv(rows);
    RunKeepsInv(Fresh(rows), rows, before);
    RunCharges(Fresh(rows), rows, before, k);
    assert FlusherInv(s, p) && KeyInv(s, rows, k);
    OwedNonNegative(s.open, k);
    EventKeepsInv(s, rows, StepFlush(p));
    RunKeepsCarriesReserved(s1, rows, during, p, k, AbsRow(s, k).reserved);
  }

  // ---- Creation and invalidation ----

  lemma {:induction false} InitStepsTo(s: State, es: seq<Event>, t: State, u: State, p: Pid, first: Event)
    returns (more: seq<Event>)
    requires Leads(s, es, t) && Alone(es, first, StepInit(p)) && p in t.initers && InitStep(t, p) == u
    ensures Leads(s, more, u) && Alone(more, first, StepInit(p))
  {
    more := StepsOn(s, es, t, first, StepInit(p));
  }

  function Creating(s: State, p: Pid, k: Key, pc: InitPc): State {
    s.(initLock := s.initLock[k := p], initers := s.initers[p := pc])
  }

  lemma {:induction false} InitReads(s: State, p: Pid, k: Key) returns (es: seq<Event>)
    requires k in s.rows && k !in s.hashes && k !in s.initLock && p !in s.initers
    ensures Leads(s, es, Creating(s, p, k, Loaded(k, s.rows[k]))) && Alone(es, StartInit(p, k), StepInit(p))
  {
    var first := StartInit(p, k);
    assert Leads(s, [], s);
    LeadsOn(s, [], s, first);
    es := [] + [first];
    InitReadSteps(s, p, k);
    es := InitStepsTo(s, es, InitTo(s, p, Wants(k)), Creating(s, p, k, Owns(k)), p, first);
    es := InitStepsTo(s, es, Creating(s, p, k, Owns(k)), Creating(s, p, k, Checked(k)), p, first);
    es := InitStepsTo(s, es, Creating(s, p, k, Checked(k)), Creating(s, p, k, Loaded(k, s.rows[k])), p, first);
  }

  lemma {:induction false} InitReadSteps(s: State, p: Pid, k: Key)
    requires k in s.rows && k !in s.hashes && k !in s.initLock
    ensures InitStep(InitTo(s, p, Wants(k)), p) == Creating(s, p, k, Owns(k))
    ensures InitStep(Creating(s, p, k, Owns(k)), p) == Creating(s, p, k, Checked(k))
    ensures InitStep(Creating(s, p, k, Checked(k)), p) == Creating(s, p, k, Loaded(k, s.rows[k]))
  {
    assert s.initers[p := Wants(k)][p := Owns(k)] == s.initers[p := Owns(k)];
    assert s.initers[p := Owns(k)][p := Checked(k)] == s.initers[p := Checked(k)];
    assert s.initers[p := Checked(k)][p := Loaded(k, s.rows[k])] == s.initers[p := Loaded(k, s.rows[k])];
  }

  /** The hash a creation stores for a row: its figures, hard_reject for an empty policy, and nothing to flush. */
  function Stored(r: Row): Entry {
    Entry(r.limit, r.spent, r.reserved, if r.policy == "" then HARD_REJECT else r.policy, 0, 0)
  }

  lemma {:induction false} InitWriteSteps(s: State, p: Pid, k: Key)
    requires k in s.rows && k !in s.initLock && p !in s.initers
    ensures var t := s.(hashes := s.hashes[k := Stored(s.rows[k])]);
      && InitStep(Creating(s, p, k, Loaded(k, s.rows[k])), p) == Creating(t, p, k, Finished(k))
      && InitStep(Creating(t, p, k, Finished(k)), p) == t
  {
    assert s.initers[p := Finished(k)] - {p} == s.initers && s.initLock[k := p] - {k} == s.initLock;
    assert s.initers[p := Loaded(k, s.rows[k])][p := Finished(k)] == s.initers[p := Finished(k)];
  }

  /** A creation that nothing disturbs leaves that hash, and its lock free. */
  lemma {:induction false} InitCreates(s: State, p: Pid, k: Key) returns (es: seq<Event>)
    requires k in s.rows && k !in s.hashes && k !in s.initLock && p !in s.initers
    ensures Alone(es, StartInit(p, k), StepInit(p)) && ValidRun(s, es)
    ensures Exec(s, es) == s.(hashes := s.hashes[k := Stored(s.rows[k])])
  {
    var first, t := StartInit(p, k), s.(hashes := s.hashes[k := Stored(s.rows[k])]);
    es := InitReads(s, p, k);
    InitWriteSteps(s, p, k);
    es := InitStepsTo(s, es, Creating(s, p, k, Loaded(k, s.rows[k])), Creating(t, p, k, Finished(k)), p, first);
    es := InitStepsTo(s, es, Creating(t, p, k, Finished(k)), t, p, first);
  }

  /** An invalidation moves the hash's figures to the row and removes the hash. */
  lemma {:induction false} InvalidateSettles(s: State, base: Rows, k: Key)
    requires Inv(s, base) && k in s.rows && k in s.hashes && k !in s.flushLock
    ensures var t := Apply(s, Invalidate(k));
      && t.hashes == s.hashes - {k}
      && t.rows == s.rows[k := s.rows[k].(spent := s.hashes[k].spent, reserved := s.hashes[k].reserved)]
  {
    LockFreeInFlight(s, base, k);
  }

  /** A flush writes the sum of row and deltas, but never a negative reservation, whatever the rows hold. */
  lemma {:induction false} FlushClampsReserved(s: State, p: Pid, k: Key)
    requires p in s.flushers && k in s.rows
    ensures var pc, r, w := s.flushers[p], s.rows[k], FlushStep(s, p).rows;
      if pc.BothRead? && pc.k == k && (pc.ds != 0 || pc.dr != 0)
      then w == s.rows[k := Row(r.limit, r.spent +
        pc.ds, (if r.reserved + pc.dr > 0 then r.reserved + pc.dr else 0), r.policy)]
      else k in w && w[k] == r
  {
  }
}
