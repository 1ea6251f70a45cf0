/**
 What holds of every run of the ledger protocol that starts from SQL rows alone:
 conservation, spending caps, safe creation, and refinement of the SQL transactions.
 */
module LedgerTheorems {
  import opened LedgerScripts
  import opened LedgerProtocol

  ghost predicate Opening(rows: Rows) {
    forall k :: k in rows ==> rows[k].reserved >= 0
  }

  lemma {:induction false} FreshInv(rows: Rows)
    requires Opening(rows)
    ensures Inv(Fresh(rows), rows)
  {}

  lemma {:induction false} RunKeepsInv(s: State, base: Rows, es: seq<Event>)
    requires Inv(s, base) && ValidRun(s, es)
    ensures Inv(Exec(s, es), base)
    decreases |es|
  {
    if es != [] {
      EventKeepsInv(s, base, es[0]);
      RunKeepsInv(Apply(s, es[0]), base, es[1..]);
    }
  }

  // ---- Conservation ----

  function SpentBy(op: Op, d: int): int {
    match op
    case Spend(_, _) => d
    case Settle(_) => d
    case _ => 0
  }

  /** What one event charges to k: an accepted consume or a committed reservation. */
  function ChargedBy(s: State, e: Event, k: Key): int
    requires Enabled(s, e)
  {
    if IsCall(e) then var (keys, op) := CallOf(s, e); SpentBy(op, Moved(s, keys, op, k)) else 0
  }

  /** Everything a run charges to k, read off its history of calls. */
  function Charged(s: State, es: seq<Event>, k: Key): int
    requires ValidRun(s, es)
    decreases |es|
  {
    if es == [] then 0 else ChargedBy(s, es[0], k) + Charged(Apply(s, es[0]), es[1..], k)
  }

  /** An event that is no call shows on no row. */
  lemma {:induction false} StutterOnRow(s: State, base: Rows, e: Event, k: Key)
    requires Inv(s, base) && Enabled(s, e) && k in s.rows && !IsCall(e)
    ensures k in Apply(s, e).rows && AbsRow(Apply(s, e), k) == AbsRow(s, k)
  {
    EventKeepsInv(s, base, e);
    assert k in Abs(s) && k in Abs(Apply(s, e));
    assert Abs(s)[k] == AbsRow(s, k) && Abs(Apply(s, e))[k] == AbsRow(Apply(s, e), k);
  }

  lemma {:induction false} EventCharges(s: State, base: Rows, e: Event, k: Key)
    requires Inv(s, base) && Enabled(s, e) && k in s.rows
    ensures k in Apply(s, e).rows
    ensures AbsRow(Apply(s, e), k).spent == AbsRow(s, k).spent + ChargedBy(s, e, k)
    ensures AbsRow(Apply(s, e), k).limit == AbsRow(s, k).limit && AbsRow(Apply(s, e), k).policy == AbsRow(s, k).policy
  {
    if IsCall(e) {
      CallEffect(s, e);
      CallTickets(s, e, k);
    } else {
      StutterOnRow(s, base, e, k);
    }
  }

  lemma {:induction false} RunCharges(s: State, base: Rows, es: seq<Event>, k: Key)
    requires Inv(s, base) && ValidRun(s, es) && k in s.rows
    ensures k in Exec(s, es).rows
    ensures AbsRow(Exec(s, es), k).spent == AbsRow(s, k).spent + Charged(s, es, k)
    decreases |es|
  {
    if es != [] {
      EventCharges(s, base, es[0], k);
      EventKeepsInv(s, base, es[0]);
      RunCharges(Apply(s, es[0]), base, es[1..], k);
    }
  }

  /** Deltas Redis holds that SQL does not have yet. */
  function Unflushed(s: State, k: Key): (int, int) {
    if k in s.hashes then (s.hashes[k].dSpent - InFlight(s, k).0, s.hashes[k].dReserved - InFlight(s, k).1) else (0, 0)
  }

  /** In every run, at every point, on every scope and quota: Redis = SQL + unflushed delta,
      and together they equal the opening figure plus exactly what the calls moved. */
  lemma {:induction false} NothingLostOrChargedTwice(rows: Rows, es: seq<Event>, k: Key)
    requires Opening(rows) && ValidRun(Fresh(rows), es) && k in rows
    ensures var s := Exec(Fresh(rows), es);
      && k in s.rows
      && (k in s.hashes ==>
          s.hashes[k].spent == s.rows[k].spent + Unflushed(s, k).0 &&
          s.hashes[k].reserved == s.rows[k].reserved + Unflushed(s, k).1)
      && s.rows[k].spent + Unflushed(s, k).0 == rows[k].spent + Charged(Fresh(rows), es, k)
      && s.rows[k].reserved + Unflushed(s, k).1 == rows[k].reserved + Owed(s.open, k)
  {
    FreshInv(rows);
    RunKeepsInv(Fresh(rows), rows, es);
    RunCharges(Fresh(rows), rows, es, k);
    assert KeyInv(Exec(Fresh(rows), es), rows, k);
  }

  /** The CASE in the flush UPDATE that clamps reserved at zero is never taken. */
  lemma {:induction false} ClampNeverFires(rows: Rows, es: seq<Event>, p: Pid)
    requires Opening(rows) && ValidRun(Fresh(rows), es)
    requires var s := Exec(Fresh(rows), es); p in s.flushers && s.flushers[p].BothRead? && s.flushers[p].k in s.rows
    ensures var s := Exec(Fresh(rows), es); var pc := s.flushers[p];
      FlushRow(s.rows[pc.k], pc.ds, pc.dr).reserved == s.rows[pc.k].reserved + pc.dr
  {
    FreshInv(rows);
    RunKeepsInv(Fresh(rows), rows, es);
    assert FlusherInv(Exec(Fresh(rows), es), p);
  }

  // ---- Caps ----

  /** A positive hard_reject budget or a positive quota that is not exceeded. */
  predicate WithinCap(k: Key, r: Row) {
    r.limit > 0 ==>
      if k.Quota? then r.spent <= r.limit
      else LoadedPolicy(r.policy) == HARD_REJECT ==> r.spent + r.reserved <= r.limit
  }

  lemma {:induction false} CallKeepsCap(s: State, base: Rows, e: Event, k: Key)
    requires TicketsInv(s) && Enabled(s, e) && IsCall(e) && k in s.rows && KeyInv(s, base, k)
    requires WithinCap(k, AbsRow(s, k))
    ensures k in Apply(s, e).rows && WithinCap(k, AbsRow(Apply(s, e), k))
  {
    CallEffect(s, e);
    var (keys, op) := CallOf(s, e);
    var d := Moved(s, keys, op, k);
    if d == 0 {
      assert AbsRow(Apply(s, e), k) == AbsRow(s, k);
    } else {
      MovedKeepsCap(s, base, e, k);
    }
  }

  lemma {:induction false} MovedKeepsCap(s: State, base: Rows, e: Event, k: Key)
    requires TicketsInv(s) && Enabled(s, e) && IsCall(e) && k in s.rows && KeyInv(s, base, k)
    requires WithinCap(k, AbsRow(s, k))
    requires var (keys, op) := CallOf(s, e); Moved(s, keys, op, k) != 0
    ensures k in Apply(s, e).rows && WithinCap(k, AbsRow(Apply(s, e), k))
  {
    CallEffect(s, e);
    CallTickets(s, e, k);
    var (keys, op) := CallOf(s, e);
    assert Admits(k, s.hashes[k], op);
    assert AbsRow(Apply(s, e), k) == SqlAdjust(AbsRow(s, k), op, Due(k, op));
    AdmittedKeepsCap(k, s.hashes[k], AbsRow(s, k), op);
  }

  lemma {:induction false} AdmittedKeepsCap(k: Key, e: Entry, r: Row, op: Op)
    requires e.spent == r.spent && e.reserved == r.reserved && e.limit == r.limit && e.policy == LoadedPolicy(r.policy)
    requires Admits(k, e, op) && Due(k, op) > 0 && (k.Quota? ==> op.Spend?) && WithinCap(k, r)
    ensures WithinCap(k, SqlAdjust(r, op, Due(k, op)))
  {
  }

  lemma {:induction false} EventKeepsCap(s: State, base: Rows, e: Event, k: Key)
    requires Inv(s, base) && Enabled(s, e) && k in s.rows && WithinCap(k, AbsRow(s, k))
    ensures k in Apply(s, e).rows && WithinCap(k, AbsRow(Apply(s, e), k))
  {
    if IsCall(e) { CallKeepsCap(s, base, e, k); } else { StutterOnRow(s, base, e, k); }
  }

  lemma {:induction false} RunKeepsCap(s: State, base: Rows, es: seq<Event>, k: Key)
    requires Inv(s, base) && ValidRun(s, es) && k in s.rows && WithinCap(k, AbsRow(s, k))
    ensures k in Exec(s, es).rows && WithinCap(k, AbsRow(Exec(s, es), k))
    decreases |es|
  {
    if es != [] {
      EventKeepsCap(s, base, es[0], k);
      EventKeepsInv(s, base, es[0]);
      RunKeepsCap(Apply(s, es[0]), base, es[1..], k);
    }
  }

  /** No interleaving overspends a hard_reject budget, counting what is reserved, or a quota. */
  lemma {:induction false} NeverOverspent(rows: Rows, es: seq<Event>, k: Key)
    requires Opening(rows) && ValidRun(Fresh(rows), es) && k in rows && WithinCap(k, rows[k])
    ensures k in Exec(Fresh(rows), es).rows && WithinCap(k, AbsRow(Exec(Fresh(rows), es), k))
  {
    FreshInv(rows);
    RunKeepsCap(Fresh(rows), rows, es, k);
  }

  // ---- Creation ----

  /** The HSET of a creation always meets a missing hash, and stores the row as SQL has it now. */
  lemma {:induction false} InitNeverErases(rows: Rows, es: seq<Event>, p: Pid)
    requires Opening(rows) && ValidRun(Fresh(rows), es)
    requires var s := Exec(Fresh(rows), es); p in s.initers && s.initers[p].Loaded?
    ensures var s := Exec(Fresh(rows), es); var pc := s.initers[p];
      pc.k !in s.hashes && pc.k in s.rows && pc.row == s.rows[pc.k]
  {
    FreshInv(rows);
    RunKeepsInv(Fresh(rows), rows, es);
    assert IniterInv(Exec(Fresh(rows), es), p);
  }

  /** The event is the HSET that creates the hash of k. */
  predicate WritesHash(s: State, e: Event, k: Key) {
    e.StepInit? && e.p in s.initers && s.initers[e.p].Loaded? && s.initers[e.p].k == k
  }

  function InitWrites(s: State, es: seq<Event>, k: Key): nat
    requires ValidRun(s, es)
    decreases |es|
  {
    if es == [] then 0 else (if WritesHash(s, es[0], k) then 1 else 0) + InitWrites(Apply(s, es[0]), es[1..], k)
  }

  function Deletions(es: seq<Event>, k: Key): nat {
    if es == [] then 0 else (if es[0] == Invalidate(k) then 1 else 0) + Deletions(es[1..], k)
  }

  lemma {:induction false} EventOnHash(s: State, base: Rows, e: Event, k: Key)
    requires Inv(s, base) && Enabled(s, e)
    ensures WritesHash(s, e, k) ==> k !in s.hashes
    ensures k in s.hashes && e != Invalidate(k) ==> k in Apply(s, e).hashes
    ensures WritesHash(s, e, k) ==> k in Apply(s, e).hashes
  {
    if IsCall(e) {
      CallEffect(s, e);
    } else if e.StepInit? {
      assert IniterInv(s, e.p);
    }
  }

  /** Between two deletions of a hash at most one creation writes it. */
  lemma {:induction false} OneInitWritePerDeletion(s: State, base: Rows, es: seq<Event>, k: Key)
    requires Inv(s, base) && ValidRun(s, es)
    ensures InitWrites(s, es, k) <= Deletions(es, k) + (if k in s.hashes then 0 else 1)
    decreases |es|
  {
    if es != [] {
      EventOnHash(s, base, es[0], k);
      EventKeepsInv(s, base, es[0]);
      OneInitWritePerDeletion(Apply(s, es[0]), base, es[1..], k);
    }
  }

  // ---- Refinement of the SQL transactions ----

  /** The call moves nothing backwards and disputes no scope. */
  ghost predicate Comparable(s: State, e: Event)
    requires Enabled(s, e)
  {
    IsCall(e) ==>
      var (keys, op) := CallOf(s, e);
      && (op.Spend? ==> op.cost >= 0)
      && Undisputed(Abs(s), keys, op)
  }

  lemma {:induction false} CallIsShaped(s: State, base: Rows, e: Event)
    requires Inv(s, base) && Enabled(s, e) && IsCall(e)
    ensures var (keys, op) := CallOf(s, e); CallShape(keys, op)
  {
    if e.Commit? || e.Release? {
      assert TicketOk(s.open[e.ticket]);
    }
  }

  lemma {:induction false} HashesMirrorAbs(s: State, base: Rows, keys: seq<Key>, op: Op)
    requires Inv(s, base) && forall k :: k in keys && Due(k, op) > 0 ==> k in s.hashes
    ensures Mirrored(s.hashes, Abs(s), keys, op)
  {
    forall k | k in keys && k in s.hashes ensures k in s.rows && Mirrors(s.hashes[k], AbsRow(s, k)) {
      assert k in s.hashes.Keys;
      assert KeyInv(s, base, k);
    }
  }

  lemma {:induction false} SameVerdict(s: State, base: Rows, e: Event)
    requires Inv(s, base) && Enabled(s, e) && IsCall(e) && Comparable(s, e)
    ensures var (keys, op) := CallOf(s, e);
      && Script(s.hashes, keys, op).0 == SqlTx(Abs(s), keys, op).0
      && (forall k :: k in keys ==> Due(k, op) >= 0 && (Due(k, op) > 0 ==> k in s.hashes))
  {
    var (keys, op) := CallOf(s, e);
    CallIsShaped(s, base, e);
    HashesMirrorAbs(s, base, keys, op);
    AgreeExactly(s.hashes, Abs(s), keys, op);
  }

  lemma {:induction false} SameRow(s: State, e: Event, k: Key)
    requires Enabled(s, e) && IsCall(e) && k in s.rows
    requires var (keys, op) := CallOf(s, e); k in keys ==> Due(k, op) >= 0 && (Due(k, op) > 0 ==> k in s.hashes)
    ensures var (keys, op) := CallOf(s, e);
      AbsRow(Apply(s, e), k) ==
        if k in keys && Script(s.hashes, keys, op).0 == Allowed then SqlAdjust(AbsRow(s, k), op, Due(k, op))
        else AbsRow(s, k)
  {
    CallEffect(s, e);
  }

  lemma {:induction false} SqlTxRow(rows: Rows, keys: seq<Key>, op: Op, k: Key)
    requires k in rows
    ensures var (verdict, next) := SqlTx(rows, keys, op);
      && next.Keys == rows.Keys
      && next[k] == if k in keys && verdict == Allowed then SqlAdjust(rows[k], op, Due(k, op)) else rows[k]
  {
  }

  /** One comparable Redis call is one SQL transaction on the abstract rows: same verdict, same next state. */
  lemma {:induction false} CallRefinesSql(s: State, base: Rows, e: Event)
    requires Inv(s, base) && Enabled(s, e) && IsCall(e) && Comparable(s, e)
    ensures var (keys, op) := CallOf(s, e);
      && Script(s.hashes, keys, op).0 == SqlTx(Abs(s), keys, op).0
      && Abs(Apply(s, e)) == SqlTx(Abs(s), keys, op).1
  {
    var (keys, op) := CallOf(s, e);
    SameVerdict(s, base, e);
    SameNext(s, e);
  }

  lemma {:induction false} SameNext(s: State, e: Event)
    requires Enabled(s, e) && IsCall(e)
    requires var (keys, op) := CallOf(s, e);
      && Script(s.hashes, keys, op).0 == SqlTx(Abs(s), keys, op).0
      && forall k :: k in keys ==> Due(k, op) >= 0 && (Due(k, op) > 0 ==> k in s.hashes)
    ensures var (keys, op) := CallOf(s, e); Abs(Apply(s, e)) == SqlTx(Abs(s), keys, op).1
  {
    var (keys, op) := CallOf(s, e);
    var next := SqlTx(Abs(s), keys, op).1;
    assert Apply(s, e).rows == s.rows && next.Keys == s.rows.Keys;
    forall k | k in s.rows ensures AbsRow(Apply(s, e), k) == next[k] {
      SameRow(s, e, k);
      SqlTxRow(Abs(s), keys, op, k);
    }
  }

  ghost predicate ComparableRun(s: State, es: seq<Event>)
    requires ValidRun(s, es)
    decreases |es|
  {
    es == [] || (Comparable(s, es[0]) && ComparableRun(Apply(s, es[0]), es[1..]))
  }

  /** The calls of a run in order, with the verdicts the Redis path gave. */
  function RedisRun(s: State, es: seq<Event>): (r: seq<((seq<Key>, Op), Verdict)>)
    requires ValidRun(s, es)
    decreases |es|
  {
    if es == [] then []
    else
      var rest := RedisRun(Apply(s, es[0]), es[1..]);
      if IsCall(es[0]) then
        var (keys, op) := CallOf(s, es[0]);
        [((keys, op), Script(s.hashes, keys, op).0)] + rest
      else rest
  }

  /** The same calls run as SQL transactions give the recorded verdicts and end in `final`. */
  ghost predicate SqlRunIs(rows: Rows, calls: seq<((seq<Key>, Op), Verdict)>, final: Rows)
    decreases |calls|
  {
    if calls == [] then rows == final
    else
      var ((keys, op), v) := calls[0];
      SqlTx(rows, keys, op).0 == v && SqlRunIs(SqlTx(rows, keys, op).1, calls[1..], final)
  }

  /** The whole interleaved write-behind run is a sequential run of the SQL transactions. */
  lemma {:induction false} RunRefinesSql(s: State, base: Rows, es: seq<Event>)
    requires Inv(s, base) && ValidRun(s, es) && ComparableRun(s, es)
    ensures SqlRunIs(Abs(s), RedisRun(s, es), Abs(Exec(s, es)))
    decreases |es|
  {
    if es != [] {
      var e := es[0];
      EventKeepsInv(s, base, e);
      RunRefinesSql(Apply(s, e), base, es[1..]);
      if IsCall(e) {
        CallRefinesSql(s, base, e);
        assert RedisRun(s, es)[1..] == RedisRun(Apply(s, e), es[1..]);
      }
    }
  }

  /** From SQL rows alone: verdicts and final figures are those of the SQL implementation. */
  lemma {:induction false} WriteBehindRefinesSql(rows: Rows, es: seq<Event>)
    requires Opening(rows) && ValidRun(Fresh(rows), es) && ComparableRun(Fresh(rows), es)
    ensures SqlRunIs(rows, RedisRun(Fresh(rows), es), Abs(Exec(Fresh(rows), es)))
  {
    FreshInv(rows);
    assert Abs(Fresh(rows)) == rows;
    RunRefinesSql(Fresh(rows), rows, es);
  }
}
