/**
 The two implementations of budget and quota accounting.

 `RedisLedger` holds the Redis hashes and runs the four Lua scripts of
 budget_ledger.go; `SqlLedger` holds the SQL rows and runs the transactions of
 identity.go. Both are proved against one-line specifications (`Script`, `SqlTx`)
 over finite maps, and the two specifications are then compared.

 Amounts are integers: micro-dollars for budgets, tokens for quotas. A user quota is
 kept as an entry whose `reserved` part is never touched, so the fields read
 limit = budget/quota, spent = spent/used, dSpent = delta_spent/delta_used.
 */
module LedgerScripts {
  const HARD_REJECT: string := "hard_reject"

  datatype Scope = VirtualKey | ApiKey | Project | Tenant
  datatype Key = Budget(scope: Scope, id: string) | Quota(user: string)
  datatype Entry = Entry(limit: int, spent: int, reserved: int, policy: string, dSpent: int, dReserved: int)
  datatype Row = Row(limit: int, spent: int, reserved: int, policy: string)
  datatype Verdict = Allowed | QuotaExceeded | BudgetExceeded
  datatype Op =
    | Spend(cost: int, tokens: int)  // consume
    | Hold(amount: int)              // reserve
    | Settle(amount: int)            // commit
    | Free(amount: int)              // release

  type Hashes = map<Key, Entry>
  type Rows = map<Key, Row>

  ghost predicate Distinct<T>(s: seq<T>) {
    forall i, j :: 0 <= i < j < |s| ==> s[i] != s[j]
  }

  /** The scopes of a call, in the order both paths visit them, blank ids skipped. */
  function ActiveScopes(apiKey: string, project: string, tenant: string, virtualKey: string): (ks: seq<Key>)
    ensures Distinct(ks)
    ensures forall k :: k in ks <==>
      k.Budget? && k.id != "" &&
      k.id == match k.scope
        case VirtualKey => virtualKey
        case ApiKey => apiKey
        case Project => project
        case Tenant => tenant
  {
    (if virtualKey == "" then [] else [Budget(VirtualKey, virtualKey)]) +
    (if apiKey == "" then [] else [Budget(ApiKey, apiKey)]) +
    (if project == "" then [] else [Budget(Project, project)]) +
    (if tenant == "" then [] else [Budget(Tenant, tenant)])
  }

  // ---- Specification of the Lua scripts ----

  /** What HGET sees: a missing hash or field reads as zero, a missing policy as hard_reject. */
  function Read(m: Hashes, k: Key): Entry {
    if k in m then m[k] else Entry(0, 0, 0, HARD_REJECT, 0, 0)
  }

  /** The amount an operation moves on one key. */
  function Due(k: Key, op: Op): int {
    match op
    case Spend(cost, tokens) => if k.Quota? then tokens else cost
    case Hold(a) => a
    case Settle(a) => a
    case Free(a) => a
  }

  predicate Admits(k: Key, e: Entry, op: Op) {
    var d := Due(k, op);
    (op.Spend? || op.Hold?) && d > 0 && e.limit > 0 ==>
      if k.Quota? then e.spent + d <= e.limit
      else e.policy == HARD_REJECT ==> e.spent + e.reserved + d <= e.limit
  }

  function Adjust(e: Entry, op: Op, d: int): Entry {
    match op
    case Spend(_, _) => e.(spent := e.spent + d, dSpent := e.dSpent + d)
    case Hold(_) => e.(reserved := e.reserved + d, dReserved := e.dReserved + d)
    case Settle(_) => e.(reserved := e.reserved - d, spent := e.spent + d,
                         dReserved := e.dReserved - d, dSpent := e.dSpent + d)
    case Free(_) => e.(reserved := e.reserved - d, dReserved := e.dReserved - d)
  }

  /** The keys an operation really moves. */
  function HitKeys(keys: seq<Key>, op: Op): set<Key> {
    set k | k in keys && Due(k, op) > 0
  }

  function TouchedSet(m: Hashes, hits: set<Key>, op: Op): Hashes {
    map k | k in m.Keys + hits :: if k in hits then Adjust(Read(m, k), op, Due(k, op)) else m[k]
  }

  function Touched(m: Hashes, keys: seq<Key>, op: Op): Hashes {
    TouchedSet(m, HitKeys(keys, op), op)
  }

  function ScriptVerdict(m: Hashes, keys: seq<Key>, op: Op): Verdict {
    if exists k | k in keys :: k.Quota? && !Admits(k, Read(m, k), op) then QuotaExceeded
    else if exists k | k in keys :: !Admits(k, Read(m, k), op) then BudgetExceeded
    else Allowed
  }

  /** One script: all keys or none. */
  function Script(m: Hashes, keys: seq<Key>, op: Op): (r: (Verdict, Hashes))
    ensures r.0 != Allowed ==> r.1 == m
  {
    var v := ScriptVerdict(m, keys, op);
    (v, if v == Allowed then Touched(m, keys, op) else m)
  }

  lemma {:induction false} TouchOneMore(m: Hashes, hits: set<Key>, k: Key, op: Op)
    requires k !in hits
    ensures TouchedSet(m, hits + {k}, op) ==
      TouchedSet(m, hits, op)[k := Adjust(Read(TouchedSet(m, hits, op), k), op, Due(k, op))]
  {
    assert Read(TouchedSet(m, hits, op), k) == Read(m, k);
  }

  lemma {:induction false} TouchNext(m: Hashes, keys: seq<Key>, i: nat, op: Op)
    requires i < |keys| && Distinct(keys) && Due(keys[i], op) > 0
    ensures Touched(m, keys[..i + 1], op) ==
      Touched(m, keys[..i], op)[keys[i] := Adjust(Read(Touched(m, keys[..i], op), keys[i]), op, Due(keys[i], op))]
  {
    TouchOneMore(m, HitKeys(keys[..i], op), keys[i], op);
    assert HitKeys(keys[..i + 1], op) == HitKeys(keys[..i], op) + {keys[i]};
  }

  lemma {:induction false} TouchIdle(m: Hashes, keys: seq<Key>, op: Op)
    requires forall k :: k in keys ==> Due(k, op) <= 0
    ensures Touched(m, keys, op) == m
  {
    assert HitKeys(keys, op) == {};
  }

  lemma {:induction false} TouchRest(m: Hashes, keys: seq<Key>, n: nat, op: Op)
    requires n <= |keys| && forall j :: n <= j < |keys| ==> Due(keys[j], op) <= 0
    ensures Touched(m, keys, op) == Touched(m, keys[..n], op)
  {
    assert HitKeys(keys, op) == HitKeys(keys[..n], op);
  }

  /** KEYS[1] is the quota hash when has_quota; all other keys are budget hashes. */
  ghost predicate WellKeyed(keys: seq<Key>, hasQuota: bool) {
    && Distinct(keys)
    && (hasQuota ==> |keys| > 0 && keys[0].Quota?)
    && (forall i :: (if hasQuota then 1 else 0) <= i < |keys| ==> keys[i].Budget?)
  }

  class RedisLedger {
    var hashes: Hashes

    constructor ()
      ensures hashes == map[]
    {
      hashes := map[];
    }

    /** The HINCRBYFLOAT calls one script makes on one key, in its order. */
    method Increment(k: Key, op: Op, d: int)
      modifies this
      ensures hashes == old(hashes)[k := Adjust(Read(old(hashes), k), op, d)]
    {
      var e := Read(hashes, k);
      match op {
        case Spend(_, _) =>
          e := e.(spent := e.spent + d);
          e := e.(dSpent := e.dSpent + d);
        case Hold(_) =>
          e := e.(reserved := e.reserved + d);
          e := e.(dReserved := e.dReserved + d);
        case Settle(_) =>
          e := e.(reserved := e.reserved - d);
          e := e.(spent := e.spent + d);
          e := e.(dReserved := e.dReserved - d);
          e := e.(dSpent := e.dSpent + d);
        case Free(_) =>
          e := e.(reserved := e.reserved - d);
          e := e.(dReserved := e.dReserved - d);
      }
      hashes := hashes[k := e];
    }

    /** The write loop `for i = first, #KEYS` every script ends with. */
    method IncrementAll(keys: seq<Key>, first: nat, amount: int, op: Op, ghost start: Hashes)
      requires first <= |keys| && Distinct(keys) && amount > 0
      requires forall j :: first <= j < |keys| ==> Due(keys[j], op) == amount
      requires hashes == Touched(start, keys[..first], op)
      modifies this
      ensures hashes == Touched(start, keys, op)
    {
      for i := first to |keys|
        invariant hashes == Touched(start, keys[..i], op)
      {
        TouchNext(start, keys, i, op);
        Increment(keys[i], op, amount);
      }
      assert keys[..|keys|] == keys;
    }

    /** The admission loop both scripts run over their budget hashes. */
    method BudgetsAdmit(keys: seq<Key>, first: nat, amount: int, ghost op: Op) returns (ok: bool)
      requires first <= |keys| && (op.Spend? || op.Hold?)
      requires forall j :: first <= j < |keys| ==> keys[j].Budget? && Due(keys[j], op) == amount
      ensures ok <==> forall j :: first <= j < |keys| ==> Admits(keys[j], Read(hashes, keys[j]), op)
    {
      for i := first to |keys|
        invariant forall j :: first <= j < i ==> Admits(keys[j], Read(hashes, keys[j]), op)
      {
        var e := Read(hashes, keys[i]);
        if amount > 0 && e.limit > 0 && e.policy == HARD_REJECT && e.spent + e.reserved + amount > e.limit {
          return false;
        }
      }
      ok := true;
    }

    method Consume(keys: seq<Key>, amount: int, tokens: int, hasQuota: bool) returns (v: Verdict)
      requires WellKeyed(keys, hasQuota)
      modifies this
      ensures (v, hashes) == Script(old(hashes), keys, Spend(amount, tokens))
      ensures v != Allowed ==> hashes == old(hashes)
    {
      var op := Spend(amount, tokens);
      var first := 0;
      if hasQuota {
        var e := Read(hashes, keys[0]);
        if tokens > 0 && e.limit > 0 && e.spent + tokens > e.limit {
          assert !Admits(keys[0], e, op);
          return QuotaExceeded;
        }
        first := 1;
      }
      var ok := BudgetsAdmit(keys, first, amount, op);
      if !ok {
        return BudgetExceeded;
      }
      TouchIdle(hashes, keys[..0], op);
      if hasQuota && tokens > 0 {
        TouchNext(hashes, keys, 0, op);
        Increment(keys[0], op, tokens);
      } else {
        TouchIdle(hashes, keys[..first], op);
      }
      if amount > 0 {
        IncrementAll(keys, first, amount, op, old(hashes));
      } else {
        TouchRest(old(hashes), keys, first, op);
      }
      v := Allowed;
    }

    method Reserve(keys: seq<Key>, amount: int) returns (v: Verdict)
      requires WellKeyed(keys, false)
      modifies this
      ensures (v, hashes) == Script(old(hashes), keys, Hold(amount))
      ensures v != Allowed ==> hashes == old(hashes)
    {
      var op := Hold(amount);
      if amount <= 0 {
        TouchIdle(hashes, keys, op);
        return Allowed;
      }
      var ok := BudgetsAdmit(keys, 0, amount, op);
      if !ok {
        return BudgetExceeded;
      }
      TouchIdle(hashes, keys[..0], op);
      IncrementAll(keys, 0, amount, op, hashes);
      v := Allowed;
    }

    method Commit(keys: seq<Key>, amount: int)
      requires WellKeyed(keys, false)
      modifies this
      ensures (Allowed, hashes) == Script(old(hashes), keys, Settle(amount))
    {
      if amount <= 0 {
        TouchIdle(hashes, keys, Settle(amount));
        return;
      }
      TouchIdle(hashes, keys[..0], Settle(amount));
      IncrementAll(keys, 0, amount, Settle(amount), hashes);
    }

    method Release(keys: seq<Key>, amount: int)
      requires WellKeyed(keys, false)
      modifies this
      ensures (Allowed, hashes) == Script(old(hashes), keys, Free(amount))
    {
      if amount <= 0 {
        TouchIdle(hashes, keys, Free(amount));
        return;
      }
      TouchIdle(hashes, keys[..0], Free(amount));
      IncrementAll(keys, 0, amount, Free(amount), hashes);
    }
  }

  // ---- Specification of the SQL transactions ----

  /** The WHERE clause of the UPDATE for one scope. */
  predicate SqlAdmits(k: Key, r: Row, op: Op) {
    var d := Due(k, op);
    match op
    case Spend(_, _) => r.limit <= 0 || r.spent + d <= r.limit || (k.Budget? && r.policy != HARD_REJECT)
    case Hold(_) => r.limit <= 0 || r.spent + r.reserved + d <= r.limit || r.policy != HARD_REJECT
    case _ => true
  }

  function SqlAdjust(r: Row, op: Op, d: int): Row {
    match op
    case Spend(_, _) => r.(spent := r.spent + d)
    case Hold(_) => r.(reserved := r.reserved + d)
    case Settle(_) => r.(reserved := r.reserved - d, spent := r.spent + d)
    case Free(_) => r.(reserved := r.reserved - d)
  }

  predicate SqlBlocks(rows: Rows, k: Key, op: Op) {
    (op.Spend? || op.Hold?) && (k in rows ==> !SqlAdmits(k, rows[k], op))
  }

  function SqlTouched(rows: Rows, keys: seq<Key>, op: Op): Rows {
    map k | k in rows :: if k in keys then SqlAdjust(rows[k], op, Due(k, op)) else rows[k]
  }

  /** One SQL transaction: an UPDATE that matches no row rolls everything back. */
  function SqlTx(rows: Rows, keys: seq<Key>, op: Op): (r: (Verdict, Rows))
    ensures r.0 != Allowed ==> r.1 == rows
  {
    if exists k | k in keys :: k.Quota? && SqlBlocks(rows, k, op) then (QuotaExceeded, rows)
    else if exists k | k in keys :: SqlBlocks(rows, k, op) then (BudgetExceeded, rows)
    else (Allowed, SqlTouched(rows, keys, op))
  }

  lemma {:induction false} SqlTouchNext(rows: Rows, keys: seq<Key>, i: nat, op: Op)
    requires i < |keys| && Distinct(keys)
    ensures keys[i] in rows ==>
      keys[i] in SqlTouched(rows, keys[..i], op) && SqlTouched(rows, keys[..i], op)[keys[i]] == rows[keys[i]] &&
      SqlTouched(rows, keys[..i + 1], op) ==
      SqlTouched(rows, keys[..i], op)[keys[i] := SqlAdjust(rows[keys[i]], op, Due(keys[i], op))]
    ensures keys[i] !in rows ==> SqlTouched(rows, keys[..i + 1], op) == SqlTouched(rows, keys[..i], op)
  {
    assert keys[..i + 1] == keys[..i] + [keys[i]];
    assert keys[i] !in keys[..i];
  }

  class SqlLedger {
    var rows: Rows

    constructor (initial: Rows)
      ensures rows == initial
    {
      rows := initial;
    }

    /** UPDATE ... WHERE id = ? AND guard; reports whether a row was affected. */
    method Update(k: Key, op: Op) returns (affected: bool)
      modifies this
      ensures affected <==> k in old(rows) && SqlAdmits(k, old(rows)[k], op)
      ensures rows == if affected then old(rows)[k := SqlAdjust(old(rows)[k], op, Due(k, op))] else old(rows)
    {
      affected := k in rows && SqlAdmits(k, rows[k], op);
      if affected {
        rows := rows[k := SqlAdjust(rows[k], op, Due(k, op))];
      }
    }

    /** consumeBudgetsPG and the reserve transaction: guarded updates in order, rollback on the first miss. */
    method GuardedTx(keys: seq<Key>, op: Op) returns (v: Verdict)
      requires op.Spend? || op.Hold?
      requires WellKeyed(keys, op.Spend? && keys != [] && keys[0].Quota?)
      modifies this
      ensures (v, rows) == SqlTx(old(rows), keys, op)
    {
      var begin := rows;
      assert SqlTouched(begin, keys[..0], op) == begin;
      for i := 0 to |keys|
        invariant rows == SqlTouched(begin, keys[..i], op)
        invariant forall j :: 0 <= j < i ==> !SqlBlocks(begin, keys[j], op)
      {
        SqlTouchNext(begin, keys, i, op);
        var affected := Update(keys[i], op);
        if !affected {
          assert SqlBlocks(begin, keys[i], op);
          rows := begin;
          return if keys[i].Quota? then QuotaExceeded else BudgetExceeded;
        }
      }
      assert keys[..|keys|] == keys;
      v := Allowed;
    }

    /** The commit and release transactions: unguarded updates, a missing row is skipped. */
    method AdjustTx(keys: seq<Key>, op: Op)
      requires op.Settle? || op.Free?
      requires Distinct(keys)
      modifies this
      ensures (Allowed, rows) == SqlTx(old(rows), keys, op)
    {
      var begin := rows;
      assert SqlTouched(begin, keys[..0], op) == begin;
      for i := 0 to |keys|
        invariant rows == SqlTouched(begin, keys[..i], op)
      {
        SqlTouchNext(begin, keys, i, op);
        var _ := Update(keys[i], op);
      }
      assert keys[..|keys|] == keys;
    }
  }

  // ---- The four operations in plain figures ----

  /** The hash of `k` has no room for `n` more, so the Lua scripts refuse. */
  predicate OverQuota(m: Hashes, k: Key, n: int) {
    k in m && k.Quota? && n > 0 && 0 < m[k].limit < m[k].spent + n
  }

  predicate OverBudget(m: Hashes, k: Key, n: int) {
    k in m && k.Budget? && n > 0 && m[k].policy == HARD_REJECT && 0 < m[k].limit < m[k].spent + m[k].reserved + n
  }

  /** `r` is `m` with `spent` and `reserved` added on the keys of `hits`, in the totals and in the deltas. */
  ghost predicate Added(m: Hashes, r: Hashes, hits: set<Key>, spent: int, reserved: int) {
    hits <= r.Keys && forall k :: k in hits ==> AddedTo(if k in m then m[k] else Entry(0, 0, 0, HARD_REJECT, 0, 0),
                                                        r[k], spent, reserved)
  }

  predicate AddedTo(e: Entry, r: Entry, spent: int, reserved: int) {
    && r.limit == e.limit && r.policy == e.policy
    && r.spent == e.spent + spent && r.dSpent == e.dSpent + spent
    && r.reserved == e.reserved + reserved && r.dReserved == e.dReserved + reserved
  }

  ghost predicate SameElsewhere<V>(m: map<Key, V>, r: map<Key, V>, hits: set<Key>) {
    forall k :: k !in hits ==> (k in r <==> k in m) && (k in m ==> r[k] == m[k])
  }

  /** Consume in Redis: what is refused, and what an allowed call adds, quota and budgets apart. */
  lemma {:induction false} ConsumeExactly(m: Hashes, keys: seq<Key>, cost: int, tokens: int)
    ensures Script(m, keys, Spend(cost, tokens)).0 ==
      if exists k :: k in keys && OverQuota(m, k, tokens) then QuotaExceeded
      else if exists k :: k in keys && OverBudget(m, k, cost) then BudgetExceeded else Allowed
    ensures var (v, r) := Script(m, keys, Spend(cost, tokens));
      var quotas, budgets := (set k | k in keys && k.Quota?), (set k | k in keys && k.Budget?);
      && (v == Allowed && tokens > 0 ==> Added(m, r, quotas, tokens, 0))
      && (v == Allowed && cost > 0 ==> Added(m, r, budgets, cost, 0))
      && (v != Allowed || tokens <= 0 ==> SameElsewhere(m, r, budgets))
      && (v != Allowed || cost <= 0 ==> SameElsewhere(m, r, quotas))
      && SameElsewhere(m, r, quotas + budgets)
  {
    var op := Spend(cost, tokens);
    forall k ensures Admits(k, Read(m, k), op) <==> !OverQuota(m, k, tokens) && !OverBudget(m, k, cost) {
    }
  }

  lemma {:induction false} ReserveExactly(m: Hashes, keys: seq<Key>, amount: int)
    requires forall k :: k in keys ==> k.Budget?
    ensures var (v, r) := Script(m, keys, Hold(amount));
      var refused := exists k :: k in keys && OverBudget(m, k, amount);
      var hits := if refused || amount <= 0 then {} else set k | k in keys;
      && v == (if refused then BudgetExceeded else Allowed)
      && Added(m, r, hits, 0, amount) && SameElsewhere(m, r, hits)
  {
    forall k | k in keys ensures Admits(k, Read(m, k), Hold(amount)) <==> !OverBudget(m, k, amount) {
    }
  }

  lemma {:induction false} SettleExactly(m: Hashes, keys: seq<Key>, amount: int)
    ensures var hits := if amount > 0 then set k | k in keys else {};
      var commit, release := Script(m, keys, Settle(amount)), Script(m, keys, Free(amount));
      && commit.0 == Allowed && Added(m, commit.1, hits, amount, -amount) && SameElsewhere(m, commit.1, hits)
      && release.0 == Allowed && Added(m, release.1, hits, 0, -amount) && SameElsewhere(m, release.1, hits)
  {
  }

  /** The UPDATE of `k` meets no row, or one whose limit has no room beside `spent` and, for a reserve, `reserved`. */
  predicate RowRefuses(rows: Rows, k: Key, n: int, withReserved: bool) {
    k !in rows || (
      && (k.Quota? || rows[k].policy == HARD_REJECT)
      && 0 < rows[k].limit < rows[k].spent + (if withReserved then rows[k].reserved else 0) + n)
  }

  ghost predicate RowsAdded(rows: Rows, r: Rows, hits: set<Key>, spent: int, reserved: int) {
    r.Keys == rows.Keys && forall k :: k in hits && k in rows ==>
      r[k] == Row(rows[k].limit, rows[k].spent + spent, rows[k].reserved + reserved, rows[k].policy)
  }

  /** The same in SQL, where a consume needs every row and ignores reservations. */
  lemma {:induction false} SqlConsumeExactly(rows: Rows, keys: seq<Key>, cost: int, tokens: int)
    ensures SqlTx(rows, keys, Spend(cost, tokens)).0 ==
      if exists k :: k in keys && k.Quota? && RowRefuses(rows, k, tokens, false) then QuotaExceeded
      else if exists k :: k in keys && k.Budget? && RowRefuses(rows, k, cost, false) then BudgetExceeded
      else Allowed
    ensures var (v, r) := SqlTx(rows, keys, Spend(cost, tokens));
      var quotas, budgets := (set k | k in keys && k.Quota?), (set k | k in keys && k.Budget?);
      && (v == Allowed ==> RowsAdded(rows, r, quotas, tokens, 0) && RowsAdded(rows, r, budgets, cost, 0))
      && SameElsewhere(rows, r, if v == Allowed then quotas + budgets else {})
  {
    forall k ensures SqlBlocks(rows, k, Spend(cost, tokens)) <==>
      RowRefuses(rows, k, if k.Quota? then tokens else cost, false)
    {
    }
  }

  lemma {:induction false} SqlReserveExactly(rows: Rows, keys: seq<Key>, amount: int)
    requires forall k :: k in keys ==> k.Budget?
    ensures var (v, r) := SqlTx(rows, keys, Hold(amount));
      var refused := exists k :: k in keys && RowRefuses(rows, k, amount, true);
      var hits := if refused then {} else set k | k in keys;
      && v == (if refused then BudgetExceeded else Allowed)
      && RowsAdded(rows, r, hits, 0, amount) && SameElsewhere(rows, r, hits)
  {
    forall k | k in keys ensures SqlBlocks(rows, k, Hold(amount)) <==> RowRefuses(rows, k, amount, true) {
    }
  }

  lemma {:induction false} SqlSettleExactly(rows: Rows, keys: seq<Key>, amount: int)
    ensures var hits := set k | k in keys;
      var commit, release := SqlTx(rows, keys, Settle(amount)), SqlTx(rows, keys, Free(amount));
      && commit.0 == Allowed && RowsAdded(rows, commit.1, hits, amount, -amount) && SameElsewhere(rows, commit.1, hits)
      && release.0 == Allowed && RowsAdded(rows, release.1, hits, 0, -amount) && SameElsewhere(rows, release.1, hits)
  {
  }

  // ---- Comparing the two ----

  /** What loadBudgetLedgerScope stores for a policy column. */
  function LoadedPolicy(p: string): string {
    if p == "" then HARD_REJECT else p
  }

  /** The hash entry of `k` mirrors its row. */
  predicate Mirrors(e: Entry, r: Row) {
    e.limit == r.limit && e.spent == r.spent && e.reserved == r.reserved && e.policy == LoadedPolicy(r.policy)
  }

  /** Every hash on the call's keys mirrors its row, and keys that the call moves have a hash. */
  ghost predicate Mirrored(m: Hashes, rows: Rows, keys: seq<Key>, op: Op) {
    forall k :: k in keys ==> (k in m ==> k in rows && Mirrors(m[k], rows[k])) && (Due(k, op) > 0 ==> k in m)
  }

  /** Calls as the wrappers make them: no reserve, commit or release of nothing, a quota key only with tokens. */
  ghost predicate CallShape(keys: seq<Key>, op: Op) {
    && (op.Spend? || op.amount > 0)
    && forall k :: k in keys && k.Quota? ==> op.Spend? && op.tokens > 0
  }

  /** A row on which the Lua test and the SQL guard differ. */
  ghost predicate Disputed(k: Key, r: Row, op: Op) {
    && k.Budget? && r.limit > 0
    && match op
       case Spend(cost, _) =>
         if cost <= 0 then r.policy == HARD_REJECT && r.spent + cost > r.limit
         else if r.policy == "" then r.spent + r.reserved + cost > r.limit
         else r.policy == HARD_REJECT && (r.spent + r.reserved + cost > r.limit) != (r.spent + cost > r.limit)
       case Hold(amount) => r.policy == "" && r.spent + r.reserved + amount > r.limit
       case _ => false
  }

  /** No key of the call is disputed, or misses the row that a SQL consume or reserve has to update. */
  ghost predicate Undisputed(rows: Rows, keys: seq<Key>, op: Op) {
    forall k :: k in keys ==> if k in rows then !Disputed(k, rows[k], op) else !(op.Spend? || op.Hold?)
  }

  /** The guards of one key agree exactly when it is not disputed. */
  lemma {:induction false} GuardsAgreeExactly(m: Hashes, rows: Rows, keys: seq<Key>, op: Op, k: Key)
    requires Mirrored(m, rows, keys, op) && CallShape(keys, op) && k in keys
    ensures (Admits(k, Read(m, k), op) <==> !SqlBlocks(rows, k, op)) <==>
      if k in rows then !Disputed(k, rows[k], op) else !(op.Spend? || op.Hold?)
    ensures k.Quota? ==> (Admits(k, Read(m, k), op) <==> !SqlBlocks(rows, k, op))
  {
  }

  /** A corollary for whole calls: on mirrored state the two paths give the same verdict exactly when no scope is
      disputed, or both refuse all the same: the quota is exceeded, or Redis refuses one key and SQL refuses one key. */
  lemma {:induction false} AgreeExactly(m: Hashes, rows: Rows, keys: seq<Key>, op: Op)
    requires Mirrored(m, rows, keys, op) && CallShape(keys, op)
    ensures Script(m, keys, op).0 == SqlTx(rows, keys, op).0 <==>
      || Undisputed(rows, keys, op)
      || (exists k :: k in keys && k.Quota? && SqlBlocks(rows, k, op))
      || ((exists k :: k in keys && !Admits(k, Read(m, k), op)) && exists k :: k in keys && SqlBlocks(rows, k, op))
  {
    forall k | k in keys
      ensures (Admits(k, Read(m, k), op) <==> !SqlBlocks(rows, k, op)) <==>
        if k in rows then !Disputed(k, rows[k], op) else !(op.Spend? || op.Hold?)
      ensures k.Quota? ==> (Admits(k, Read(m, k), op) <==> !SqlBlocks(rows, k, op))
    {
      GuardsAgreeExactly(m, rows, keys, op, k);
    }
  }

  /** An undisputed call that moves nothing backwards leaves both paths with the same figures. */
  lemma {:induction false} UndisputedStaysMirrored(m: Hashes, rows: Rows, keys: seq<Key>, op: Op)
    requires Mirrored(m, rows, keys, op) && CallShape(keys, op) && Undisputed(rows, keys, op)
    requires op.Spend? ==> op.cost >= 0
    ensures Script(m, keys, op).0 == SqlTx(rows, keys, op).0
    ensures Mirrored(Script(m, keys, op).1, SqlTx(rows, keys, op).1, keys, op)
  {
    AgreeExactly(m, rows, keys, op);
  }

  /** A call on which they disagree: half the budget spent and half reserved, the same amount again. */
  lemma {:induction false} ReservedBudgetIsDisputed(id: string, n: int)
    requires n > 0
    ensures var k, r := Budget(Tenant, id), Row(2 * n, n, n, HARD_REJECT);
      var m, rows := map[k := Entry(r.limit, r.spent, r.reserved, r.policy, 0, 0)], map[k := r];
      && Mirrored(m, rows, [k], Spend(n, 0))
      && Script(m, [k], Spend(n, 0)).0 == BudgetExceeded && SqlTx(rows, [k], Spend(n, 0)).0 == Allowed
  {
    var k := Budget(Tenant, id);
    assert k in [k] && forall x :: x in [k] ==> x == k;
  }
}
