/**
 The Redis token-bucket limiter of internal/service/limiter/redis.go.

 `RedisBuckets` runs the two Lua scripts on a store of hashes {t, l}; the lemmas are
 about arbitrary runs of them over many buckets, with key expiry as an event of its own.
 Time is in milliseconds and does not go backwards; keys of one call are distinct.
 */
module TokenBuckets {
  type Key = string
  datatype Bucket = Bucket(t: real, l: int)
  datatype LimitSpec = LimitSpec(key: Key, rate: real, burst: int, consume: int, reason: string, scope: string)
  datatype Decision = Decision(allowed: bool, reason: string, scope: string)
  type Store = map<Key, Bucket>

  const EXPIRE_MS: int := 120000

  function Min(a: real, b: real): real { if a <= b then a else b }
  function Max(a: int, b: int): int { if a >= b then a else b }

  function Fill(rate: real, ms: int): real { rate * (ms as real) / 1000.0 }

  /** The refilled level of a bucket at `now`; a missing key is a full bucket. */
  function Level(m: Store, s: LimitSpec, now: int): real {
    var t := if s.key in m then m[s.key].t else s.burst as real;
    var l := if s.key in m then m[s.key].l else now;
    Min(s.burst as real, t + Fill(s.rate, Max(0, now - l)))
  }

  predicate Enough(m: Store, s: LimitSpec, now: int) {
    Level(m, s, now) >= s.consume as real
  }

  ghost predicate AllEnough(m: Store, specs: seq<LimitSpec>, now: int) {
    forall i :: 0 <= i < |specs| ==> Enough(m, specs[i], now)
  }

  /** HSET t, l on every key: the refilled level, less the consumption when `take`. */
  function Written(m: Store, specs: seq<LimitSpec>, now: int, take: bool): Store {
    if specs == [] then m
    else
      var s := specs[|specs| - 1];
      Written(m, specs[..|specs| - 1], now, take)[s.key :=
        Bucket(Level(m, s, now) - (if take then s.consume as real else 0.0), now)]
  }

  ghost predicate DistinctKeys(specs: seq<LimitSpec>) {
    forall i, j :: 0 <= i < j < |specs| ==> specs[i].key != specs[j].key
  }

  /** Bucket i is the first that cannot pay. */
  ghost predicate FirstShort(m: Store, specs: seq<LimitSpec>, i: int, now: int) {
    0 <= i < |specs| && AllEnough(m, specs[..i], now) && !Enough(m, specs[i], now)
  }

  function Denial(s: LimitSpec): Decision {
    Decision(false, if s.reason == "" then "rate_limited" else s.reason, s.scope)
  }

  class RedisBuckets {
    var store: Store

    constructor ()
      ensures store == map[]
    {
      store := map[];
    }

    /** tokenBucketLua behind redisTryConsume. */
    method TryConsume(s: LimitSpec, now: int) returns (ok: bool)
      modifies this
      ensures s.rate <= 0.0 || s.burst <= 0 ==> ok && store == old(store)
      ensures s.rate > 0.0 && s.burst > 0 ==>
        ok == Enough(old(store), s, now) && store == Written(old(store), [s], now, ok)
    {
      if s.rate <= 0.0 || s.burst <= 0 {
        return true;
      }
      var tokens := if s.key in store then store[s.key].t else s.burst as real;
      var lastFill := if s.key in store then store[s.key].l else now;
      var elapsed := Max(0, now - lastFill);
      var refill := s.rate * (elapsed as real) / 1000.0;
      assert refill == Fill(s.rate, elapsed);
      tokens := Min(s.burst as real, tokens + refill);
      assert tokens == Level(store, s, now);
      ok := false;
      if tokens >= s.consume as real {
        tokens := tokens - s.consume as real;
        ok := true;
      }
      assert [s][..0] == [] && [s][0] == s;
      assert Written(store, [s], now, ok) ==
        store[s.key := Bucket(Level(store, s, now) - (if ok then s.consume as real else 0.0), now)];
      store := store[s.key := Bucket(tokens, now)];
    }

    /** multiBucketLua behind redisCheck: all buckets or none, the first short one names the reason. */
    method Check(specs: seq<LimitSpec>, now: int) returns (d: Decision)
      modifies this
      ensures d.allowed <==> AllEnough(old(store), specs, now)
      ensures d.allowed ==> store == Written(old(store), specs, now, true)
      ensures !d.allowed ==> store == old(store)
      ensures !d.allowed ==> exists i ::
        && FirstShort(store, specs, i, now) && d.scope == specs[i].scope
        && d.reason == if specs[i].reason == "" then "rate_limited" else specs[i].reason
    {
      var tokens := new real[|specs|];
      for i := 0 to |specs|
        invariant store == old(store)
        invariant forall j :: 0 <= j < i ==> tokens[j] == Level(store, specs[j], now) && Enough(store, specs[j], now)
      {
        var s := specs[i];
        var current := if s.key in store then store[s.key].t else s.burst as real;
        var lastFill := if s.key in store then store[s.key].l else now;
        var elapsed := Max(0, now - lastFill);
        var refill := s.rate * (elapsed as real) / 1000.0;
        assert refill == Fill(s.rate, elapsed);
        current := Min(s.burst as real, current + refill);
        assert current == Level(store, s, now);
        tokens[i] := current;
        if current < s.consume as real {
          assert FirstShort(store, specs, i, now);
          return Denial(s);
        }
      }
      for i := 0 to |specs|
        invariant store == Written(old(store), specs[..i], now, true)
        invariant forall j :: 0 <= j < |specs| ==> tokens[j] == Level(old(store), specs[j], now)
      {
        assert specs[..i + 1][..i] == specs[..i];
        store := store[specs[i].key := Bucket(tokens[i] - specs[i].consume as real, now)];
      }
      assert specs[..|specs|] == specs;
      return Decision(true, "", "");
    }
  }

  // ---- Runs ----

  /** A call of either script, or Redis dropping a key EXPIRE_MS or more after its last write. */
  datatype Op =
    | Take(now: int, specs: seq<LimitSpec>, single: bool)
    | Expire(now: int, key: Key)

  /** Rate and burst of every bucket, fixed for the run. */
  datatype Cfg = Cfg(rate: real, burst: int)
  type Config = map<Key, Cfg>

  /** Callers leave out limits whose rate or burst is not positive. */
  ghost predicate ConfigOk(cfg: Config) {
    forall k :: k in cfg ==> cfg[k].rate > 0.0 && cfg[k].burst > 0
  }

  ghost predicate OpOk(cfg: Config, m: Store, op: Op) {
    match op
    case Take(_, specs, single) =>
      && DistinctKeys(specs) && (single ==> |specs| == 1)
      && forall i :: 0 <= i < |specs| ==>
           specs[i].key in cfg && cfg[specs[i].key] == Cfg(specs[i].rate, specs[i].burst) && specs[i].consume >= 0
    case Expire(now, k) => k in m && k in cfg && now - m[k].l >= EXPIRE_MS
  }

  ghost predicate Granted(m: Store, op: Op) {
    op.Take? && AllEnough(m, op.specs, op.now)
  }

  /** The store after one event, where a denied call writes the refilled levels back iff `onDenial`. */
  ghost function After(m: Store, op: Op, onDenial: bool): Store {
    match op
    case Expire(_, k) => m - {k}
    case Take(now, specs, _) =>
      if Granted(m, op) then Written(m, specs, now, true)
      else if onDenial then Written(m, specs, now, false)
      else m
  }

  /** As the scripts have it: the single-bucket script writes on denial, the multi-bucket one does not. */
  ghost function Next(m: Store, op: Op): Store {
    After(m, op, op.Take? && op.single)
  }

  ghost predicate ValidRun(cfg: Config, m: Store, from: int, ops: seq<Op>)
    decreases |ops|
  {
    ops == [] || (OpOk(cfg, m, ops[0]) && from <= ops[0].now && ValidRun(cfg, Next(m, ops[0]), ops[0].now, ops[1..]))
  }

  ghost function EndStore(m: Store, ops: seq<Op>): Store
    decreases |ops|
  {
    if ops == [] then m else EndStore(Next(m, ops[0]), ops[1..])
  }

  ghost function EndTime(from: int, ops: seq<Op>): int
    decreases |ops|
  {
    if ops == [] then from else EndTime(ops[0].now, ops[1..])
  }

  /** What one call asks of bucket k. */
  function Demand(specs: seq<LimitSpec>, k: Key): int {
    if specs == [] then 0
    else if specs[|specs| - 1].key == k then specs[|specs| - 1].consume
    else Demand(specs[..|specs| - 1], k)
  }

  ghost function Taken(m: Store, op: Op, k: Key): int {
    if Granted(m, op) then Demand(op.specs, k) else 0
  }

  /** Everything bucket k admits over a run. */
  ghost function Admitted(m: Store, ops: seq<Op>, k: Key): int
    decreases |ops|
  {
    if ops == [] then 0 else Taken(m, ops[0], k) + Admitted(Next(m, ops[0]), ops[1..], k)
  }

  ghost predicate BucketOk(cfg: Config, m: Store, k: Key, now: int)
    requires k in cfg
  {
    k in m ==> 0.0 <= m[k].t <= cfg[k].burst as real && m[k].l <= now
  }

  ghost predicate StoreOk(cfg: Config, m: Store, now: int) {
    forall k :: k in cfg ==> BucketOk(cfg, m, k, now)
  }

  function At(cfg: Config, m: Store, k: Key, now: int): real
    requires k in cfg
  {
    Level(m, LimitSpec(k, cfg[k].rate, cfg[k].burst, 0, "", ""), now)
  }

  // ---- Refill arithmetic ----

  lemma {:induction false} FillAdds(rate: real, a: int, b: int)
    ensures Fill(rate, a) + Fill(rate, b) == Fill(rate, a + b)
  {
    assert ((a + b) as real) == (a as real) + (b as real);
    assert rate * ((a as real) + (b as real)) == rate * (a as real) + rate * (b as real);
  }

  lemma {:induction false} FillIs(rate: real, ms: int)
    ensures 1000.0 * Fill(rate, ms) == rate * (ms as real)
    ensures Fill(rate, EXPIRE_MS) == rate * 120.0
  {
    assert EXPIRE_MS as real == 1000.0 * 120.0;
  }

  lemma {:induction false} FillNonNegative(rate: real, ms: int)
    requires rate >= 0.0 && ms >= 0
    ensures Fill(rate, ms) >= 0.0
  {
    assert rate * (ms as real) >= 0.0;
  }

  /** Refilling twice is refilling once. */
  lemma {:induction false} LevelLater(cfg: Config, m: Store, k: Key, now: int, later: int)
    requires ConfigOk(cfg) && k in cfg && BucketOk(cfg, m, k, now) && now <= later
    ensures At(cfg, m, k, later) == Min(cfg[k].burst as real, At(cfg, m, k, now) + Fill(cfg[k].rate, later - now))
    ensures 0.0 <= At(cfg, m, k, now) <= cfg[k].burst as real
    ensures At(cfg, m, k, later) >= At(cfg, m, k, now)
  {
    var r := cfg[k].rate;
    FillNonNegative(r, later - now);
    FillNonNegative(r, 0);
    if k in m {
      FillNonNegative(r, now - m[k].l);
      FillAdds(r, now - m[k].l, later - now);
    }
  }

  // ---- One event ----

  lemma {:induction false} WrittenAt(cfg: Config, m: Store, specs: seq<LimitSpec>, now: int, take: bool, k: Key)
    requires OpOk(cfg, m, Take(now, specs, false)) && k in cfg
    ensures var m' := Written(m, specs, now, take);
      if exists i :: 0 <= i < |specs| && specs[i].key == k
      then k in m' && m'[k] == Bucket(At(cfg, m, k, now) - (if take then Demand(specs, k) as real else 0.0), now)
      else Demand(specs, k) == 0 && (k in m' <==> k in m) && (k in m ==> m'[k] == m[k])
  {
    if specs != [] {
      var init, s := specs[..|specs| - 1], specs[|specs| - 1];
      WrittenAt(cfg, m, init, now, take, k);
      assert forall i :: 0 <= i < |init| ==> init[i] == specs[i];
      if s.key == k {
        assert Level(m, s, now) == At(cfg, m, k, now);
      } else if i :| 0 <= i < |specs| && specs[i].key == k {
        assert init[i].key == k;
      }
    }
  }

  /** A call seen from bucket k: the level pays exactly for what is taken, within 0 and burst. */
  lemma {:induction false} TakeOnBucket(cfg: Config, m: Store, op: Op, onDenial: bool, k: Key)
    requires ConfigOk(cfg) && k in cfg && BucketOk(cfg, m, k, op.now) && OpOk(cfg, m, op) && op.Take?
    ensures BucketOk(cfg, After(m, op, onDenial), k, op.now)
    ensures At(cfg, After(m, op, onDenial), k, op.now) == At(cfg, m, k, op.now) - Taken(m, op, k) as real
    ensures Taken(m, op, k) >= 0
  {
    LevelLater(cfg, m, k, op.now, op.now);
    WrittenAt(cfg, m, op.specs, op.now, Granted(m, op), k);
    if i :| 0 <= i < |op.specs| && op.specs[i].key == k {
      DemandIs(op.specs, i);
      assert Level(m, op.specs[i], op.now) == At(cfg, m, k, op.now);
      assert Granted(m, op) ==> Enough(m, op.specs[i], op.now);
    }
  }

  /** An idle bucket is full again by the time Redis may drop it, if 120 s refill it from empty. */
  lemma {:induction false} FullWhenExpired(cfg: Config, m: Store, now: int, k: Key)
    requires ConfigOk(cfg) && k in cfg && BucketOk(cfg, m, k, now) && k in m && now - m[k].l >= EXPIRE_MS
    requires cfg[k].rate * 120.0 >= cfg[k].burst as real
    ensures At(cfg, m, k, now) == cfg[k].burst as real
  {
    FillIs(cfg[k].rate, EXPIRE_MS);
    LevelLater(cfg, m, k, m[k].l, m[k].l + EXPIRE_MS);
    LevelLater(cfg, m, k, m[k].l + EXPIRE_MS, now);
  }

  ghost predicate Covered(cfg: Config, op: Op) {
    op.Expire? && op.key in cfg ==> cfg[op.key].rate * 120.0 >= cfg[op.key].burst as real
  }

  lemma {:induction false} OpOnBucket(cfg: Config, m: Store, op: Op, k: Key)
    requires ConfigOk(cfg) && k in cfg && BucketOk(cfg, m, k, op.now) && OpOk(cfg, m, op)
    ensures BucketOk(cfg, Next(m, op), k, op.now)
    ensures Covered(cfg, op) || (op.Expire? && op.key != k) ==>
      At(cfg, Next(m, op), k, op.now) == At(cfg, m, k, op.now) - Taken(m, op, k) as real
  {
    if op.Take? {
      TakeOnBucket(cfg, m, op, op.single, k);
    } else if op.key == k && Covered(cfg, op) {
      FullWhenExpired(cfg, m, op.now, k);
    }
  }

  lemma {:induction false} DemandIs(specs: seq<LimitSpec>, i: nat)
    requires i < |specs| && DistinctKeys(specs)
    ensures Demand(specs, specs[i].key) == specs[i].consume
  {
    if i < |specs| - 1 {
      DemandIs(specs[..|specs| - 1], i);
    }
  }

  // ---- Admission bound ----

  /** No expiry of bucket k, or a bucket that 120 s refill. */
  ghost predicate Steady(cfg: Config, ops: seq<Op>, k: Key) {
    forall i :: 0 <= i < |ops| ==> Covered(cfg, ops[i]) || (ops[i].Expire? && ops[i].key != k)
  }

  /** The level of a bucket is a budget: what it admits is paid from the level and the refill. */
  lemma {:induction false} RunPays(cfg: Config, m: Store, from: int, ops: seq<Op>, k: Key)
    requires ConfigOk(cfg) && k in cfg && BucketOk(cfg, m, k, from) && ValidRun(cfg, m, from, ops)
    requires Steady(cfg, ops, k)
    ensures from <= EndTime(from, ops) && BucketOk(cfg, EndStore(m, ops), k, EndTime(from, ops))
    ensures Admitted(m, ops, k) as real + At(cfg, EndStore(m, ops), k, EndTime(from, ops))
            <= At(cfg, m, k, from) + Fill(cfg[k].rate, EndTime(from, ops) - from)
    decreases |ops|
  {
    if ops == [] {
      FillNonNegative(cfg[k].rate, 0);
    } else {
      var op, m' := ops[0], Next(m, ops[0]);
      LevelLater(cfg, m, k, from, op.now);
      OpOnBucket(cfg, m, op, k);
      assert forall i :: 0 <= i < |ops[1..]| ==> ops[1..][i] == ops[i + 1];
      RunPays(cfg, m', op.now, ops[1..], k);
      FillAdds(cfg[k].rate, op.now - from, EndTime(from, ops) - op.now);
    }
  }

  lemma {:induction false} RunKeepsStoreOk(cfg: Config, m: Store, from: int, ops: seq<Op>)
    requires ConfigOk(cfg) && StoreOk(cfg, m, from) && ValidRun(cfg, m, from, ops)
    ensures StoreOk(cfg, EndStore(m, ops), EndTime(from, ops))
    decreases |ops|
  {
    if ops != [] {
      forall k | k in cfg ensures BucketOk(cfg, Next(m, ops[0]), k, ops[0].now) {
        assert BucketOk(cfg, m, k, from);
        OpOnBucket(cfg, m, ops[0], k);
      }
      RunKeepsStoreOk(cfg, Next(m, ops[0]), ops[0].now, ops[1..]);
    }
  }

  lemma {:induction false} RunSplits(cfg: Config, m: Store, from: int, a: seq<Op>, b: seq<Op>)
    requires ValidRun(cfg, m, from, a + b)
    ensures ValidRun(cfg, m, from, a) && ValidRun(cfg, EndStore(m, a), EndTime(from, a), b)
    decreases |a|
  {
    if a == [] {
      assert a + b == b;
    } else {
      assert (a + b)[1..] == a[1..] + b;
      RunSplits(cfg, Next(m, a[0]), a[0].now, a[1..], b);
    }
  }

  lemma {:induction false} WindowIsPaid(cfg: Config, m: Store, window: seq<Op>, from: int, k: Key)
    requires ConfigOk(cfg) && k in cfg && BucketOk(cfg, m, k, from) && ValidRun(cfg, m, from, window)
    requires window != [] && Steady(cfg, window, k)
    ensures Admitted(m, window, k) as real
         <= cfg[k].burst as real + Fill(cfg[k].rate, EndTime(from, window) - window[0].now)
  {
    RunPays(cfg, m, window[0].now, window, k);
    var m', t1 := EndStore(m, window), EndTime(from, window);
    LevelLater(cfg, m, k, window[0].now, window[0].now);
    LevelLater(cfg, m', k, t1, t1);
  }

  lemma {:induction false} WindowRuns(cfg: Config, before: seq<Op>, window: seq<Op>, after: seq<Op>, from: int)
    requires ConfigOk(cfg) && ValidRun(cfg, map[], from, before + window + after)
    ensures var m, t0 := EndStore(map[], before), EndTime(from, before);
      StoreOk(cfg, m, t0) && ValidRun(cfg, m, t0, window)
  {
    assert before + window + after == before + (window + after);
    RunSplits(cfg, map[], from, before, window + after);
    RunSplits(cfg, EndStore(map[], before), EndTime(from, before), window, after);
    RunKeepsStoreOk(cfg, map[], from, before);
  }

  /** Every run from an empty store, every window of it: at most burst plus the refill over the window, at rate a
      second, with stored tokens always between 0 and burst. */
  lemma {:induction false} EveryWindowIsBounded(cfg: Config, before: seq<Op>, window: seq<Op>, after: seq<Op>,
                                                from: int, k: Key)
    requires ConfigOk(cfg) && k in cfg && ValidRun(cfg, map[], from, before + window + after)
    requires window != [] && Steady(cfg, window, k)
    ensures var m := EndStore(map[], before);
      && StoreOk(cfg, m, EndTime(from, before))
      && 1000.0 * (Admitted(m, window, k) as real)
         <= 1000.0 * (cfg[k].burst as real) + cfg[k].rate * ((EndTime(from, window) - window[0].now) as real)
  {
    var m, t0 := EndStore(map[], before), EndTime(from, before);
    WindowRuns(cfg, before, window, after, from);
    assert BucketOk(cfg, m, k, t0);
    WindowIsPaid(cfg, m, window, t0, k);
    InThousandths(Admitted(m, window, k), cfg[k].burst, cfg[k].rate, EndTime(t0, window) - window[0].now);
    assert EndTime(t0, window) == EndTime(from, window);
  }

  lemma {:induction false} InThousandths(admitted: int, burst: int, rate: real, ms: int)
    requires admitted as real <= burst as real + Fill(rate, ms)
    ensures 1000.0 * (admitted as real) <= 1000.0 * (burst as real) + rate * (ms as real)
  {
    FillIs(rate, ms);
  }

  // ---- What clients cannot observe ----

  /** The answers of a run in which denied call i writes levels back iff ws[i], and expiry happens iff `drops`. */
  ghost function Outcomes(m: Store, ops: seq<Op>, ws: seq<bool>, drops: bool): seq<bool>
    requires |ws| == |ops|
    decreases |ops|
  {
    if ops == [] then []
    else match ops[0]
      case Take(_, _, _) => [Granted(m, ops[0])] + Outcomes(After(m, ops[0], ws[0]), ops[1..], ws[1..], drops)
      case Expire(_, k) => Outcomes(if drops then m - {k} else m, ops[1..], ws[1..], drops)
  }

  /** The scripts' own choice: write back on denial in the single-bucket script only. */
  ghost function AsWritten(ops: seq<Op>): (ws: seq<bool>)
    ensures |ws| == |ops|
  {
    seq(|ops|, i requires 0 <= i < |ops| => ops[i].Take? && ops[i].single)
  }

  /** Stores no call at `now` or later can tell apart. */
  ghost predicate SameLevels(cfg: Config, m1: Store, m2: Store, now: int) {
    && StoreOk(cfg, m1, now) && StoreOk(cfg, m2, now)
    && forall k :: k in cfg ==> At(cfg, m1, k, now) == At(cfg, m2, k, now)
  }

  lemma {:induction false} SameLevelsLater(cfg: Config, m1: Store, m2: Store, now: int, later: int)
    requires ConfigOk(cfg) && SameLevels(cfg, m1, m2, now) && now <= later
    ensures SameLevels(cfg, m1, m2, later)
  {
    forall k | k in cfg
      ensures At(cfg, m1, k, later) == At(cfg, m2, k, later) && BucketOk(cfg, m1, k, later)
      ensures BucketOk(cfg, m2, k, later)
    {
      assert BucketOk(cfg, m1, k, now) && BucketOk(cfg, m2, k, now);
      LevelLater(cfg, m1, k, now, later);
      LevelLater(cfg, m2, k, now, later);
    }
  }

  lemma {:induction false} SameGrant(cfg: Config, m1: Store, m2: Store, op: Op)
    requires SameLevels(cfg, m1, m2, op.now) && OpOk(cfg, m1, op)
    ensures Granted(m1, op) == Granted(m2, op)
  {
    if op.Take? {
      forall i | 0 <= i < |op.specs| ensures Enough(m1, op.specs[i], op.now) == Enough(m2, op.specs[i], op.now) {
        var s := op.specs[i];
        assert Level(m1, s, op.now) == At(cfg, m1, s.key, op.now) && Level(m2, s, op.now) == At(cfg, m2, s.key, op.now);
      }
    }
  }

  lemma {:induction false} TakeKeepsSameLevels(cfg: Config, m1: Store, m2: Store, op: Op, w1: bool, w2: bool)
    requires ConfigOk(cfg) && SameLevels(cfg, m1, m2, op.now) && OpOk(cfg, m1, op) && op.Take?
    ensures SameLevels(cfg, After(m1, op, w1), After(m2, op, w2), op.now)
  {
    SameGrant(cfg, m1, m2, op);
    forall k | k in cfg
      ensures var m1', m2' := After(m1, op, w1), After(m2, op, w2);
        && At(cfg, m1', k, op.now) == At(cfg, m2', k, op.now)
        && BucketOk(cfg, m1', k, op.now) && BucketOk(cfg, m2', k, op.now)
    {
      assert BucketOk(cfg, m1, k, op.now) && BucketOk(cfg, m2, k, op.now);
      TakeOnBucket(cfg, m1, op, w1, k);
      TakeOnBucket(cfg, m2, op, w2, k);
    }
  }

  lemma {:induction false} ExpireKeepsSameLevels(cfg: Config, m1: Store, m2: Store, op: Op, drops: bool)
    requires ConfigOk(cfg) && SameLevels(cfg, m1, m2, op.now) && OpOk(cfg, m1, op) && op.Expire? && Covered(cfg, op)
    ensures SameLevels(cfg, m1 - {op.key}, if drops then m2 - {op.key} else m2, op.now)
  {
    var k0 := op.key;
    assert BucketOk(cfg, m1, k0, op.now) && BucketOk(cfg, m2, k0, op.now);
    FullWhenExpired(cfg, m1, op.now, k0);
    forall k | k in cfg
      ensures var m2' := if drops then m2 - {k0} else m2;
        && At(cfg, m1 - {k0}, k, op.now) == At(cfg, m2', k, op.now)
        && BucketOk(cfg, m1 - {k0}, k, op.now) && BucketOk(cfg, m2', k, op.now)
    {
      assert BucketOk(cfg, m1, k, op.now) && BucketOk(cfg, m2, k, op.now);
    }
  }

  /** Neither what denied calls write back nor the expiry of buckets that 120 s refill can be observed. */
  lemma {:induction false} HiddenChoices(cfg: Config, m1: Store, m2: Store, from: int, ops: seq<Op>, ws: seq<bool>,
                                         drops: bool)
    requires ConfigOk(cfg) && ValidRun(cfg, m1, from, ops) && SameLevels(cfg, m1, m2, from)
    requires |ws| == |ops| && forall i :: 0 <= i < |ops| ==> Covered(cfg, ops[i])
    ensures Outcomes(m1, ops, AsWritten(ops), true) == Outcomes(m2, ops, ws, drops)
    decreases |ops|
  {
    if ops != [] {
      var op := ops[0];
      SameLevelsLater(cfg, m1, m2, from, op.now);
      assert AsWritten(ops)[1..] == AsWritten(ops[1..]);
      assert forall i :: 0 <= i < |ops[1..]| ==> ops[1..][i] == ops[i + 1];
      if op.Take? {
        SameGrant(cfg, m1, m2, op);
        TakeKeepsSameLevels(cfg, m1, m2, op, op.single, ws[0]);
        HiddenChoices(cfg, Next(m1, op), After(m2, op, ws[0]), op.now, ops[1..], ws[1..], drops);
      } else {
        ExpireKeepsSameLevels(cfg, m1, m2, op, drops);
        HiddenChoices(cfg, Next(m1, op), if drops then m2 - {op.key} else m2, op.now, ops[1..], ws[1..], drops);
      }
    }
  }

  /** Dropping keys after 120 s changes no answer of this run. */
  ghost predicate ExpiryHidden(ops: seq<Op>) {
    Outcomes(map[], ops, AsWritten(ops), true) == Outcomes(map[], ops, AsWritten(ops), false)
  }

  ghost predicate Bounded(cfg: Config, ops: seq<Op>, k: Key)
    requires k in cfg && ops != []
  {
    1000.0 * (Admitted(map[], ops, k) as real)
    <= 1000.0 * (cfg[k].burst as real) + cfg[k].rate * ((EndTime(0, ops) - ops[0].now) as real)
  }

  /** A call that asks bucket k for all it can hold. */
  ghost function Burst(cfg: Config, k: Key, now: int): Op
    requires k in cfg
  {
    Take(now, [LimitSpec(k, cfg[k].rate, cfg[k].burst, cfg[k].burst, "", "")], true)
  }

  lemma {:induction false} BurstOk(cfg: Config, k: Key, m: Store, now: int)
    requires ConfigOk(cfg) && k in cfg
    ensures OpOk(cfg, m, Burst(cfg, k, now)) && Demand(Burst(cfg, k, now).specs, k) == cfg[k].burst
  {
    DemandIs(Burst(cfg, k, now).specs, 0);
  }

  /** A full bucket grants a burst and is empty after it. */
  lemma {:induction false} BurstEmpties(cfg: Config, k: Key, now: int)
    requires ConfigOk(cfg) && k in cfg
    ensures Granted(map[], Burst(cfg, k, now)) && Next(map[], Burst(cfg, k, now)) == map[k := Bucket(0.0, now)]
    ensures Taken(map[], Burst(cfg, k, now), k) == cfg[k].burst
  {
    var empty: Store := map[];
    var specs := Burst(cfg, k, now).specs;
    assert Fill(cfg[k].rate, 0) == 0.0;
    assert Level(empty, specs[0], now) == cfg[k].burst as real;
    assert specs[..0] == [];
    assert Written(empty, specs[..0], now, true) == empty;
    BurstOk(cfg, k, empty, now);
  }

  /** A bucket emptied at 0 does not grant a burst at EXPIRE_MS. */
  lemma {:induction false} EmptiedDenies(cfg: Config, k: Key)
    requires ConfigOk(cfg) && k in cfg && cfg[k].rate * 120.0 < cfg[k].burst as real
    ensures !Granted(map[k := Bucket(0.0, 0)], Burst(cfg, k, EXPIRE_MS))
  {
    var m: Store := map[k := Bucket(0.0, 0)];
    var specs := Burst(cfg, k, EXPIRE_MS).specs;
    FillIs(cfg[k].rate, EXPIRE_MS);
    assert Level(m, specs[0], EXPIRE_MS) == Fill(cfg[k].rate, EXPIRE_MS);
    assert !Enough(m, specs[0], EXPIRE_MS);
  }

  /** Burst, wait until the key expires, burst again. */
  ghost function TwoBursts(cfg: Config, k: Key): seq<Op>
    requires k in cfg
  {
    [Burst(cfg, k, 0), Expire(EXPIRE_MS, k), Burst(cfg, k, EXPIRE_MS)]
  }

  lemma {:induction false} TwoBurstsParts(cfg: Config, k: Key)
    requires ConfigOk(cfg) && k in cfg
    ensures var ops := TwoBursts(cfg, k);
      && ops[1..] == [ops[1], ops[2]] && ops[1..][1..] == [ops[2]] && ops[1..][1..][1..] == []
      && Next(map[], ops[0]) == map[k := Bucket(0.0, 0)] && Next(map[k := Bucket(0.0, 0)], ops[1]) == map[]
  {
    BurstEmpties(cfg, k, 0);
  }

  lemma {:induction false} TwoBurstsRun(cfg: Config, k: Key)
    requires ConfigOk(cfg) && k in cfg
    ensures ValidRun(cfg, map[], 0, TwoBursts(cfg, k)) && EndTime(0, TwoBursts(cfg, k)) == EXPIRE_MS
  {
    var ops := TwoBursts(cfg, k);
    TwoBurstsParts(cfg, k);
    BurstOk(cfg, k, map[], 0);
    BurstOk(cfg, k, map[], EXPIRE_MS);
    assert ValidRun(cfg, map[], EXPIRE_MS, [ops[2]]) && EndTime(EXPIRE_MS, [ops[2]]) == EXPIRE_MS;
    assert ops[1..][0] == ops[1] && EndTime(0, ops[1..]) == EndTime(ops[1].now, ops[1..][1..]);
    assert ValidRun(cfg, map[k := Bucket(0.0, 0)], 0, ops[1..]);
  }

  lemma {:induction false} TwoBurstsAdmit(cfg: Config, k: Key)
    requires ConfigOk(cfg) && k in cfg
    ensures Admitted(map[], TwoBursts(cfg, k), k) == 2 * cfg[k].burst
  {
    var ops := TwoBursts(cfg, k);
    TwoBurstsParts(cfg, k);
    BurstEmpties(cfg, k, 0);
    BurstEmpties(cfg, k, EXPIRE_MS);
    assert Admitted(map[], [ops[2]], k) == cfg[k].burst;
    assert Admitted(map[k := Bucket(0.0, 0)], ops[1..], k) == cfg[k].burst;
  }

  lemma {:induction false} TwoBurstsShow(cfg: Config, k: Key)
    requires ConfigOk(cfg) && k in cfg && cfg[k].rate * 120.0 < cfg[k].burst as real
    ensures !ExpiryHidden(TwoBursts(cfg, k))
  {
    var ops := TwoBursts(cfg, k);
    var ws, m := AsWritten(ops), map[k := Bucket(0.0, 0)];
    TwoBurstsParts(cfg, k);
    BurstEmpties(cfg, k, 0);
    BurstEmpties(cfg, k, EXPIRE_MS);
    EmptiedDenies(cfg, k);
    assert After(map[], ops[0], ws[0]) == m;
    assert Outcomes(m, ops[1..], ws[1..], true) == Outcomes(map[], [ops[2]], ws[1..][1..], true);
    assert Outcomes(m, ops[1..], ws[1..], false) == Outcomes(m, [ops[2]], ws[1..][1..], false);
    assert Outcomes(map[], [ops[2]], ws[1..][1..], true)[0] != Outcomes(m, [ops[2]], ws[1..][1..], false)[0];
    assert Outcomes(map[], ops, ws, true)[1] != Outcomes(map[], ops, ws, false)[1];
  }

  /** A bucket that 120 s do not refill answers differently once dropped: burst, wait, burst again. */
  lemma {:induction false} EarlyExpiryShows(cfg: Config, k: Key) returns (ops: seq<Op>)
    requires ConfigOk(cfg) && k in cfg && cfg[k].rate * 120.0 < cfg[k].burst as real
    ensures ValidRun(cfg, map[], 0, ops) && !ExpiryHidden(ops)
    ensures ops != [] && !Bounded(cfg, ops, k)
  {
    ops := TwoBursts(cfg, k);
    TwoBurstsRun(cfg, k);
    TwoBurstsShow(cfg, k);
    TwoBurstsAdmit(cfg, k);
    assert cfg[k].rate * (EXPIRE_MS as real) == 1000.0 * (cfg[k].rate * 120.0);
  }

  /** The 120 s expiry is unobservable exactly when 120 s refill every bucket: rate * 120 >= burst. */
  lemma {:induction false} ExpiryHiddenExactly(cfg: Config)
    requires ConfigOk(cfg)
    ensures (forall ops :: ValidRun(cfg, map[], 0, ops) ==> ExpiryHidden(ops)) <==>
            (forall k :: k in cfg ==> cfg[k].rate * 120.0 >= cfg[k].burst as real)
  {
    if forall k :: k in cfg ==> cfg[k].rate * 120.0 >= cfg[k].burst as real {
      forall ops | ValidRun(cfg, map[], 0, ops) ensures ExpiryHidden(ops) {
        HiddenChoices(cfg, map[], map[], 0, ops, AsWritten(ops), false);
      }
    } else {
      var k :| k in cfg && cfg[k].rate * 120.0 < cfg[k].burst as real;
      var ops := EarlyExpiryShows(cfg, k);
    }
  }

  /** With expiry in the picture, the admission bound of one bucket holds in every run under that condition only. */
  lemma {:induction false} BoundHoldsExactly(cfg: Config, k: Key)
    requires ConfigOk(cfg) && k in cfg
    ensures (forall ops :: ops != [] && ValidRun(cfg, map[], 0, ops) ==> Bounded(cfg, ops, k)) <==>
            cfg[k].rate * 120.0 >= cfg[k].burst as real
  {
    if cfg[k].rate * 120.0 >= cfg[k].burst as real {
      forall ops | ops != [] && ValidRun(cfg, map[], 0, ops) ensures Bounded(cfg, ops, k) {
        assert [] + ops + [] == ops;
        EveryWindowIsBounded(cfg, [], ops, [], 0, k);
      }
    } else {
      var ops := EarlyExpiryShows(cfg, k);
    }
  }

  // ---- Exactly how much is granted ----

  /** A call for n tokens of one bucket, by either script. */
  function Ask(cfg: Config, k: Key, n: int, now: int, single: bool): Op
    requires k in cfg
  {
    Take(now, [LimitSpec(k, cfg[k].rate, cfg[k].burst, n, "", "")], single)
  }

  lemma {:induction false} AskedOfFull(cfg: Config, k: Key, m: int, t0: int, single: bool)
    requires ConfigOk(cfg) && k in cfg
    ensures Granted(map[], Ask(cfg, k, m, t0, single)) <==> m <= cfg[k].burst
    ensures var b := cfg[k].burst as real;
      Next(map[], Ask(cfg, k, m, t0, single)) ==
        if m <= cfg[k].burst then map[k := Bucket(b - m as real, t0)]
        else if single then map[k := Bucket(b, t0)] else map[]
  {
    var empty: Store := map[];
    var specs := Ask(cfg, k, m, t0, single).specs;
    assert Fill(cfg[k].rate, 0) == 0.0;
    assert Level(empty, specs[0], t0) == cfg[k].burst as real;
    assert specs[..0] == [];
    assert Written(empty, specs[..0], t0, true) == empty && Written(empty, specs[..0], t0, false) == empty;
    assert AllEnough(empty, specs, t0) <==> Enough(empty, specs[0], t0);
  }

  lemma {:induction false} AskedOfRest(cfg: Config, k: Key, left: int, n: int, t0: int, t1: int, single: bool)
    requires ConfigOk(cfg) && k in cfg && t0 <= t1 && 0 <= left <= cfg[k].burst
    ensures Granted(map[k := Bucket(left as real, t0)], Ask(cfg, k, n, t1, single)) <==>
      n <= cfg[k].burst && 1000.0 * (n as real) <= 1000.0 * (left as real) + cfg[k].rate * ((t1 - t0) as real)
  {
    var m: Store := map[k := Bucket(left as real, t0)];
    var specs := Ask(cfg, k, n, t1, single).specs;
    FillIs(cfg[k].rate, t1 - t0);
    assert Level(m, specs[0], t1) == Min(cfg[k].burst as real, left as real + Fill(cfg[k].rate, t1 - t0));
    assert AllEnough(m, specs, t1) <==> Enough(m, specs[0], t1);
  }

  lemma {:induction false} AskedOfFullLater(cfg: Config, k: Key, n: int, t1: int, single: bool)
    requires ConfigOk(cfg) && k in cfg
    ensures Granted(map[], Ask(cfg, k, n, t1, single)) <==> n <= cfg[k].burst
  {
    AskedOfFull(cfg, k, n, t1, single);
  }

  /** Two calls on a new bucket, by either script: the first gets m tokens iff m is within burst, the second gets n
      iff n is within burst and within what the first left and the milliseconds in between refilled at rate a second. */
  lemma {:induction false} TwoCallsExactly(cfg: Config, k: Key, m: int, n: int, t0: int, t1: int, single: bool)
    requires ConfigOk(cfg) && k in cfg && t0 <= t1 && m >= 0
    ensures var ops := [Ask(cfg, k, m, t0, single), Ask(cfg, k, n, t1, single)];
      var taken := if m <= cfg[k].burst then m else 0;
      Outcomes(map[], ops, AsWritten(ops), true) ==
        [m <= cfg[k].burst,
         n <= cfg[k].burst
         && 1000.0 * (n as real) <= 1000.0 * ((cfg[k].burst - taken) as real) + cfg[k].rate * ((t1 - t0) as real)]
  {
    var ops := [Ask(cfg, k, m, t0, single), Ask(cfg, k, n, t1, single)];
    var ws, b := AsWritten(ops), cfg[k].burst;
    AskedOfFull(cfg, k, m, t0, single);
    AskedOfFullLater(cfg, k, n, t1, single);
    AskedOfRest(cfg, k, if m <= b then b - m else b, n, t0, t1, single);
    FillNonNegative(cfg[k].rate, t1 - t0);
    FillIs(cfg[k].rate, t1 - t0);
    var m1 := Next(map[], ops[0]);
    assert ops[1..] == [ops[1]] && [ops[1]][1..] == [];
    assert After(map[], ops[0], ws[0]) == m1;
    assert Outcomes(m1, ops[1..], ws[1..], true) == [Granted(m1, ops[1])] + [];
  }
}
