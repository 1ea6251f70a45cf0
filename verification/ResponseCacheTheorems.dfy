/**
 What the layered cache promises over whole runs: it answers as one unbounded map with expiry does, whatever the
 memory layer evicts, and the memory layer keeps what was used recently.
 */
module ResponseCacheTheorems {
  import opened Options
  import opened ResponseCache

  // ---- One unbounded map ----

  /** An entry lives for the time given, or else for the default; without either it never expires. */
  function Deadline(ttl: int, default_: int, now: int): Option<int> {
    if ttl > 0 then Some(now + ttl) else if default_ > 0 then Some(now + default_) else None
  }

  function MapStep(ttl: int, m: map<Key, Slot>, ev: Event): map<Key, Slot> {
    match ev.call
    case Get(_) => m
    case Set(k, e, t) => if e.None? then m else m[k := Slot(e.value, Deadline(t, ttl, ev.now))]
    case Delete(k) => m - {k}
  }

  function MapAnswer(m: map<Key, Slot>, ev: Event): Answer {
    match ev.call
    case Get(k) => if k in m && !Expired(m[k], ev.now) then Hit(m[k].value) else Miss
    case Set(_, e, _) => if e.None? then Failed else Done
    case Delete(_) => Done
  }

  function MapAnswers(ttl: int, m: map<Key, Slot>, evs: seq<Event>): seq<Answer>
    decreases |evs|
  {
    if evs == [] then [] else [MapAnswer(m, evs[0])] + MapAnswers(ttl, MapStep(ttl, m, evs[0]), evs[1..])
  }

  function LayeredAnswers(cfg: Config, s: Layers, evs: seq<Event>): seq<Answer>
    decreases |evs|
  {
    if evs == [] then [] else [LayeredAnswer(s, evs[0])] + LayeredAnswers(cfg, LayeredStep(cfg, s, evs[0]), evs[1..])
  }

  ghost predicate ClockRuns(now: int, evs: seq<Event>) {
    && (forall i :: 0 <= i < |evs| ==> now <= evs[i].now)
    && (forall i, j :: 0 <= i < j < |evs| ==> evs[i].now <= evs[j].now)
  }

  ghost predicate AllUp(evs: seq<Event>) { forall i :: 0 <= i < |evs| ==> evs[i].up }

  // ---- How each operation changes what a key maps to ----

  lemma {:induction false} WithoutFinds(s: seq<Item>, k: Key, x: Key)
    requires Unique(s)
    ensures Unique(Without(s, k))
    ensures Find(Without(s, k), x) == if x == k then None else Find(s, x)
  {
    var r, i, j := Without(s, k), IndexOf(s, k), IndexOf(s, x);
    if j < |s| && x != k {
      assert i < |s| ==> r[if j < i then j else j - 1] == s[j];
    }
    if IndexOf(r, x) < |r| {
      var h := IndexOf(r, x);
      assert r[h] == if i == |s| || h < i then s[h] else s[h + 1];
    }
  }

  lemma {:induction false} TouchFinds(s: seq<Item>, k: Key, now: int, x: Key)
    requires Unique(s)
    ensures Unique(Touch(s, k, now))
    ensures Fresh(Find(Touch(s, k, now), x), now) == Fresh(Find(s, x), now)
  {
    WithoutFinds(s, k, k);
    WithoutFinds(s, k, x);
    if Find(s, k).Some? {
      ConsFinds(Item(k, Find(s, k).value), Without(s, k), x);
    }
  }

  lemma {:induction false} ConsFinds(it: Item, s: seq<Item>, x: Key)
    requires Unique(s) && Find(s, it.key) == None
    ensures Unique([it] + s)
    ensures Find([it] + s, x) == if x == it.key then Some(it.slot) else Find(s, x)
  {
    var r := [it] + s;
    assert r[1..] == s;
  }

  lemma {:induction false} TakeFinds(s: seq<Item>, n: nat, x: Key)
    requires Unique(s)
    ensures Unique(Take(s, n)) && (Find(Take(s, n), x) == None || Find(Take(s, n), x) == Find(s, x))
  {
    var r := Take(s, n);
    assert forall i :: 0 <= i < |r| ==> r[i] == s[i];
    var i := IndexOf(r, x);
    if i < |r| {
      assert s[i].key == x;
      assert IndexOf(s, x) == i;
    }
  }

  lemma {:induction false} PutFinds(s: seq<Item>, it: Item, cap: nat, x: Key)
    requires Unique(s)
    ensures Unique(Put(s, it, cap))
    ensures var f := Find(Put(s, it, cap), x);
      f == None || f == if x == it.key then Some(it.slot) else Find(s, x)
  {
    WithoutFinds(s, it.key, it.key);
    WithoutFinds(s, it.key, x);
    ConsFinds(it, Without(s, it.key), x);
    TakeFinds([it] + Without(s, it.key), cap, x);
  }

  // ---- The layers against the map ----

  /** Redis agrees with the map on everything fresh, and what the memory layer holds fresh is in the map. */
  ghost predicate Coherent(s: Layers, m: map<Key, Slot>, now: int) {
    && s.l1.Some?
    && (forall k :: Fresh(Lookup(s.l1.value, k), now) == Fresh(Lookup(m, k), now))
    && (s.l0.Some? ==> Unique(s.l0.value) && Included(s.l0.value, m, now))
  }

  ghost predicate Included(s: seq<Item>, m: map<Key, Slot>, now: int) {
    forall k :: IncludedAt(s, m, now, k)
  }

  ghost predicate IncludedAt(s: seq<Item>, m: map<Key, Slot>, now: int, k: Key) {
    Fresh(Find(s, k), now) == None || Fresh(Find(s, k), now) == Fresh(Lookup(m, k), now)
  }

  /** Time only takes fresh entries away, and from both sides at once. */
  lemma {:induction false} CoherentLater(s: Layers, m: map<Key, Slot>, now: int, then_: int)
    requires Coherent(s, m, now) && now <= then_
    ensures Coherent(s, m, then_)
  {
    forall k ensures Fresh(Lookup(s.l1.value, k), then_) == Fresh(Lookup(m, k), then_) {
      assert Fresh(Lookup(s.l1.value, k), now) == Fresh(Lookup(m, k), now);
    }
    if s.l0.Some? {
      forall k ensures IncludedAt(s.l0.value, m, then_, k) {
        assert IncludedAt(s.l0.value, m, now, k);
      }
    }
  }

  lemma {:induction false} WriteStaysIncluded(
      s: seq<Item>, m: map<Key, Slot>, now: int, it: Item, cap: nat, x: Key)
    requires Unique(s) && IncludedAt(s, m, now, x)
    ensures Unique(Put(s, it, cap)) && IncludedAt(Put(s, it, cap), m[it.key := it.slot], now, x)
  {
    PutFinds(s, it, cap, x);
  }

  lemma {:induction false} DeletionStaysIncluded(s: seq<Item>, m: map<Key, Slot>, now: int, k: Key, x: Key)
    requires Unique(s) && IncludedAt(s, m, now, x)
    ensures Unique(Without(s, k)) && IncludedAt(Without(s, k), m - {k}, now, x)
  {
    WithoutFinds(s, k, x);
  }

  lemma {:induction false} KeyStaysIncluded(cfg: Config, s: seq<Item>, m: map<Key, Slot>, ev: Event, x: Key)
    requires Unique(s) && IncludedAt(s, m, ev.now, x)
    ensures Unique(MemStep(cfg, s, ev)) && IncludedAt(MemStep(cfg, s, ev), MapStep(cfg.ttl0, m, ev), ev.now, x)
  {
    match ev.call
    case Get(k) => TouchFinds(s, k, ev.now, x);
    case Delete(k) => DeletionStaysIncluded(s, m, ev.now, k, x);
    case Set(k, e, ttl) =>
      if e.Some? {
        WriteStaysIncluded(s, m, ev.now, Item(k, Slot(e.value, Expiry(ttl, cfg.ttl0, ev.now))), cfg.capacity, x);
        assert Expiry(ttl, cfg.ttl0, ev.now) == Deadline(ttl, cfg.ttl0, ev.now);
      }
  }

  lemma {:induction false} MemoryStaysIncluded(cfg: Config, s: seq<Item>, m: map<Key, Slot>, ev: Event)
    requires Unique(s) && Included(s, m, ev.now)
    ensures Unique(MemStep(cfg, s, ev)) && Included(MemStep(cfg, s, ev), MapStep(cfg.ttl0, m, ev), ev.now)
  {
    KeyStaysIncluded(cfg, s, m, ev, "");
    forall x ensures IncludedAt(MemStep(cfg, s, ev), MapStep(cfg.ttl0, m, ev), ev.now, x) {
      KeyStaysIncluded(cfg, s, m, ev, x);
    }
  }

  lemma {:induction false} RedisStaysCoherent(cfg: Config, l1: map<Key, Slot>, m: map<Key, Slot>, ev: Event, x: Key)
    requires Fresh(Lookup(l1, x), ev.now) == Fresh(Lookup(m, x), ev.now) && cfg.ttl0 == cfg.ttl1
    requires ev.up || Idle(l1, ev)
    ensures Fresh(Lookup(RedisStep(cfg.ttl1, l1, ev), x), ev.now) == Fresh(Lookup(MapStep(cfg.ttl0, m, ev), x), ev.now)
  {
  }

  /** The call would change nothing that Redis can still serve. */
  ghost predicate Idle(l1: map<Key, Slot>, ev: Event) {
    match ev.call
    case Get(_) => true
    case Set(_, e, _) => e.None?
    case Delete(k) => Fresh(Lookup(l1, k), ev.now) == None
  }

  /** Redis answers the call, or it does not matter that it does not: a Get the memory layer answers, a Set of no
      entry, or a Delete of a key that Redis does not hold fresh. */
  ghost predicate Harmless(s: Layers, ev: Event)
    requires s.l1.Some?
  {
    ev.up || (Idle(s.l1.value, ev) && (ev.call.Get? ==> L0Value(s, ev).Some?))
  }

  lemma {:induction false} StepStaysCoherent(cfg: Config, s: Layers, m: map<Key, Slot>, ev: Event)
    requires Coherent(s, m, ev.now) && cfg.ttl0 == cfg.ttl1 && Harmless(s, ev)
    ensures Coherent(LayeredStep(cfg, s, ev), MapStep(cfg.ttl0, m, ev), ev.now)
    ensures LayeredAnswer(s, ev) == MapAnswer(m, ev)
  {
    var s', m', k := LayeredStep(cfg, s, ev), MapStep(cfg.ttl0, m, ev), ev.call.key;
    if s.l0.Some? {
      MemoryStaysIncluded(cfg, s.l0.value, m, ev);
      assert IncludedAt(s.l0.value, m, ev.now, k);
    }
    forall x ensures Fresh(Lookup(s'.l1.value, x), ev.now) == Fresh(Lookup(m', x), ev.now) {
      assert Fresh(Lookup(s.l1.value, x), ev.now) == Fresh(Lookup(m, x), ev.now);
      RedisStaysCoherent(cfg, s.l1.value, m, ev, x);
    }
    assert Fresh(Lookup(s.l1.value, k), ev.now) == Fresh(Lookup(m, k), ev.now);
  }

  ghost predicate AllHarmless(cfg: Config, s: Layers, evs: seq<Event>)
    requires s.l1.Some?
    decreases |evs|
  {
    evs == [] || (Harmless(s, evs[0]) && AllHarmless(cfg, LayeredStep(cfg, s, evs[0]), evs[1..]))
  }

  lemma {:induction false} CoherentAnswers(cfg: Config, s: Layers, m: map<Key, Slot>, now: int, evs: seq<Event>)
    requires Coherent(s, m, now) && cfg.ttl0 == cfg.ttl1
    requires ClockRuns(now, evs) && AllHarmless(cfg, s, evs)
    ensures LayeredAnswers(cfg, s, evs) == MapAnswers(cfg.ttl0, m, evs)
    decreases |evs|
  {
    if evs != [] {
      var ev := evs[0];
      CoherentLater(s, m, now, ev.now);
      StepStaysCoherent(cfg, s, m, ev);
      CoherentAnswers(cfg, LayeredStep(cfg, s, ev), MapStep(cfg.ttl0, m, ev), ev.now, evs[1..]);
    }
  }

  function Empty(l0: bool): Layers { Layers(if l0 then Some([]) else None, Some(map[])) }

  /** From empty caches, with or without a memory layer and at any capacity, every sequence of calls of which Redis
      misses harmless ones only gets exactly the answers of one unbounded map with expiry. */
  lemma {:induction false} LayeredAnswersLikeOneMap(cfg: Config, l0: bool, evs: seq<Event>)
    requires cfg.ttl0 == cfg.ttl1 && AllHarmless(cfg, Empty(l0), evs)
    requires forall i, j :: 0 <= i < j < |evs| ==> evs[i].now <= evs[j].now
    ensures LayeredAnswers(cfg, Empty(l0), evs) == MapAnswers(cfg.ttl0, map[], evs)
  {
    if evs != [] {
      CoherentAnswers(cfg, Empty(l0), map[], evs[0].now, evs);
    }
  }

  // ---- No other missed call is harmless ----

  lemma {:induction false} UpIsHarmless(cfg: Config, s: Layers, evs: seq<Event>)
    requires s.l1.Some? && AllUp(evs)
    ensures AllHarmless(cfg, s, evs)
    decreases |evs|
  {
    if evs != [] {
      UpIsHarmless(cfg, LayeredStep(cfg, s, evs[0]), evs[1..]);
    }
  }

  /** The first n calls, continued by calls that Redis answers, get the answers of the map. */
  ghost predicate Unnoticed(cfg: Config, s: Layers, m: map<Key, Slot>, now: int, evs: seq<Event>, n: nat,
                            more: seq<Event>)
    requires n <= |evs|
  {
    ClockRuns(now, evs[..n] + more) && AllUp(more) ==>
      LayeredAnswers(cfg, s, evs[..n] + more) == MapAnswers(cfg.ttl0, m, evs[..n] + more)
  }

  /** At no point of the run, and nothing that follows, can be told from the map. */
  ghost predicate NeverNoticed(cfg: Config, s: Layers, m: map<Key, Slot>, now: int, evs: seq<Event>) {
    forall n: nat, more: seq<Event> :: n <= |evs| ==> Unnoticed(cfg, s, m, now, evs, n, more)
  }

  /** Any other missed call is answered differently itself, or the next Get of its key is. */
  lemma {:induction false} HarmfulIsNoticed(cfg: Config, s: Layers, m: map<Key, Slot>, now: int, evs: seq<Event>)
    requires evs != [] && Coherent(s, m, evs[0].now) && ClockRuns(now, evs) && !Harmless(s, evs[0])
    ensures !NeverNoticed(cfg, s, m, now, evs)
  {
    var ev := evs[0];
    var k := ev.call.key;
    assert Fresh(Lookup(s.l1.value, k), ev.now) == Fresh(Lookup(m, k), ev.now);
    var more := if ev.call.Delete? then [Event(Get(k), ev.now, true)] else [];
    var run := evs[..1] + more;
    var s', m' := LayeredStep(cfg, s, ev), MapStep(cfg.ttl0, m, ev);
    assert run[0] == ev && run[1..] == more;
    assert LayeredAnswers(cfg, s, run) == [LayeredAnswer(s, ev)] + LayeredAnswers(cfg, s', more);
    assert MapAnswers(cfg.ttl0, m, run) == [MapAnswer(m, ev)] + MapAnswers(cfg.ttl0, m', more);
    if ev.call.Delete? {
      if s.l0.Some? {
        WithoutFinds(s.l0.value, k, k);
      }
      assert LayeredAnswer(s', more[0]).Hit? && MapAnswer(m', more[0]) == Miss;
      assert LayeredAnswers(cfg, s, run)[1] != MapAnswers(cfg.ttl0, m, run)[1];
    } else {
      assert LayeredAnswers(cfg, s, run)[0] != MapAnswers(cfg.ttl0, m, run)[0];
    }
    assert !Unnoticed(cfg, s, m, now, evs, 1, more);
  }

  lemma {:induction false} HarmlessIsUnnoticed(cfg: Config, s: Layers, m: map<Key, Slot>, now: int, evs: seq<Event>,
                                               n: nat, more: seq<Event>)
    requires Coherent(s, m, now) && cfg.ttl0 == cfg.ttl1 && n <= |evs| && AllHarmless(cfg, s, evs)
    ensures Unnoticed(cfg, s, m, now, evs, n, more)
  {
    if ClockRuns(now, evs[..n] + more) && AllUp(more) {
      HarmlessThenUp(cfg, s, evs, n, more);
      CoherentAnswers(cfg, s, m, now, evs[..n] + more);
    }
  }

  lemma {:induction false} HarmlessCons(cfg: Config, s: Layers, ev: Event, rest: seq<Event>)
    requires s.l1.Some? && Harmless(s, ev) && AllHarmless(cfg, LayeredStep(cfg, s, ev), rest)
    ensures AllHarmless(cfg, s, [ev] + rest)
  {
    assert ([ev] + rest)[1..] == rest;
  }

  lemma {:induction false} FirstThenRest(evs: seq<Event>, n: nat, more: seq<Event>)
    requires 0 < n <= |evs|
    ensures evs[..n] + more == [evs[0]] + (evs[1..][..n - 1] + more)
  {
  }

  lemma {:induction false} HarmlessThenUp(cfg: Config, s: Layers, evs: seq<Event>, n: nat, more: seq<Event>)
    requires s.l1.Some? && n <= |evs| && AllHarmless(cfg, s, evs) && AllUp(more)
    ensures AllHarmless(cfg, s, evs[..n] + more)
    decreases n
  {
    if n == 0 {
      assert evs[..0] + more == more;
      UpIsHarmless(cfg, s, more);
    } else {
      HarmlessThenUp(cfg, LayeredStep(cfg, s, evs[0]), evs[1..], n - 1, more);
      FirstThenRest(evs, n, more);
      HarmlessCons(cfg, s, evs[0], evs[1..][..n - 1] + more);
    }
  }

  /** What is not noticed in a run is not noticed in the rest of it. */
  lemma {:induction false} NeverNoticedLater(cfg: Config, s: Layers, m: map<Key, Slot>, now: int, evs: seq<Event>)
    requires evs != [] && now <= evs[0].now && NeverNoticed(cfg, s, m, now, evs)
    ensures NeverNoticed(cfg, LayeredStep(cfg, s, evs[0]), MapStep(cfg.ttl0, m, evs[0]), evs[0].now, evs[1..])
  {
    var ev, rest := evs[0], evs[1..];
    var s', m' := LayeredStep(cfg, s, ev), MapStep(cfg.ttl0, m, ev);
    forall n: nat, more: seq<Event> | n <= |rest| ensures Unnoticed(cfg, s', m', ev.now, rest, n, more) {
      var run := evs[..n + 1] + more;
      assert run[0] == ev && run[1..] == rest[..n] + more;
      assert Unnoticed(cfg, s, m, now, evs, n + 1, more);
      if ClockRuns(ev.now, rest[..n] + more) && AllUp(more) {
        assert ClockRuns(now, run) by {
          assert forall i :: 1 <= i < |run| ==> run[i] == (rest[..n] + more)[i - 1];
        }
        assert LayeredAnswers(cfg, s, run)[1..] == LayeredAnswers(cfg, s', rest[..n] + more);
        assert MapAnswers(cfg.ttl0, m, run)[1..] == MapAnswers(cfg.ttl0, m', rest[..n] + more);
      }
    }
  }

  lemma {:induction false} NoticedExactly(cfg: Config, s: Layers, m: map<Key, Slot>, now: int, evs: seq<Event>)
    requires Coherent(s, m, now) && cfg.ttl0 == cfg.ttl1 && ClockRuns(now, evs)
    ensures NeverNoticed(cfg, s, m, now, evs) <==> AllHarmless(cfg, s, evs)
    decreases |evs|
  {
    if AllHarmless(cfg, s, evs) {
      forall n: nat, more: seq<Event> | n <= |evs| ensures Unnoticed(cfg, s, m, now, evs, n, more) {
        HarmlessIsUnnoticed(cfg, s, m, now, evs, n, more);
      }
    } else {
      var ev := evs[0];
      CoherentLater(s, m, now, ev.now);
      if !Harmless(s, ev) {
        HarmfulIsNoticed(cfg, s, m, now, evs);
      } else if NeverNoticed(cfg, s, m, now, evs) {
        StepStaysCoherent(cfg, s, m, ev);
        NeverNoticedLater(cfg, s, m, now, evs);
        NoticedExactly(cfg, LayeredStep(cfg, s, ev), MapStep(cfg.ttl0, m, ev), ev.now, evs[1..]);
      }
    }
  }

  /** From empty caches: every prefix of a run, whatever calls that Redis answers follow it, gets the answers of one
      unbounded map iff Redis misses harmless calls only. */
  lemma {:induction false} LikeOneMapExactly(cfg: Config, l0: bool, now: int, evs: seq<Event>)
    requires cfg.ttl0 == cfg.ttl1 && ClockRuns(now, evs)
    ensures NeverNoticed(cfg, Empty(l0), map[], now, evs) <==> AllHarmless(cfg, Empty(l0), evs)
  {
    NoticedExactly(cfg, Empty(l0), map[], now, evs);
  }

  // ---- How long an entry is served ----

  function MapRun(ttl: int, m: map<Key, Slot>, evs: seq<Event>): map<Key, Slot>
    decreases |evs|
  {
    if evs == [] then m else MapRun(ttl, MapStep(ttl, m, evs[0]), evs[1..])
  }

  /** The call neither writes nor deletes k. */
  predicate Leaves(ev: Event, k: Key) {
    match ev.call
    case Get(_) => true
    case Set(x, e, _) => x != k || e.None?
    case Delete(x) => x != k
  }

  lemma {:induction false} MapAnswersSplit(ttl: int, m: map<Key, Slot>, a: seq<Event>, b: seq<Event>)
    ensures MapAnswers(ttl, m, a + b) == MapAnswers(ttl, m, a) + MapAnswers(ttl, MapRun(ttl, m, a), b)
    ensures |MapAnswers(ttl, m, a)| == |a|
    decreases |a|
  {
    if a == [] {
      assert a + b == b;
    } else {
      assert (a + b)[0] == a[0] && (a + b)[1..] == a[1..] + b;
      MapAnswersSplit(ttl, MapStep(ttl, m, a[0]), a[1..], b);
    }
  }

  lemma {:induction false} LeftAlone(ttl: int, m: map<Key, Slot>, evs: seq<Event>, k: Key)
    requires forall i :: 0 <= i < |evs| ==> Leaves(evs[i], k)
    ensures Lookup(MapRun(ttl, m, evs), k) == Lookup(m, k)
    decreases |evs|
  {
    if evs != [] {
      LeftAlone(ttl, MapStep(ttl, m, evs[0]), evs[1..], k);
    }
  }

  /** From empty caches, whatever was called before and whatever leaves the key alone in between: a Get hits the value
      last set as long as the time to live given has not passed, or without one the default time, or for ever when there
      is none either; and after that it misses. */
  lemma {:induction false} ServedUntilDeadline(cfg: Config, l0: bool, before: seq<Event>, set_: Event,
                                               between: seq<Event>, get: Event)
    requires cfg.ttl0 == cfg.ttl1
    requires set_.call.Set? && set_.call.entry.Some? && get.call.Get? && get.call.key == set_.call.key
    requires forall i :: 0 <= i < |between| ==> Leaves(between[i], get.call.key)
    requires var evs := before + ([set_] + (between + [get]));
      AllHarmless(cfg, Empty(l0), evs) && forall i, j :: 0 <= i < j < |evs| ==> evs[i].now <= evs[j].now
    ensures var ttl, age := set_.call.ttl, get.now - set_.now;
      var answers := LayeredAnswers(cfg, Empty(l0), before + ([set_] + (between + [get])));
      && |answers| == |before| + |between| + 2
      && answers[|answers| - 1] ==
           if (ttl > 0 && age <= ttl) || (ttl <= 0 && (cfg.ttl0 <= 0 || age <= cfg.ttl0))
           then Hit(set_.call.entry.value) else Miss
  {
    var rest := [set_] + (between + [get]);
    var m := MapRun(cfg.ttl0, map[], before);
    LayeredAnswersLikeOneMap(cfg, l0, before + rest);
    MapAnswersSplit(cfg.ttl0, map[], before, rest);
    var m1 := MapStep(cfg.ttl0, m, set_);
    assert rest[0] == set_ && rest[1..] == between + [get];
    MapAnswersSplit(cfg.ttl0, m1, between, [get]);
    LeftAlone(cfg.ttl0, m1, between, get.call.key);
    assert [get][1..] == [];
    assert MapAnswers(cfg.ttl0, MapRun(cfg.ttl0, m1, between), [get]) ==
      [MapAnswer(MapRun(cfg.ttl0, m1, between), get)];
  }

  /** The plainest such run: a Delete that Redis missed reports success and leaves the entry to be served again. */
  lemma {:induction false} MissedDeleteComesBack(cfg: Config, k: Key, v: Value)
    requires cfg.capacity >= 1 && cfg.ttl0 == cfg.ttl1 == 0
    ensures var evs := [Event(Set(k, Some(v), 0), 0, true), Event(Delete(k), 1, false), Event(Get(k), 2, true)];
      LayeredAnswers(cfg, Layers(Some([]), Some(map[])), evs) == [Done, Done, Hit(v)]
      && MapAnswers(cfg.ttl0, map[], evs) == [Done, Done, Miss]
  {
    var it := Item(k, Slot(v, None));
    var e1, e2, e3 := Event(Set(k, Some(v), 0), 0, true), Event(Delete(k), 1, false), Event(Get(k), 2, true);
    var s1, s2 := Layers(Some([it]), Some(map[k := it.slot])), Layers(Some([]), Some(map[k := it.slot]));
    assert Put([], it, cfg.capacity) == [it] && Without([it], k) == [];
    assert LayeredStep(cfg, Empty(true), e1) == s1 && LayeredStep(cfg, s1, e2) == s2;
    assert map[k := it.slot] - {k} == map[];
    ThreeAnswers(cfg, Empty(true), map[], e1, e2, e3);
  }

  lemma {:induction false} ThreeAnswers(cfg: Config, s: Layers, m: map<Key, Slot>, a: Event, b: Event, c: Event)
    ensures var s1 := LayeredStep(cfg, s, a); var s2 := LayeredStep(cfg, s1, b);
      LayeredAnswers(cfg, s, [a, b, c]) == [LayeredAnswer(s, a), LayeredAnswer(s1, b), LayeredAnswer(s2, c)]
    ensures var m1 := MapStep(cfg.ttl0, m, a); var m2 := MapStep(cfg.ttl0, m1, b);
      MapAnswers(cfg.ttl0, m, [a, b, c]) == [MapAnswer(m, a), MapAnswer(m1, b), MapAnswer(m2, c)]
  {
    assert [a, b, c][1..] == [b, c] && [b, c][1..] == [c] && [c][1..] == [];
    var s1, m1 := LayeredStep(cfg, s, a), MapStep(cfg.ttl0, m, a);
    assert LayeredAnswers(cfg, LayeredStep(cfg, s1, b), [c]) == [LayeredAnswer(LayeredStep(cfg, s1, b), c)];
    assert MapAnswers(cfg.ttl0, MapStep(cfg.ttl0, m1, b), [c]) == [MapAnswer(MapStep(cfg.ttl0, m1, b), c)];
  }

  // ---- Retention ----

  function MemRun(cfg: Config, s: seq<Item>, evs: seq<Event>): seq<Item>
    decreases |evs|
  {
    if evs == [] then s else MemRun(cfg, MemStep(cfg, s, evs[0]), evs[1..])
  }

  function Touched(evs: seq<Event>, k: Key): set<Key> {
    set i | 0 <= i < |evs| && evs[i].call.key != k :: evs[i].call.key
  }

  /** k sits at position i with this slot, behind keys of T only. */
  ghost predicate Behind(s: seq<Item>, i: nat, k: Key, slot: Slot, T: set<Key>) {
    i < |s| && s[i] == Item(k, slot) && k !in T && forall j :: 0 <= j < i ==> s[j].key in T
  }

  lemma {:induction false} DistinctFit(s: seq<Item>, i: nat, T: set<Key>)
    requires Unique(s) && i <= |s| && forall j :: 0 <= j < i ==> s[j].key in T
    ensures i <= |T|
  {
    if i > 0 {
      DistinctFit(s, i - 1, T - {s[i - 1].key});
    }
  }

  lemma {:induction false} WithoutKeepsBehind(s: seq<Item>, i: nat, k: Key, slot: Slot, T: set<Key>, x: Key)
    returns (j: nat)
    requires Unique(s) && Behind(s, i, k, slot, T) && x != k
    ensures Behind(Without(s, x), j, k, slot, T) && j == if IndexOf(s, x) < i then i - 1 else i
  {
    var h, r := IndexOf(s, x), Without(s, x);
    j := if h < i then i - 1 else i;
    assert r[j] == s[i];
    forall g | 0 <= g < j ensures r[g].key in T {
      assert r[g] == s[if g < h then g else g + 1];
    }
  }

  /** The calls that leave k alone, apart from reading it before it expires. */
  ghost predicate Spares(ev: Event, k: Key, slot: Slot) {
    ev.call.key != k || (ev.call.Get? && !Expired(slot, ev.now))
  }

  lemma {:induction false} ConsBehind(it: Item, s: seq<Item>, i: nat, k: Key, slot: Slot, T: set<Key>)
    requires Behind(s, i, k, slot, T) && it.key in T
    ensures Behind([it] + s, i + 1, k, slot, T)
  {
  }

  lemma {:induction false} TakeBehind(s: seq<Item>, n: nat, i: nat, k: Key, slot: Slot, T: set<Key>)
    requires Unique(s) && Behind(s, i, k, slot, T)
    ensures if i < n then Behind(Take(s, n), i, k, slot, T) else Find(Take(s, n), k) == None
  {
  }

  lemma {:induction false} StepKeepsBehind(cfg: Config, s: seq<Item>, ev: Event, i: nat, k: Key, slot: Slot,
                                           T: set<Key>)
    returns (j: nat)
    requires Unique(s) && Behind(s, i, k, slot, T) && Spares(ev, k, slot)
    requires ev.call.key != k ==> ev.call.key in T
    requires |T| < cfg.capacity
    ensures Unique(MemStep(cfg, s, ev)) && Behind(MemStep(cfg, s, ev), j, k, slot, T)
  {
    var x, rest := ev.call.key, Without(s, ev.call.key);
    WithoutAt(s, i);
    if x == k {
      TouchFinds(s, k, ev.now, k);
      return 0;
    }
    WithoutFinds(s, x, x);
    match ev.call
    case Delete(_) =>
      j := WithoutKeepsBehind(s, i, k, slot, T, x);
    case Get(_) =>
      TouchFinds(s, x, ev.now, x);
      j := WithoutKeepsBehind(s, i, k, slot, T, x);
      if Find(s, x).None? {
        j := i;
      } else if !Expired(Find(s, x).value, ev.now) {
        ConsBehind(Item(x, Find(s, x).value), rest, j, k, slot, T);
        j := j + 1;
      }
    case Set(_, e, ttl) =>
      if e.None? {
        return i;
      }
      j := WriteKeepsBehind(cfg, s, Item(x, Slot(e.value, Expiry(ttl, cfg.ttl0, ev.now))), i, k, slot, T);
  }

  lemma {:induction false} WriteKeepsBehind(cfg: Config, s: seq<Item>, it: Item, i: nat, k: Key, slot: Slot,
                                            T: set<Key>)
    returns (j: nat)
    requires Unique(s) && Behind(s, i, k, slot, T) && it.key != k && it.key in T && |T| < cfg.capacity
    ensures Unique(Put(s, it, cfg.capacity)) && Behind(Put(s, it, cfg.capacity), j, k, slot, T)
  {
    j := WithoutKeepsBehind(s, i, k, slot, T, it.key);
    var rest := Without(s, it.key);
    WithoutFinds(s, it.key, it.key);
    ConsFinds(it, rest, k);
    ConsBehind(it, rest, j, k, slot, T);
    j := j + 1;
    DistinctFit([it] + rest, j, T);
    TakeFinds([it] + rest, cfg.capacity, k);
    TakeBehind([it] + rest, cfg.capacity, j, k, slot, T);
  }

  lemma {:induction false} BehindRun(cfg: Config, s: seq<Item>, evs: seq<Event>, i: nat, k: Key, slot: Slot,
                                     T: set<Key>)
    requires Unique(s) && Behind(s, i, k, slot, T) && |T| < cfg.capacity
    requires Touched(evs, k) <= T && forall n :: 0 <= n < |evs| ==> Spares(evs[n], k, slot)
    ensures Find(MemRun(cfg, s, evs), k) == Some(slot)
    decreases |evs|
  {
    if evs != [] {
      assert evs[0].call.key != k ==> evs[0].call.key in Touched(evs, k);
      var j := StepKeepsBehind(cfg, s, evs[0], i, k, slot, T);
      assert Touched(evs[1..], k) <= T by {
        forall x | x in Touched(evs[1..], k) ensures x in T {
          var n :| 0 <= n < |evs[1..]| && evs[1..][n].call.key == x;
          assert evs[n + 1].call.key in Touched(evs, k);
        }
      }
      BehindRun(cfg, MemStep(cfg, s, evs[0]), evs[1..], j, k, slot, T);
    }
  }

  /** The event uses k: it writes this slot under it, or reads it there before it expires. */
  ghost predicate Uses(cfg: Config, s: seq<Item>, ev: Event, k: Key, slot: Slot) {
    match ev.call
    case Set(x, e, ttl) => x == k && e.Some? && slot == Slot(e.value, Expiry(ttl, cfg.ttl0, ev.now))
    case Get(x) => x == k && Find(s, k) == Some(slot) && !Expired(slot, ev.now)
    case Delete(_) => false
  }

  lemma {:induction false} UsedComesFirst(cfg: Config, s: seq<Item>, ev: Event, k: Key, slot: Slot)
    requires Unique(s) && cfg.capacity >= 1 && Uses(cfg, s, ev, k, slot)
    ensures var s' := MemStep(cfg, s, ev); Unique(s') && s' != [] && s'[0] == Item(k, slot)
  {
    match ev.call
    case Set(_, _, _) => PutFinds(s, Item(k, slot), cfg.capacity, k);
    case Get(_) => TouchFinds(s, k, ev.now, k);
  }

  /** A key that is used is kept, with its slot, while fewer than `capacity` distinct other keys are touched. */
  lemma {:induction false} RecentKeysAreKept(cfg: Config, s: seq<Item>, use: Event, evs: seq<Event>, k: Key, slot: Slot)
    requires Unique(s) && Uses(cfg, s, use, k, slot)
    requires |Touched(evs, k)| < cfg.capacity
    requires forall n :: 0 <= n < |evs| ==> Spares(evs[n], k, slot)
    ensures Find(MemRun(cfg, MemStep(cfg, s, use), evs), k) == Some(slot)
  {
    UsedComesFirst(cfg, s, use, k, slot);
    BehindRun(cfg, MemStep(cfg, s, use), evs, 0, k, slot, Touched(evs, k));
  }

  // ---- And no longer: the bound is exact for a run of writes ----

  ghost predicate Writes(evs: seq<Event>, k: Key) {
    forall n :: 0 <= n < |evs| ==> evs[n].call.Set? && evs[n].call.entry.Some? && evs[n].call.key != k
  }

  /** i distinct keys of an i-element set are all of it. */
  lemma {:induction false} Saturated(s: seq<Item>, i: nat, T: set<Key>, x: Key)
    requires Unique(s) && i <= |s| && i == |T| && forall j :: 0 <= j < i ==> s[j].key in T
    requires x in T
    ensures IndexOf(s, x) < i
  {
    if s[i - 1].key != x {
      Saturated(s, i - 1, T - {s[i - 1].key}, x);
    } else {
      assert IndexOf(s, x) <= i - 1;
    }
  }

  lemma {:induction false} FrontIsUnique(s: seq<Item>, it: Item)
    requires Unique(s)
    ensures Unique([it] + Without(s, it.key))
  {
    WithoutFinds(s, it.key, it.key);
    ConsFinds(it, Without(s, it.key), it.key);
  }

  lemma {:induction false} BehindOthers(s: seq<Item>, x: Key, k: Key, slot: Slot, T: set<Key>) returns (j: nat)
    requires Unique(s) && Behind(s, |T|, k, slot, T) && x != k
    ensures Behind(Without(s, x), j, k, slot, T + {x}) && j + 1 == |T + {x}|
  {
    j := WithoutKeepsBehind(s, |T|, k, slot, T, x);
    if x in T {
      Saturated(s, |T|, T, x);
      assert T + {x} == T;
    } else {
      assert |T + {x}| == |T| + 1;
    }
  }

  /** A write of another key moves k one place back, unless that key was ahead of it already. */
  lemma {:induction false} WritePushesBack(s: seq<Item>, it: Item, cap: nat, k: Key, slot: Slot, T: set<Key>)
    requires Unique(s) && Behind(s, |T|, k, slot, T) && it.key != k
    ensures var s', T' := Put(s, it, cap), T + {it.key};
      if |T'| < cap then Behind(s', |T'|, k, slot, T') else Find(s', k) == None
  {
    var T', rest := T + {it.key}, Without(s, it.key);
    var j := BehindOthers(s, it.key, k, slot, T);
    FrontIsUnique(s, it);
    ConsBehind(it, rest, j, k, slot, T');
    TakeBehind([it] + rest, cap, j + 1, k, slot, T');
    assert Put(s, it, cap) == Take([it] + rest, cap);
  }

  lemma {:induction false} Evicted(cfg: Config, s: seq<Item>, evs: seq<Event>, k: Key)
    requires Unique(s) && Find(s, k) == None && Writes(evs, k)
    ensures Find(MemRun(cfg, s, evs), k) == None
    decreases |evs|
  {
    if evs != [] {
      var c := evs[0].call;
      PutFinds(s, Item(c.key, Slot(c.entry.value, Expiry(c.ttl, cfg.ttl0, evs[0].now))), cfg.capacity, k);
      Evicted(cfg, MemStep(cfg, s, evs[0]), evs[1..], k);
    }
  }

  lemma {:induction false} WritesPushBack(cfg: Config, s: seq<Item>, evs: seq<Event>, k: Key, slot: Slot, T: set<Key>)
    requires Unique(s) && Behind(s, |T|, k, slot, T) && |T| < cfg.capacity && Writes(evs, k)
    ensures Find(MemRun(cfg, s, evs), k).Some? <==> |T + Touched(evs, k)| < cfg.capacity
    decreases |evs|
  {
    if evs == [] {
      assert T + Touched(evs, k) == T;
    } else {
      var c := evs[0].call;
      var it := Item(c.key, Slot(c.entry.value, Expiry(c.ttl, cfg.ttl0, evs[0].now)));
      var s', T' := MemStep(cfg, s, evs[0]), T + {c.key};
      PutFinds(s, it, cfg.capacity, k);
      WritePushesBack(s, it, cfg.capacity, k, slot, T);
      TouchedHead(evs, k);
      assert T + Touched(evs, k) == T' + Touched(evs[1..], k);
      if |T'| < cfg.capacity {
        WritesPushBack(cfg, s', evs[1..], k, slot, T');
      } else {
        Evicted(cfg, s', evs[1..], k);
        SubsetSize(T', T + Touched(evs, k));
      }
    }
  }

  lemma {:induction false} TouchedHead(evs: seq<Event>, k: Key)
    requires evs != [] && evs[0].call.key != k
    ensures Touched(evs, k) == {evs[0].call.key} + Touched(evs[1..], k)
  {
    forall x | x in Touched(evs[1..], k) ensures x in Touched(evs, k) {
      var n :| 0 <= n < |evs[1..]| && evs[1..][n].call.key == x;
      assert evs[n + 1].call.key == x;
    }
    forall x | x in Touched(evs, k) ensures x == evs[0].call.key || x in Touched(evs[1..], k) {
      var n :| 0 <= n < |evs| && evs[n].call.key == x;
      assert n > 0 ==> evs[1..][n - 1].call.key == x;
    }
  }

  lemma {:induction false} SubsetSize(a: set<Key>, b: set<Key>)
    requires a <= b
    ensures |a| <= |b|
  {
    if a != {} {
      var x :| x in a;
      SubsetSize(a - {x}, b - {x});
    }
  }

  /** After any run of writes to other keys, a key that was used before them is still held iff fewer than `capacity`
      distinct keys were written. */
  lemma {:induction false} KeptExactlyWhileRoom(cfg: Config, s: seq<Item>, use: Event, evs: seq<Event>, k: Key,
                                                slot: Slot)
    requires Unique(s) && cfg.capacity >= 1 && Uses(cfg, s, use, k, slot) && Writes(evs, k)
    ensures Find(MemRun(cfg, MemStep(cfg, s, use), evs), k).Some? <==> |Touched(evs, k)| < cfg.capacity
  {
    UsedComesFirst(cfg, s, use, k, slot);
    WritesPushBack(cfg, MemStep(cfg, s, use), evs, k, slot, {});
    assert {} + Touched(evs, k) == Touched(evs, k);
  }

  // ---- With Redis failing at any calls ----

  /** Some earlier Set of this key wrote this slot. */
  ghost predicate Written(cfg: Config, evs: seq<Event>, n: nat, k: Key, slot: Slot) {
    exists i :: 0 <= i < n <= |evs| && WritesSlot(cfg, evs[i], k, slot)
  }

  ghost predicate WritesSlot(cfg: Config, ev: Event, k: Key, slot: Slot) {
    && ev.call.Set? && ev.call.key == k && ev.call.entry == Some(slot.value)
    && (slot.expiresAt == Deadline(ev.call.ttl, cfg.ttl0, ev.now) ||
      slot.expiresAt == Deadline(ev.call.ttl, cfg.ttl1, ev.now))
  }

  ghost predicate AllWritten(cfg: Config, s: Layers, evs: seq<Event>, n: nat) {
    && (s.l0.Some? ==>
        && Unique(s.l0.value)
        && forall k :: Find(s.l0.value, k).Some? ==> Written(cfg, evs, n, k, Find(s.l0.value, k).value))
    && (s.l1.Some? ==> forall k :: k in s.l1.value ==> Written(cfg, evs, n, k, s.l1.value[k]))
  }

  function LayeredRun(cfg: Config, s: Layers, evs: seq<Event>): Layers {
    if evs == [] then s else LayeredStep(cfg, LayeredRun(cfg, s, evs[..|evs| - 1]), evs[|evs| - 1])
  }

  lemma {:induction false} WrittenLater(cfg: Config, evs: seq<Event>, n: nat, k: Key, slot: Slot)
    requires Written(cfg, evs, n, k, slot) && n < |evs|
    ensures Written(cfg, evs, n + 1, k, slot)
  {
    var i :| 0 <= i < n && WritesSlot(cfg, evs[i], k, slot);
    assert WritesSlot(cfg, evs[i], k, slot);
  }

  lemma {:induction false} MemoryOnlyHoldsWrites(cfg: Config, s: seq<Item>, evs: seq<Event>, n: nat, x: Key)
    requires Unique(s) && n < |evs| && (Find(s, x).Some? ==> Written(cfg, evs, n, x, Find(s, x).value))
    ensures Unique(MemStep(cfg, s, evs[n]))
    ensures var f := Find(MemStep(cfg, s, evs[n]), x); f.Some? ==> Written(cfg, evs, n + 1, x, f.value)
  {
    var ev := evs[n];
    if Find(s, x).Some? {
      WrittenLater(cfg, evs, n, x, Find(s, x).value);
    }
    match ev.call
    case Get(k) =>
      TouchFinds(s, k, ev.now, x);
      TouchHolds(s, k, ev.now, x);
    case Delete(k) => WithoutFinds(s, k, x);
    case Set(k, e, ttl) =>
      if e.Some? {
        var slot := Slot(e.value, Expiry(ttl, cfg.ttl0, ev.now));
        assert WritesSlot(cfg, evs[n], k, slot);
        PutFinds(s, Item(k, slot), cfg.capacity, x);
      }
  }

  lemma {:induction false} TouchHolds(s: seq<Item>, k: Key, now: int, x: Key)
    requires Unique(s)
    ensures Find(Touch(s, k, now), x) == None || Find(Touch(s, k, now), x) == Find(s, x)
  {
    WithoutFinds(s, k, k);
    WithoutFinds(s, k, x);
    if Find(s, k).Some? {
      ConsFinds(Item(k, Find(s, k).value), Without(s, k), x);
    }
  }

  lemma {:induction false} LayersOnlyHoldWrites(cfg: Config, s: Layers, evs: seq<Event>, n: nat)
    requires (s.l0.Some? ==> s.l0.value == []) && (s.l1.Some? ==> s.l1.value == map[]) && n <= |evs|
    ensures AllWritten(cfg, LayeredRun(cfg, s, evs[..n]), evs, n)
  {
    if n > 0 {
      LayersOnlyHoldWrites(cfg, s, evs, n - 1);
      assert evs[..n][..n - 1] == evs[..n - 1];
      var t, ev := LayeredRun(cfg, s, evs[..n - 1]), evs[n - 1];
      if t.l0.Some? {
        forall x
          ensures Unique(MemStep(cfg, t.l0.value, ev))
          ensures var f := Find(MemStep(cfg, t.l0.value, ev), x); f.Some? ==> Written(cfg, evs, n, x, f.value)
        {
          MemoryOnlyHoldsWrites(cfg, t.l0.value, evs, n - 1, x);
        }
        assert Find(MemStep(cfg, t.l0.value, ev), "") == Find(MemStep(cfg, t.l0.value, ev), "");
      }
      if t.l1.Some? {
        RedisOnlyHoldsWrites(cfg, t.l1.value, evs, n - 1);
      }
    }
  }

  lemma {:induction false} RedisOnlyHoldsWrites(cfg: Config, m: map<Key, Slot>, evs: seq<Event>, n: nat)
    requires n < |evs| && forall k :: k in m ==> Written(cfg, evs, n, k, m[k])
    ensures forall k :: k in m ==> Written(cfg, evs, n + 1, k, m[k])
    ensures var m' := RedisStep(cfg.ttl1, m, evs[n]); forall k :: k in m' ==> Written(cfg, evs, n + 1, k, m'[k])
  {
    forall k | k in m ensures Written(cfg, evs, n + 1, k, m[k]) {
      WrittenLater(cfg, evs, n, k, m[k]);
    }
    var ev := evs[n];
    if ev.call.Set? && ev.call.entry.Some? {
      assert WritesSlot(cfg, evs[n], ev.call.key, Slot(ev.call.entry.value, Expiry(ev.call.ttl, cfg.ttl1, ev.now)));
    }
  }

  /** Whatever Redis drops, with any layers, clock and default times: a hit is the value of some earlier Set of
      that key whose time to live, under one of the two defaults, has not passed. */
  lemma {:induction false} HitsWereWritten(cfg: Config, s: Layers, evs: seq<Event>, n: nat, v: Value)
    requires (s.l0.Some? ==> s.l0.value == []) && (s.l1.Some? ==> s.l1.value == map[]) && n < |evs|
    requires LayeredAnswer(LayeredRun(cfg, s, evs[..n]), evs[n]) == Hit(v)
    ensures exists slot: Slot ::
      slot.value == v && !Expired(slot, evs[n].now) && Written(cfg, evs, n, evs[n].call.key, slot)
  {
    LayersOnlyHoldWrites(cfg, s, evs, n);
    var t, k := LayeredRun(cfg, s, evs[..n]), evs[n].call.key;
    if L0Value(t, evs[n]).Some? {
      assert Written(cfg, evs, n, k, Find(t.l0.value, k).value);
    } else {
      assert Written(cfg, evs, n, k, t.l1.value[k]);
    }
  }
}
