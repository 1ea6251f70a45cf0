/**
 Several gateways, each with a memory layer of its own, over one Redis. A write at one gateway does not reach the memory
 of the others; what that can be seen to change, exactly.
 */
module ResponseCacheFleet {
  import opened Options
  import opened ResponseCache
  import opened ResponseCacheTheorems

  type Gateway = nat

  /** The memory layers, for the gateways that have one, and the shared layer. */
  datatype Fleet = Fleet(l0: map<Gateway, seq<Item>>, l1: map<Key, Slot>)
  datatype FleetEvent = At(gw: Gateway, ev: Event)

  function View(f: Fleet, g: Gateway): Layers {
    Layers(if g in f.l0 then Some(f.l0[g]) else None, Some(f.l1))
  }

  function FleetStep(cfg: Config, f: Fleet, e: FleetEvent): Fleet {
    var s := LayeredStep(cfg, View(f, e.gw), e.ev);
    Fleet(if e.gw in f.l0 then f.l0[e.gw := s.l0.value] else f.l0, s.l1.value)
  }

  function FleetAnswer(f: Fleet, e: FleetEvent): Answer { LayeredAnswer(View(f, e.gw), e.ev) }

  function FleetAnswers(cfg: Config, f: Fleet, es: seq<FleetEvent>): seq<Answer>
    decreases |es|
  {
    if es == [] then [] else [FleetAnswer(f, es[0])] + FleetAnswers(cfg, FleetStep(cfg, f, es[0]), es[1..])
  }

  /** The calls, wherever they were made. */
  function Calls(es: seq<FleetEvent>): (evs: seq<Event>)
    ensures |evs| == |es| && forall i :: 0 <= i < |es| ==> evs[i] == es[i].ev
  {
    seq(|es|, i requires 0 <= i < |es| => es[i].ev)
  }

  // ---- Agreement that lasts ----

  /** An entry with expiry a lives at least as long as one with expiry b. */
  predicate Outlasts(a: Option<int>, b: Option<int>) { a.None? || (b.Some? && b.value <= a.value) }

  /** As long as the memory entry is fresh, the map answers the same. */
  predicate Covers(mapped: Option<Slot>, held: Option<Slot>, now: int) {
    Fresh(held, now).Some? ==>
      mapped.Some? && mapped.value.value == held.value.value && Outlasts(mapped.value.expiresAt, held.value.expiresAt)
  }

  ghost predicate Covered(s: seq<Item>, m: map<Key, Slot>, now: int) {
    Unique(s) && forall k :: Covers(Lookup(m, k), Find(s, k), now)
  }

  ghost predicate Coherent(f: Fleet, m: map<Key, Slot>, now: int) {
    && (forall k :: Fresh(Lookup(f.l1, k), now) == Fresh(Lookup(m, k), now))
    && (forall g :: g in f.l0 ==> Covered(f.l0[g], m, now))
  }

  /** The call leaves nothing in another gateway's memory that the map no longer backs: what that gateway holds fresh
      under a key deleted or written has the value just written, and expires no later. */
  predicate Unshadowed(cfg: Config, s: seq<Item>, ev: Event) {
    match ev.call
    case Get(_) => true
    case Delete(k) => Fresh(Find(s, k), ev.now) == None
    case Set(k, e, ttl) =>
      e.None? || Covers(Some(Slot(e.value, Expiry(ttl, cfg.ttl0, ev.now))), Find(s, k), ev.now)
  }

  /** Redis answers the call or need not, and no other memory is left behind. */
  ghost predicate FleetHarmless(cfg: Config, f: Fleet, e: FleetEvent) {
    && Harmless(View(f, e.gw), e.ev)
    && forall g :: g in f.l0 && g != e.gw ==> Unshadowed(cfg, f.l0[g], e.ev)
  }

  ghost predicate AllFleetHarmless(cfg: Config, f: Fleet, es: seq<FleetEvent>)
    decreases |es|
  {
    es == [] || (FleetHarmless(cfg, f, es[0]) && AllFleetHarmless(cfg, FleetStep(cfg, f, es[0]), es[1..]))
  }

  // ---- Harmless calls ----

  lemma {:induction false} CoveredLater(s: seq<Item>, m: map<Key, Slot>, now: int, then_: int)
    requires Covered(s, m, now) && now <= then_
    ensures Covered(s, m, then_)
  {
    forall k ensures Covers(Lookup(m, k), Find(s, k), then_) {
      assert Covers(Lookup(m, k), Find(s, k), now);
    }
  }

  lemma {:induction false} CoherentLater(f: Fleet, m: map<Key, Slot>, now: int, then_: int)
    requires Coherent(f, m, now) && now <= then_
    ensures Coherent(f, m, then_)
  {
    forall k ensures Fresh(Lookup(f.l1, k), then_) == Fresh(Lookup(m, k), then_) {
      assert Fresh(Lookup(f.l1, k), now) == Fresh(Lookup(m, k), now);
    }
    forall g | g in f.l0 ensures Covered(f.l0[g], m, then_) {
      CoveredLater(f.l0[g], m, now, then_);
    }
  }

  lemma {:induction false} PutStaysCovered(s: seq<Item>, it: Item, cap: nat, m: map<Key, Slot>, now: int, x: Key)
    requires Unique(s) && Covers(Lookup(m, x), Find(s, x), now)
    ensures Unique(Put(s, it, cap)) && Covers(Lookup(m[it.key := it.slot], x), Find(Put(s, it, cap), x), now)
  {
    PutFinds(s, it, cap, x);
  }

  lemma {:induction false} DeleteStaysCovered(s: seq<Item>, k: Key, m: map<Key, Slot>, now: int, x: Key)
    requires Unique(s) && Covers(Lookup(m, x), Find(s, x), now)
    ensures Unique(Without(s, k)) && Covers(Lookup(m - {k}, x), Find(Without(s, k), x), now)
  {
    WithoutFinds(s, k, x);
  }

  lemma {:induction false} TouchStaysCovered(s: seq<Item>, k: Key, m: map<Key, Slot>, now: int, x: Key)
    requires Unique(s) && Covers(Lookup(m, x), Find(s, x), now)
    ensures Unique(Touch(s, k, now)) && Covers(Lookup(m, x), Find(Touch(s, k, now), x), now)
  {
    TouchFinds(s, k, now, x);
  }

  lemma {:induction false} OwnKeyStaysCovered(cfg: Config, s: seq<Item>, m: map<Key, Slot>, ev: Event, x: Key)
    requires Unique(s) && Covers(Lookup(m, x), Find(s, x), ev.now)
    ensures Unique(MemStep(cfg, s, ev))
    ensures Covers(Lookup(MapStep(cfg.ttl0, m, ev), x), Find(MemStep(cfg, s, ev), x), ev.now)
  {
    match ev.call
    case Get(k) => TouchStaysCovered(s, k, m, ev.now, x);
    case Delete(k) => DeleteStaysCovered(s, k, m, ev.now, x);
    case Set(k, e, ttl) =>
      if e.Some? {
        var it := Item(k, Slot(e.value, Expiry(ttl, cfg.ttl0, ev.now)));
        PutStaysCovered(s, it, cfg.capacity, m, ev.now, x);
      }
  }

  lemma {:induction false} OwnStaysCovered(cfg: Config, s: seq<Item>, m: map<Key, Slot>, ev: Event)
    requires Covered(s, m, ev.now)
    ensures Covered(MemStep(cfg, s, ev), MapStep(cfg.ttl0, m, ev), ev.now)
  {
    OwnKeyStaysCovered(cfg, s, m, ev, "");
    forall x ensures Covers(Lookup(MapStep(cfg.ttl0, m, ev), x), Find(MemStep(cfg, s, ev), x), ev.now) {
      OwnKeyStaysCovered(cfg, s, m, ev, x);
    }
  }

  lemma {:induction false} OtherStaysCovered(cfg: Config, s: seq<Item>, m: map<Key, Slot>, ev: Event)
    requires Covered(s, m, ev.now) && Unshadowed(cfg, s, ev)
    ensures Covered(s, MapStep(cfg.ttl0, m, ev), ev.now)
  {
    forall x ensures Covers(Lookup(MapStep(cfg.ttl0, m, ev), x), Find(s, x), ev.now) {
      assert Covers(Lookup(m, x), Find(s, x), ev.now);
    }
  }

  lemma {:induction false} MemoriesStayCovered(cfg: Config, f: Fleet, m: map<Key, Slot>, e: FleetEvent, g: Gateway)
    requires Coherent(f, m, e.ev.now) && FleetHarmless(cfg, f, e) && g in f.l0
    ensures Covered(FleetStep(cfg, f, e).l0[g], MapStep(cfg.ttl0, m, e.ev), e.ev.now)
  {
    if g == e.gw {
      OwnStaysCovered(cfg, f.l0[g], m, e.ev);
    } else {
      OtherStaysCovered(cfg, f.l0[g], m, e.ev);
    }
  }

  lemma {:induction false} RedisStays(cfg: Config, f: Fleet, m: map<Key, Slot>, e: FleetEvent)
    requires Coherent(f, m, e.ev.now) && cfg.ttl0 == cfg.ttl1 && Harmless(View(f, e.gw), e.ev)
    ensures var f', m' := FleetStep(cfg, f, e), MapStep(cfg.ttl0, m, e.ev);
      forall x :: Fresh(Lookup(f'.l1, x), e.ev.now) == Fresh(Lookup(m', x), e.ev.now)
  {
    var f', m' := FleetStep(cfg, f, e), MapStep(cfg.ttl0, m, e.ev);
    forall x ensures Fresh(Lookup(f'.l1, x), e.ev.now) == Fresh(Lookup(m', x), e.ev.now) {
      assert Fresh(Lookup(f.l1, x), e.ev.now) == Fresh(Lookup(m, x), e.ev.now);
      RedisStaysCoherent(cfg, f.l1, m, e.ev, x);
    }
  }

  lemma {:induction false} SameAnswer(cfg: Config, f: Fleet, m: map<Key, Slot>, e: FleetEvent)
    requires Coherent(f, m, e.ev.now) && Harmless(View(f, e.gw), e.ev)
    ensures FleetAnswer(f, e) == MapAnswer(m, e.ev)
  {
    var k := e.ev.call.key;
    assert Fresh(Lookup(f.l1, k), e.ev.now) == Fresh(Lookup(m, k), e.ev.now);
    assert e.gw in f.l0 ==> Covered(f.l0[e.gw], m, e.ev.now);
    assert e.gw in f.l0 ==> Covers(Lookup(m, k), Find(f.l0[e.gw], k), e.ev.now);
  }

  lemma {:induction false} StepStaysCoherent(cfg: Config, f: Fleet, m: map<Key, Slot>, e: FleetEvent)
    requires Coherent(f, m, e.ev.now) && cfg.ttl0 == cfg.ttl1 && FleetHarmless(cfg, f, e)
    ensures Coherent(FleetStep(cfg, f, e), MapStep(cfg.ttl0, m, e.ev), e.ev.now)
    ensures FleetAnswer(f, e) == MapAnswer(m, e.ev)
  {
    RedisStays(cfg, f, m, e);
    SameAnswer(cfg, f, m, e);
    forall g | g in f.l0 ensures Covered(FleetStep(cfg, f, e).l0[g], MapStep(cfg.ttl0, m, e.ev), e.ev.now) {
      MemoriesStayCovered(cfg, f, m, e, g);
    }
  }

  lemma {:induction false} CoherentAnswers(cfg: Config, f: Fleet, m: map<Key, Slot>, now: int, es: seq<FleetEvent>)
    requires Coherent(f, m, now) && cfg.ttl0 == cfg.ttl1
    requires ClockRuns(now, Calls(es)) && AllFleetHarmless(cfg, f, es)
    ensures FleetAnswers(cfg, f, es) == MapAnswers(cfg.ttl0, m, Calls(es))
    decreases |es|
  {
    if es != [] {
      var e := es[0];
      assert Calls(es)[0] == e.ev && Calls(es)[1..] == Calls(es[1..]);
      CoherentLater(f, m, now, e.ev.now);
      StepStaysCoherent(cfg, f, m, e);
      CoherentAnswers(cfg, FleetStep(cfg, f, e), MapStep(cfg.ttl0, m, e.ev), e.ev.now, es[1..]);
    }
  }

  // ---- All others are noticed ----

  /** The first n calls, continued by one Get that Redis answers or by nothing, get the answers of the map. */
  ghost predicate Unnoticed(cfg: Config, f: Fleet, m: map<Key, Slot>, now: int, es: seq<FleetEvent>, n: nat,
                            more: seq<FleetEvent>)
    requires n <= |es|
  {
    ClockRuns(now, Calls(es[..n] + more)) && Questions(more) ==>
      FleetAnswers(cfg, f, es[..n] + more) == MapAnswers(cfg.ttl0, m, Calls(es[..n] + more))
  }

  ghost predicate Questions(es: seq<FleetEvent>) {
    forall i :: 0 <= i < |es| ==> es[i].ev.up && es[i].ev.call.Get?
  }

  /** At no point of the run can any further questions, at any gateways, tell it from the map. */
  ghost predicate NeverNoticed(cfg: Config, f: Fleet, m: map<Key, Slot>, now: int, es: seq<FleetEvent>) {
    forall n: nat, more: seq<FleetEvent> :: n <= |es| ==> Unnoticed(cfg, f, m, now, es, n, more)
  }

  lemma {:induction false} QuestionsAreHarmless(cfg: Config, f: Fleet, es: seq<FleetEvent>)
    requires Questions(es)
    ensures AllFleetHarmless(cfg, f, es)
    decreases |es|
  {
    if es != [] {
      QuestionsAreHarmless(cfg, FleetStep(cfg, f, es[0]), es[1..]);
    }
  }

  lemma {:induction false} HarmlessCons(cfg: Config, f: Fleet, e: FleetEvent, rest: seq<FleetEvent>)
    requires FleetHarmless(cfg, f, e) && AllFleetHarmless(cfg, FleetStep(cfg, f, e), rest)
    ensures AllFleetHarmless(cfg, f, [e] + rest)
  {
    assert ([e] + rest)[1..] == rest;
  }

  lemma {:induction false} FirstThenRest(es: seq<FleetEvent>, n: nat, more: seq<FleetEvent>)
    requires 0 < n <= |es|
    ensures es[..n] + more == [es[0]] + (es[1..][..n - 1] + more)
  {
  }

  lemma {:induction false} HarmlessThenQuestions(cfg: Config, f: Fleet, es: seq<FleetEvent>, n: nat,
                                                 more: seq<FleetEvent>)
    requires n <= |es| && AllFleetHarmless(cfg, f, es) && Questions(more)
    ensures AllFleetHarmless(cfg, f, es[..n] + more)
    decreases n
  {
    if n == 0 {
      assert es[..0] + more == more;
      QuestionsAreHarmless(cfg, f, more);
    } else {
      HarmlessThenQuestions(cfg, FleetStep(cfg, f, es[0]), es[1..], n - 1, more);
      FirstThenRest(es, n, more);
      HarmlessCons(cfg, f, es[0], es[1..][..n - 1] + more);
    }
  }

  lemma {:induction false} HarmlessIsUnnoticed(cfg: Config, f: Fleet, m: map<Key, Slot>, now: int,
                                               es: seq<FleetEvent>, n: nat, more: seq<FleetEvent>)
    requires Coherent(f, m, now) && cfg.ttl0 == cfg.ttl1 && n <= |es| && AllFleetHarmless(cfg, f, es)
    ensures Unnoticed(cfg, f, m, now, es, n, more)
  {
    if ClockRuns(now, Calls(es[..n] + more)) && Questions(more) {
      HarmlessThenQuestions(cfg, f, es, n, more);
      CoherentAnswers(cfg, f, m, now, es[..n] + more);
    }
  }

  /** The answers to one call and one question after it. */
  lemma {:induction false} TwoAnswers(cfg: Config, f: Fleet, m: map<Key, Slot>, e: FleetEvent, q: FleetEvent)
    ensures FleetAnswers(cfg, f, [e, q]) == [FleetAnswer(f, e), FleetAnswer(FleetStep(cfg, f, e), q)]
    ensures MapAnswers(cfg.ttl0, m, Calls([e, q]))
         == [MapAnswer(m, e.ev), MapAnswer(MapStep(cfg.ttl0, m, e.ev), q.ev)]
  {
    assert [e, q][1..] == [q] && [q][1..] == [];
    assert FleetAnswers(cfg, FleetStep(cfg, f, e), [q]) == [FleetAnswer(FleetStep(cfg, f, e), q)];
    assert Calls([e, q]) == [e.ev, q.ev] && [e.ev, q.ev][1..] == [q.ev] && [q.ev][1..] == [];
    assert MapAnswers(cfg.ttl0, MapStep(cfg.ttl0, m, e.ev), [q.ev]) == [MapAnswer(MapStep(cfg.ttl0, m, e.ev), q.ev)];
  }

  /** A question that is answered differently after the first call shows the difference. */
  lemma {:induction false} QuestionShows(cfg: Config, f: Fleet, m: map<Key, Slot>, now: int, es: seq<FleetEvent>,
                                         q: FleetEvent)
    requires es != [] && now <= es[0].ev.now <= q.ev.now && q.ev.up && q.ev.call.Get?
    requires FleetAnswer(FleetStep(cfg, f, es[0]), q) != MapAnswer(MapStep(cfg.ttl0, m, es[0].ev), q.ev)
    ensures !NeverNoticed(cfg, f, m, now, es)
  {
    assert es[..1] + [q] == [es[0], q];
    TwoAnswers(cfg, f, m, es[0], q);
    assert FleetAnswers(cfg, f, [es[0], q])[1] != MapAnswers(cfg.ttl0, m, Calls([es[0], q]))[1];
    assert !Unnoticed(cfg, f, m, now, es, 1, [q]);
  }

  lemma {:induction false} AnswerShows(cfg: Config, f: Fleet, m: map<Key, Slot>, now: int, es: seq<FleetEvent>)
    requires es != [] && now <= es[0].ev.now && FleetAnswer(f, es[0]) != MapAnswer(m, es[0].ev)
    ensures !NeverNoticed(cfg, f, m, now, es)
  {
    var run := es[..1] + [];
    assert run == [es[0]] && run[1..] == [] && Calls(run) == [es[0].ev];
    assert FleetAnswers(cfg, f, run)[0] != MapAnswers(cfg.ttl0, m, Calls(run))[0];
    assert !Unnoticed(cfg, f, m, now, es, 1, []);
  }

  /** A call that Redis misses: its own answer differs, or the next question for its key. */
  lemma {:induction false} MissIsNoticed(cfg: Config, f: Fleet, m: map<Key, Slot>, now: int, es: seq<FleetEvent>)
    requires es != [] && now <= es[0].ev.now && Coherent(f, m, es[0].ev.now) && !Harmless(View(f, es[0].gw), es[0].ev)
    ensures !NeverNoticed(cfg, f, m, now, es)
  {
    var e := es[0];
    var k := e.ev.call.key;
    assert Fresh(Lookup(f.l1, k), e.ev.now) == Fresh(Lookup(m, k), e.ev.now);
    if e.ev.call.Delete? {
      if e.gw in f.l0 {
        assert Covered(f.l0[e.gw], m, e.ev.now);
        WithoutFinds(f.l0[e.gw], k, k);
      }
      QuestionShows(cfg, f, m, now, es, At(e.gw, Event(Get(k), e.ev.now, true)));
    } else {
      AnswerShows(cfg, f, m, now, es);
    }
  }

  /** When the map stops answering as a memory entry does that is fresh now. */
  function Parting(mapped: Option<Slot>, held: Slot, now: int): int {
    if mapped.Some? && mapped.value.value == held.value && mapped.value.expiresAt.Some?
    then mapped.value.expiresAt.value + 1 else now
  }

  /** A shadowed entry: the other gateway, asked for the key at once or when the new entry has expired, still answers
      with the old one. */
  lemma {:induction false} ShadowIsNoticed(cfg: Config, f: Fleet, m: map<Key, Slot>, now: int, es: seq<FleetEvent>,
                                           g: Gateway)
    requires es != [] && now <= es[0].ev.now && g in f.l0 && g != es[0].gw
    requires !Unshadowed(cfg, f.l0[g], es[0].ev)
    ensures !NeverNoticed(cfg, f, m, now, es)
  {
    var e := es[0];
    var k, t := e.ev.call.key, e.ev.now;
    var held, mapped := Find(f.l0[g], k), Lookup(MapStep(cfg.ttl0, m, e.ev), k);
    assert Fresh(held, t).Some? && !Covers(mapped, held, t);
    var q := At(g, Event(Get(k), Parting(mapped, held.value, t), true));
    assert FleetStep(cfg, f, e).l0[g] == f.l0[g];
    assert FleetAnswer(FleetStep(cfg, f, e), q) == Hit(held.value.value);
    QuestionShows(cfg, f, m, now, es, q);
  }

  lemma {:induction false} NeverNoticedLater(cfg: Config, f: Fleet, m: map<Key, Slot>, now: int, es: seq<FleetEvent>)
    requires es != [] && now <= es[0].ev.now && NeverNoticed(cfg, f, m, now, es)
    ensures NeverNoticed(cfg, FleetStep(cfg, f, es[0]), MapStep(cfg.ttl0, m, es[0].ev), es[0].ev.now, es[1..])
  {
    var e, rest := es[0], es[1..];
    var f', m' := FleetStep(cfg, f, e), MapStep(cfg.ttl0, m, e.ev);
    forall n: nat, more: seq<FleetEvent> | n <= |rest| ensures Unnoticed(cfg, f', m', e.ev.now, rest, n, more) {
      FirstThenRest(es, n + 1, more);
      assert Unnoticed(cfg, f, m, now, es, n + 1, more);
      RunAfterFirst(cfg, f, m, now, e, rest[..n] + more);
    }
  }

  lemma {:induction false} RunAfterFirst(cfg: Config, f: Fleet, m: map<Key, Slot>, now: int, e: FleetEvent,
                                         rest: seq<FleetEvent>)
    requires now <= e.ev.now
    ensures ClockRuns(e.ev.now, Calls(rest)) ==> ClockRuns(now, Calls([e] + rest))
    ensures FleetAnswers(cfg, f, [e] + rest) == MapAnswers(cfg.ttl0, m, Calls([e] + rest)) ==>
      FleetAnswers(cfg, FleetStep(cfg, f, e), rest) == MapAnswers(cfg.ttl0, MapStep(cfg.ttl0, m, e.ev), Calls(rest))
  {
    var run := [e] + rest;
    assert run[1..] == rest && Calls(run)[0] == e.ev && Calls(run)[1..] == Calls(rest);
    assert forall i :: 1 <= i < |run| ==> Calls(run)[i] == Calls(rest)[i - 1];
    assert FleetAnswers(cfg, f, run)[1..] == FleetAnswers(cfg, FleetStep(cfg, f, e), rest);
    assert MapAnswers(cfg.ttl0, m, Calls(run))[1..] == MapAnswers(cfg.ttl0, MapStep(cfg.ttl0, m, e.ev), Calls(rest));
  }

  lemma {:induction false} NoticedExactly(cfg: Config, f: Fleet, m: map<Key, Slot>, now: int, es: seq<FleetEvent>)
    requires Coherent(f, m, now) && cfg.ttl0 == cfg.ttl1 && ClockRuns(now, Calls(es))
    ensures NeverNoticed(cfg, f, m, now, es) <==> AllFleetHarmless(cfg, f, es)
    decreases |es|
  {
    if AllFleetHarmless(cfg, f, es) {
      forall n: nat, more: seq<FleetEvent> | n <= |es| ensures Unnoticed(cfg, f, m, now, es, n, more) {
        HarmlessIsUnnoticed(cfg, f, m, now, es, n, more);
      }
    } else {
      var e := es[0];
      assert Calls(es)[0] == e.ev && Calls(es)[1..] == Calls(es[1..]);
      CoherentLater(f, m, now, e.ev.now);
      if !Harmless(View(f, e.gw), e.ev) {
        MissIsNoticed(cfg, f, m, now, es);
      } else if exists g :: g in f.l0 && g != e.gw && !Unshadowed(cfg, f.l0[g], e.ev) {
        var g :| g in f.l0 && g != e.gw && !Unshadowed(cfg, f.l0[g], e.ev);
        ShadowIsNoticed(cfg, f, m, now, es, g);
      } else if NeverNoticed(cfg, f, m, now, es) {
        StepStaysCoherent(cfg, f, m, e);
        NeverNoticedLater(cfg, f, m, now, es);
        NoticedExactly(cfg, FleetStep(cfg, f, e), MapStep(cfg.ttl0, m, e.ev), e.ev.now, es[1..]);
      }
    }
  }

  function EmptyFleet(gws: set<Gateway>): Fleet { Fleet(map g | g in gws :: [], map[]) }

  /** From empty caches, for any gateways with memory layers over one Redis: no questions at any point of a run can tell
      it from one unbounded map iff Redis misses harmless calls only and no write or Delete leaves behind, in another
      gateway's memory, an entry with another value or a later expiry. */
  lemma {:induction false} FleetLikeOneMapExactly(cfg: Config, gws: set<Gateway>, now: int, es: seq<FleetEvent>)
    requires cfg.ttl0 == cfg.ttl1 && ClockRuns(now, Calls(es))
    ensures NeverNoticed(cfg, EmptyFleet(gws), map[], now, es) <==> AllFleetHarmless(cfg, EmptyFleet(gws), es)
  {
    NoticedExactly(cfg, EmptyFleet(gws), map[], now, es);
  }

  /** The plainest such run: gateway 1 answers with the entry it wrote itself after gateway 0 has overwritten it. */
  lemma {:induction false} OverwriteElsewhereIsStale(cfg: Config, k: Key, v: Value, w: Value)
    requires cfg.capacity >= 1 && cfg.ttl0 == cfg.ttl1 == 0
    ensures var f := Fleet(map[0 := [], 1 := [Item(k, Slot(v, None))]], map[k := Slot(v, None)]);
      var e, q := At(0, Event(Set(k, Some(w), 0), 1, true)), At(1, Event(Get(k), 2, true));
      && FleetStep(cfg, EmptyFleet({0, 1}), At(1, Event(Set(k, Some(v), 0), 0, true))) == f
      && FleetAnswers(cfg, f, [e, q]) == [Done, Hit(v)]
      && MapAnswers(cfg.ttl0, map[k := Slot(v, None)], Calls([e, q])) == [Done, Hit(w)]
  {
    var f := Fleet(map[0 := [], 1 := [Item(k, Slot(v, None))]], map[k := Slot(v, None)]);
    var e, q := At(0, Event(Set(k, Some(w), 0), 1, true)), At(1, Event(Get(k), 2, true));
    assert Put([], Item(k, Slot(v, None)), cfg.capacity) == [Item(k, Slot(v, None))];
    assert EmptyFleet({0, 1}).l0 == map[0 := [], 1 := []];
    TwoAnswers(cfg, f, map[k := Slot(v, None)], e, q);
    assert Find(f.l0[1], k) == Some(Slot(v, None));
    assert FleetStep(cfg, f, e).l0[1] == f.l0[1];
  }
}
