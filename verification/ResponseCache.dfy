/**
 The exact response cache: an LRU memory layer with per-entry expiry in front of a shared Redis layer.
 internal/service/cache/memory_cache.go, redis_cache.go, layered_cache.go.
 */
module ResponseCache {
  import opened Options

  type Key = string
  type Value = string
  datatype Slot = Slot(value: Value, expiresAt: Option<int>)
  datatype Item = Item(key: Key, slot: Slot)

  predicate Expired(slot: Slot, now: int) { slot.expiresAt.Some? && now > slot.expiresAt.value }

  function Expiry(ttl: int, defTTL: int, now: int): Option<int> {
    var t := if ttl <= 0 then defTTL else ttl;
    if t > 0 then Some(now + t) else None
  }

  // ---- The recency list as a value, most recent first ----

  function IndexOf(s: seq<Item>, k: Key): (i: nat)
    ensures i <= |s| && (i < |s| ==> s[i].key == k) && forall j :: 0 <= j < i ==> s[j].key != k
  {
    if s == [] then 0 else if s[0].key == k then 0 else 1 + IndexOf(s[1..], k)
  }

  function Removed<T>(s: seq<T>, i: nat): (r: seq<T>)
    requires i < |s|
    ensures |r| == |s| - 1 && forall j :: 0 <= j < |r| ==> r[j] == s[if j < i then j else j + 1]
  {
    s[..i] + s[i + 1..]
  }

  function Fronted<T>(s: seq<T>, i: nat): (r: seq<T>)
    requires i < |s|
    ensures |r| == |s| && r[0] == s[i] && forall j :: 1 <= j < |r| ==> r[j] == s[if j <= i then j - 1 else j]
  {
    [s[i]] + Removed(s, i)
  }

  function Find(s: seq<Item>, k: Key): Option<Slot> {
    var i := IndexOf(s, k);
    if i < |s| then Some(s[i].slot) else None
  }

  function Without(s: seq<Item>, k: Key): seq<Item> {
    var i := IndexOf(s, k);
    if i < |s| then Removed(s, i) else s
  }

  function Take(s: seq<Item>, n: nat): seq<Item> { if |s| <= n then s else s[..n] }

  ghost predicate Unique(s: seq<Item>) { forall i, j :: 0 <= i < j < |s| ==> s[i].key != s[j].key }

  function Put(s: seq<Item>, it: Item, cap: nat): seq<Item> { Take([it] + Without(s, it.key), cap) }

  function Touch(s: seq<Item>, k: Key, now: int): seq<Item> {
    match Find(s, k)
    case None => s
    case Some(slot) => if Expired(slot, now) then Without(s, k) else [Item(k, slot)] + Without(s, k)
  }

  /** The value under k, if it is there and has not expired. */
  function Fresh(slot: Option<Slot>, now: int): Option<Slot> {
    if slot.Some? && !Expired(slot.value, now) then slot else None
  }

  function ValueOf(slot: Option<Slot>): Option<Value> { if slot.Some? then Some(slot.value.value) else None }

  // ---- The memory layer ----

  /** A list element; an update rewrites its entry in place. */
  class Element {
    const key: Key
    var slot: Slot

    constructor (key: Key, slot: Slot)
      ensures this.key == key && this.slot == slot
    {
      this.key := key;
      this.slot := slot;
    }
  }

  function KeysOf(list: seq<Element>): set<Key> { set i | 0 <= i < |list| :: list[i].key }

  /** List and index are in bijection. */
  ghost predicate Linked(list: seq<Element>, items: map<Key, Element>) {
    && items.Keys == KeysOf(list)
    && (forall i :: 0 <= i < |list| ==> items[list[i].key] == list[i])
    && (forall i, j :: 0 <= i < j < |list| ==> list[i].key != list[j].key)
  }

  lemma {:induction false} LinkedRemove(list: seq<Element>, items: map<Key, Element>, i: nat)
    requires Linked(list, items) && i < |list|
    ensures Linked(Removed(list, i), items - {list[i].key})
  {
    var rest := Removed(list, i);
    forall k | k in KeysOf(list) && k != list[i].key ensures k in KeysOf(rest) {
      var j :| 0 <= j < |list| && list[j].key == k;
      assert rest[if j < i then j else j - 1].key == k;
    }
  }

  lemma {:induction false} LinkedMove(list: seq<Element>, items: map<Key, Element>, i: nat)
    requires Linked(list, items) && i < |list|
    ensures Linked(Fronted(list, i), items)
  {
    var moved := Fronted(list, i);
    forall k | k in KeysOf(list) ensures k in KeysOf(moved) {
      var j :| 0 <= j < |list| && list[j].key == k;
      assert moved[if j == i then 0 else if j < i then j + 1 else j].key == k;
    }
  }

  lemma {:induction false} LinkedPush(list: seq<Element>, items: map<Key, Element>, el: Element)
    requires Linked(list, items) && el.key !in items
    ensures Linked([el] + list, items[el.key := el])
  {
    var pushed := [el] + list;
    forall k | k in KeysOf(list) + {el.key} ensures k in KeysOf(pushed) {
      if k != el.key {
        var j :| 0 <= j < |list| && list[j].key == k;
        assert pushed[j + 1].key == k;
      } else {
        assert pushed[0].key == k;
      }
    }
  }

  lemma {:induction false} WithoutAt(s: seq<Item>, i: nat)
    requires Unique(s) && i < |s|
    ensures IndexOf(s, s[i].key) == i
    ensures Without(s, s[i].key) == Removed(s, i)
  {
  }

  /** The index finds exactly what the list holds. */
  lemma {:induction false} IndexFinds(list: seq<Element>, items: map<Key, Element>, s: seq<Item>, k: Key)
    requires Linked(list, items) && SameKeys(list, s)
    ensures Unique(s)
    ensures k in items <==> IndexOf(s, k) < |list|
    ensures k in items ==> list[IndexOf(s, k)] == items[k]
  {
    if k in items {
      var j :| 0 <= j < |list| && list[j].key == k;
      assert s[j].key == k;
    }
  }

  ghost predicate SameKeys(list: seq<Element>, s: seq<Item>) {
    |s| == |list| && forall i :: 0 <= i < |s| ==> s[i].key == list[i].key
  }

  ghost predicate SameSlots(list: seq<Element>, s: seq<Item>)
    reads list
  {
    |s| == |list| && forall i :: 0 <= i < |s| ==> s[i].slot == list[i].slot
  }

  lemma {:induction false} MovedAlike(list: seq<Element>, items: map<Key, Element>, s: seq<Item>, i: nat)
    requires Linked(list, items) && SameKeys(list, s) && SameSlots(list, s) && i < |list|
    ensures Linked(Fronted(list, i), items) && SameKeys(Fronted(list, i), Fronted(s, i))
    ensures SameSlots(Fronted(list, i), Fronted(s, i))
    ensures Fronted(s, i) == [s[i]] + Without(s, list[i].key)
  {
    LinkedMove(list, items, i);
    SlotsMoveAlike(list, s, i);
    WithoutAt(s, i);
  }

  lemma {:induction false} SlotsMoveAlike(list: seq<Element>, s: seq<Item>, i: nat)
    requires SameKeys(list, s) && SameSlots(list, s) && i < |list|
    ensures SameKeys(Fronted(list, i), Fronted(s, i)) && SameSlots(Fronted(list, i), Fronted(s, i))
  {
  }

  lemma {:induction false} DroppingLast(list: seq<Element>, items: map<Key, Element>, s: seq<Item>)
    requires Linked(list, items) && SameKeys(list, s) && list != []
    ensures Without(s, list[|list| - 1].key) == s[..|s| - 1]
  {
    WithoutAt(s, |s| - 1);
  }

  lemma {:induction false} SlotReplaced(s: seq<Item>, i: nat, slot: Slot)
    requires Unique(s) && i < |s|
    ensures var s' := s[i := Item(s[i].key, slot)]; Unique(s') && Without(s', s[i].key) == Without(s, s[i].key)
  {
    var s' := s[i := Item(s[i].key, slot)];
    WithoutAt(s, i);
    WithoutAt(s', i);
    assert Removed(s', i) == Removed(s, i);
  }

  class MemoryCache {
    const capacity: nat
    const defTTL: int
    var list: seq<Element>
    var items: map<Key, Element>
    var hits: nat
    var misses: nat
    var writes: nat
    ghost var contents: seq<Item>   // what the elements hold, most recent first

    ghost predicate Consistent()
      reads this, list
    {
      Linked(list, items) && SameKeys(list, contents) && SameSlots(list, contents)
    }

    ghost predicate Valid()
      reads this, list
    {
      Consistent() && 1 <= capacity && |list| <= capacity
    }

    constructor (capacity: int, defTTL: int)
      ensures Valid() && contents == [] && list == []
      ensures this.capacity == (if capacity < 1 then 1024 else capacity) && this.defTTL == defTTL
      ensures hits == 0 && misses == 0 && writes == 0
    {
      this.capacity := if capacity < 1 then 1024 else capacity;
      this.defTTL := defTTL;
      list, items, contents := [], map[], [];
      hits, misses, writes := 0, 0, 0;
    }

    /** removeLocked, for the element at position i. */
    method RemoveLocked(i: nat)
      requires Consistent() && i < |list|
      modifies this`list, this`items, this`contents
      ensures Consistent()
      ensures |list| == |old(list)| - 1 && items == old(items) - {old(list[i].key)}
      ensures contents == Without(old(contents), old(list[i].key))
    {
      LinkedRemove(list, items, i);
      IndexFinds(list, items, contents, list[i].key);
      WithoutAt(contents, i);
      contents := Removed(contents, i);
      items := items - {list[i].key};
      list := Removed(list, i);
    }

    /** list.MoveToFront, for the element at position i. */
    method MoveToFront(i: nat)
      requires Consistent() && i < |list|
      modifies this`list, this`contents
      ensures Consistent() && |list| == |old(list)|
      ensures contents == [old(contents)[i]] + Without(old(contents), old(list[i].key))
    {
      MovedAlike(list, items, contents, i);
      contents := Fronted(contents, i);
      list := Fronted(list, i);
    }

    /** Where the element of a key in the index sits in the list; the source follows a pointer. */
    method Position(k: Key) returns (i: nat)
      requires Consistent() && k in items
      ensures i < |list| && list[i] == items[k] && i == IndexOf(contents, k)
    {
      IndexFinds(list, items, contents, k);
      i := 0;
      while list[i] != items[k]
        invariant i <= IndexOf(contents, k) < |list|
        decreases |list| - i
      {
        i := i + 1;
      }
    }

    method Get(k: Key, now: int) returns (r: Option<Value>)
      requires Valid()
      modifies this
      ensures Valid()
      ensures contents == Touch(old(contents), k, now)
      ensures r == ValueOf(Fresh(Find(old(contents), k), now))
      ensures hits == old(hits) + (if r.Some? then 1 else 0)
      ensures misses == old(misses) + (if r.Some? then 0 else 1)
      ensures writes == old(writes)
    {
      IndexFinds(list, items, contents, k);
      if k !in items {
        misses := misses + 1;
        return None;
      }
      var i := Position(k);
      var slot := list[i].slot;
      if slot.expiresAt.Some? && now > slot.expiresAt.value {
        misses := misses + 1;
        RemoveLocked(i);
        return None;
      }
      hits := hits + 1;
      MoveToFront(i);
      r := Some(slot.value);
    }

    method Set(k: Key, e: Option<Value>, ttl: int, now: int) returns (ok: bool)
      requires Valid()
      modifies this, list
      ensures Valid() && ok == e.Some?
      ensures contents == if e.None? then old(contents)
                          else Put(old(contents), Item(k, Slot(e.value, Expiry(ttl, defTTL, now))), capacity)
      ensures hits == old(hits) && misses == old(misses)
      ensures writes == old(writes) + (if ok then 1 else 0)
    {
      if e.None? {
        return false;
      }
      var t := if ttl <= 0 then defTTL else ttl;
      var slot := Slot(e.value, if t > 0 then Some(now + t) else None);
      assert slot == Slot(e.value, Expiry(ttl, defTTL, now));
      if k in items {
        Overwrite(k, slot);
      } else {
        Insert(k, slot);
      }
      ok := true;
    }

    /** Set on a key the index holds: rewrite the element's entry and move it to the front. */
    method Overwrite(k: Key, slot: Slot)
      requires Valid() && k in items
      modifies this`list, this`contents, this`writes, list
      ensures Valid() && contents == Put(old(contents), Item(k, slot), capacity)
      ensures writes == old(writes) + 1
    {
      IndexFinds(list, items, contents, k);
      var i := Position(k);
      SlotReplaced(contents, i, slot);
      items[k].slot := slot;
      contents := contents[i := Item(k, slot)];
      writes := writes + 1;
      MoveToFront(i);
    }

    /** Set on a new key: push it to the front and evict from the back. */
    method Insert(k: Key, slot: Slot)
      requires Valid() && k !in items
      modifies this`list, this`items, this`contents, this`writes
      ensures Valid() && contents == Put(old(contents), Item(k, slot), capacity)
      ensures writes == old(writes) + 1
    {
      IndexFinds(list, items, contents, k);
      var el := new Element(k, slot);
      LinkedPush(list, items, el);
      list := [el] + list;
      items := items[k := el];
      contents := [Item(k, slot)] + contents;
      writes := writes + 1;
      EvictOldest();
    }

    method EvictOldest()
      requires Consistent() && 1 <= capacity
      modifies this`list, this`items, this`contents
      ensures Valid() && contents == Take(old(contents), capacity)
    {
      while |list| > capacity
        invariant Consistent() && |list| <= |old(list)| && (capacity <= |list| || |list| == |old(list)|)
        invariant contents == old(contents)[..|list|]
      {
        DroppingLast(list, items, contents);
        RemoveLocked(|list| - 1);
      }
    }

    method Delete(k: Key)
      requires Valid()
      modifies this`list, this`items, this`contents
      ensures Valid() && contents == Without(old(contents), k)
    {
      IndexFinds(list, items, contents, k);
      if k in items {
        var i := Position(k);
        RemoveLocked(i);
      }
    }
  }

  // ---- The shared layer ----

  /** A map whose keys Redis drops once expired. `up` is whether the server answers. */
  class RedisCache {
    const defTTL: int
    var store: map<Key, Slot>
    var up: bool

    constructor (defTTL: int)
      ensures this.defTTL == defTTL && store == map[] && up
    {
      this.defTTL := defTTL;
      store, up := map[], true;
    }

    method Get(k: Key, now: int) returns (r: Option<Value>, failed: bool)
      modifies this`store
      ensures failed == !up
      ensures up ==> r == ValueOf(Fresh(Lookup(old(store), k), now)) && store == Purge(old(store), k, now)
      ensures !up ==> r == None && store == old(store)
    {
      if !up {
        return None, true;
      }
      if k in store && Expired(store[k], now) {
        store := store - {k};
      }
      return if k in store then Some(store[k].value) else None, false;
    }

    method Set(k: Key, e: Option<Value>, ttl: int, now: int) returns (ok: bool)
      modifies this`store
      ensures ok == (e.Some? && up)
      ensures store == if ok then old(store)[k := Slot(e.value, Expiry(ttl, defTTL, now))] else old(store)
    {
      if e.None? || !up {
        return false;
      }
      var t := if ttl <= 0 then defTTL else ttl;
      store := store[k := Slot(e.value, if t > 0 then Some(now + t) else None)];
      ok := true;
    }

    method Delete(k: Key) returns (ok: bool)
      modifies this`store
      ensures ok == up
      ensures store == if ok then old(store) - {k} else old(store)
    {
      if up {
        store := store - {k};
      }
      ok := up;
    }
  }

  function Lookup(store: map<Key, Slot>, k: Key): Option<Slot> { if k in store then Some(store[k]) else None }

  function Purge(store: map<Key, Slot>, k: Key, now: int): map<Key, Slot> {
    if k in store && Expired(store[k], now) then store - {k} else store
  }

  // ---- Both layers, as values ----

  datatype Call = Get(key: Key) | Set(key: Key, entry: Option<Value>, ttl: int) | Delete(key: Key)

  /** A call, the clock, and whether Redis answers it. */
  datatype Event = Event(call: Call, now: int, up: bool)

  /** What the caller sees: a hit or a miss, success or an error. */
  datatype Answer = Hit(value: Value) | Miss | Failed | Done

  datatype Layers = Layers(l0: Option<seq<Item>>, l1: Option<map<Key, Slot>>)
  datatype Config = Config(capacity: nat, ttl0: int, ttl1: int)

  function MemStep(cfg: Config, s: seq<Item>, ev: Event): seq<Item> {
    match ev.call
    case Get(k) => Touch(s, k, ev.now)
    case Set(k, e, ttl) =>
      if e.None? then s else Put(s, Item(k, Slot(e.value, Expiry(ttl, cfg.ttl0, ev.now))), cfg.capacity)
    case Delete(k) => Without(s, k)
  }

  function RedisStep(ttl1: int, m: map<Key, Slot>, ev: Event): map<Key, Slot> {
    if !ev.up then m
    else match ev.call
      case Get(k) => Purge(m, k, ev.now)
      case Set(k, e, ttl) => if e.None? then m else m[k := Slot(e.value, Expiry(ttl, ttl1, ev.now))]
      case Delete(k) => m - {k}
  }

  /** What the memory layer alone would answer to a Get. */
  function L0Value(s: Layers, ev: Event): Option<Value>
    requires ev.call.Get?
  {
    if s.l0.Some? then ValueOf(Fresh(Find(s.l0.value, ev.call.key), ev.now)) else None
  }

  function LayeredStep(cfg: Config, s: Layers, ev: Event): Layers {
    var l0 := if s.l0.Some? then Some(MemStep(cfg, s.l0.value, ev)) else None;
    if ev.call.Get? && L0Value(s, ev).Some? then s.(l0 := l0)
    else Layers(l0, if s.l1.Some? then Some(RedisStep(cfg.ttl1, s.l1.value, ev)) else None)
  }

  function LayeredAnswer(s: Layers, ev: Event): Answer {
    match ev.call
    case Get(k) =>
      var v := L0Value(s, ev);
      if v.Some? then Hit(v.value)
      else if s.l1.None? then Miss
      else if !ev.up then Failed
      else
        var w := ValueOf(Fresh(Lookup(s.l1.value, k), ev.now));
        if w.Some? then Hit(w.value) else Miss
    case Set(_, e, _) => if (e.None? && (s.l0.Some? || s.l1.Some?)) || (s.l1.Some? && !ev.up) then Failed else Done
    case Delete(_) => Done
  }

  class LayeredCache {
    const l0: MemoryCache?
    const l1: RedisCache?

    constructor (l0: MemoryCache?, l1: RedisCache?)
      ensures this.l0 == l0 && this.l1 == l1
    {
      this.l0, this.l1 := l0, l1;
    }

    ghost predicate Valid()
      reads l0, if l0 == null then [] else l0.list
    {
      l0 != null ==> l0.Valid()
    }

    ghost function State(): Layers
      reads l0, l1
    {
      Layers(if l0 == null then None else Some(l0.contents), if l1 == null then None else Some(l1.store))
    }

    ghost predicate Configured(cfg: Config) {
      (l0 != null ==> l0.capacity == cfg.capacity && l0.defTTL == cfg.ttl0) && (l1 != null ==> l1.defTTL == cfg.ttl1)
    }

    method Get(k: Key, now: int, ghost cfg: Config) returns (a: Answer)
      requires Valid() && Configured(cfg)
      modifies l0, l1
      ensures Valid() && (l1 != null ==> l1.up == old(l1.up))
      ensures var ev := Event(Call.Get(k), now, l1 != null && l1.up);
        a == LayeredAnswer(old(State()), ev) && State() == LayeredStep(cfg, old(State()), ev)
    {
      if l0 != null {
        var v := l0.Get(k, now);
        if v.Some? {
          return Hit(v.value);
        }
      }
      if l1 != null {
        var v, failed := l1.Get(k, now);
        if v.Some? || failed {
          return if v.Some? then Hit(v.value) else Failed;
        }
      }
      a := Miss;
    }

    method Set(k: Key, e: Option<Value>, ttl: int, now: int, ghost cfg: Config) returns (a: Answer)
      requires Valid() && Configured(cfg)
      modifies l0, l1, if l0 == null then [] else l0.list
      ensures Valid() && (l1 != null ==> l1.up == old(l1.up))
      ensures var ev := Event(Call.Set(k, e, ttl), now, l1 != null && l1.up);
        a == LayeredAnswer(old(State()), ev) && State() == LayeredStep(cfg, old(State()), ev)
    {
      var errs := 0;
      if l0 != null {
        var ok := l0.Set(k, e, ttl, now);
        errs := if ok then errs else errs + 1;
      }
      if l1 != null {
        var ok := l1.Set(k, e, ttl, now);
        errs := if ok then errs else errs + 1;
      }
      a := if errs == 0 then Done else Failed;
    }

    method Delete(k: Key, now: int, ghost cfg: Config) returns (a: Answer)
      requires Valid() && Configured(cfg)
      modifies l0, l1
      ensures Valid() && (l1 != null ==> l1.up == old(l1.up))
      ensures var ev := Event(Call.Delete(k), now, l1 != null && l1.up);
        a == LayeredAnswer(old(State()), ev) && State() == LayeredStep(cfg, old(State()), ev)
    {
      if l0 != null {
        l0.Delete(k);
      }
      if l1 != null {
        var _ := l1.Delete(k);
      }
      a := Done;
    }
  }
}
