/**
 Canonical JSON and cache-key construction: internal/service/cache/cache.go.
 */
module CanonicalJson {
  newtype Byte = x: int | 0 <= x < 256
  type Bytes = seq<Byte>

  const COMMA: Byte := 44
  const COLON: Byte := 58
  const LBRACKET: Byte := 91
  const RBRACKET: Byte := 93
  const LBRACE: Byte := 123
  const RBRACE: Byte := 125

  /** A number is its 64-bit pattern. */
  datatype Scalar = Null | Bool(b: bool) | Number(bits: int) | Text(text: Bytes)
  datatype Json = Leaf(scalar: Scalar) | Arr(items: seq<Json>) | Obj(members: map<Bytes, Json>)

  /** json.Marshal on scalars and on object keys. */
  datatype Codec = Codec(scalar: Scalar -> Bytes, key: Bytes -> Bytes)

  /** What may follow a value: nothing, a comma or a closing bracket. */
  predicate Delimited(r: Bytes) { r == [] || r[0] in {COMMA, RBRACKET, RBRACE} }

  ghost predicate ScalarsDelimit(c: Codec, a: Scalar, b: Scalar, r: Bytes, q: Bytes) {
    Delimited(r) && Delimited(q) && c.scalar(a) + r == c.scalar(b) + q ==> a == b
  }

  ghost predicate KeysDelimit(c: Codec, a: Bytes, b: Bytes, r: Bytes, q: Bytes) {
    c.key(a) + [COLON] + r == c.key(b) + [COLON] + q ==> a == b
  }

  /** Scalar and key encodings are injective and end where the next delimiter begins. */
  ghost predicate SelfDelimiting(c: Codec) {
    && (forall a :: c.scalar(a) != [] && c.scalar(a)[0] !in {COMMA, LBRACKET, RBRACKET, LBRACE, RBRACE})
    && (forall k :: c.key(k) != [] && c.key(k)[0] !in {COMMA, RBRACE})
    && (forall a, b, r, q :: ScalarsDelimit(c, a, b, r, q))
    && (forall a, b, r, q :: KeysDelimit(c, a, b, r, q))
  }

  // ---- Sorted keys ----

  /** Bytewise lexicographic order. */
  predicate Leq(a: Bytes, b: Bytes) {
    a == [] || (b != [] && (a[0] < b[0] || (a[0] == b[0] && Leq(a[1..], b[1..]))))
  }

  lemma {:induction false} LeqOrder(a: Bytes, b: Bytes, c: Bytes)
    ensures Leq(a, a)
    ensures Leq(a, b) || Leq(b, a)
    ensures Leq(a, b) && Leq(b, a) ==> a == b
    ensures Leq(a, b) && Leq(b, c) ==> Leq(a, c)
    decreases |a| + |b| + |c|
  {
    if a != [] && b != [] && c != [] {
      LeqOrder(a[1..], b[1..], c[1..]);
      assert a == [a[0]] + a[1..] && b == [b[0]] + b[1..];
    } else if a != [] && b != [] {
      LeqOrder(a[1..], b[1..], c);
      assert a == [a[0]] + a[1..] && b == [b[0]] + b[1..];
    } else if a != [] {
      LeqOrder(a[1..], b, c);
    }
  }

  /** The order is decided by the first byte in which two keys differ; a beginning comes before the whole. */
  lemma {:induction false} LeqExactly(a: Bytes, b: Bytes, n: nat)
    requires n <= |a| && n <= |b| && a[..n] == b[..n]
    requires n < |a| && n < |b| ==> a[n] != b[n]
    ensures Leq(a, b) <==> n == |a| || (n < |b| && a[n] < b[n])
  {
    if n > 0 {
      assert a[0] == a[..n][0] == b[..n][0] == b[0];
      assert a[1..][..n - 1] == a[..n][1..] && b[1..][..n - 1] == b[..n][1..];
      LeqExactly(a[1..], b[1..], n - 1);
    }
  }

  ghost predicate Sorted(ks: seq<Bytes>) { forall i, j :: 0 <= i < j < |ks| ==> Leq(ks[i], ks[j]) }
  ghost predicate Distinct(ks: seq<Bytes>) { forall i, j :: 0 <= i < j < |ks| ==> ks[i] != ks[j] }

  /** ks lists the set in order, without repeats. */
  ghost predicate Lists(ks: seq<Bytes>, keys: set<Bytes>) {
    Sorted(ks) && Distinct(ks) && forall k :: k in ks <==> k in keys
  }

  /** There is only one such list. */
  lemma {:induction false} ListsUnique(a: seq<Bytes>, b: seq<Bytes>, keys: set<Bytes>)
    requires Lists(a, keys) && Lists(b, keys)
    ensures a == b
    decreases |a|
  {
    if b != [] {
      assert b[0] in b && b[0] in keys;
    }
    if a != [] {
      assert a[0] in keys && a[0] in b && b[0] in a;
      LeqOrder(a[0], b[0], []);
      assert a[0] == b[0];
      TailLists(a, keys);
      TailLists(b, keys);
      ListsUnique(a[1..], b[1..], keys - {a[0]});
      assert a == [a[0]] + a[1..] && b == [b[0]] + b[1..];
    }
  }

  lemma {:induction false} TailLists(a: seq<Bytes>, keys: set<Bytes>)
    requires Lists(a, keys) && a != []
    ensures Lists(a[1..], keys - {a[0]})
  {
    forall k | k in keys && k != a[0] ensures k in a[1..] {
      var i :| 0 <= i < |a| && a[i] == k;
      assert a[1..][i - 1] == k;
    }
  }

  function InsertKey(ks: seq<Bytes>, k: Bytes): seq<Bytes> {
    if ks == [] || Leq(k, ks[0]) then [k] + ks else [ks[0]] + InsertKey(ks[1..], k)
  }

  lemma {:induction false} InsertLists(ks: seq<Bytes>, keys: set<Bytes>, k: Bytes)
    requires Lists(ks, keys) && k !in keys
    ensures Lists(InsertKey(ks, k), keys + {k})
    decreases |ks|
  {
    var r := InsertKey(ks, k);
    if ks == [] || Leq(k, ks[0]) {
      assert r[0] == k;
      assert forall i :: 0 <= i < |ks| ==> r[i + 1] == ks[i];
      forall i | 0 <= i < |ks| ensures Leq(k, ks[i]) {
        LeqOrder(k, ks[0], ks[i]);
      }
      assert forall x :: x in ks ==> x in r;
    } else {
      TailLists(ks, keys);
      InsertLists(ks[1..], keys - {ks[0]}, k);
      var t := InsertKey(ks[1..], k);
      assert r == [ks[0]] + t;
      assert keys - {ks[0]} + {k} == keys + {k} - {ks[0]};
      LeqOrder(k, ks[0], []);
      forall i | 0 <= i < |t| ensures Leq(ks[0], t[i]) && t[i] != ks[0] {
        assert t[i] in keys - {ks[0]} + {k};
        if t[i] != k {
          assert t[i] in ks;
        }
      }
      ConsLists(ks[0], t, keys + {k} - {ks[0]});
      assert keys + {k} - {ks[0]} + {ks[0]} == keys + {k};
    }
  }

  lemma {:induction false} ConsLists(k: Bytes, t: seq<Bytes>, keys: set<Bytes>)
    requires Lists(t, keys) && k !in keys && forall i :: 0 <= i < |t| ==> Leq(k, t[i])
    ensures Lists([k] + t, keys + {k})
  {
    var r := [k] + t;
    forall i, j | 0 <= i < j < |r| ensures Leq(r[i], r[j]) && r[i] != r[j] {
      assert r[j] == t[j - 1];
      if i == 0 {
        assert t[j - 1] in keys;
      } else {
        assert r[i] == t[i - 1];
      }
    }
    assert forall x :: x in r <==> x == k || x in t;
  }

  lemma {:induction false} ListExists(keys: set<Bytes>)
    ensures exists ks :: Lists(ks, keys)
  {
    if keys == {} {
      assert Lists([], keys);
    } else {
      var k :| k in keys;
      ListExists(keys - {k});
      var ks :| Lists(ks, keys - {k});
      InsertLists(ks, keys - {k}, k);
      assert keys - {k} + {k} == keys;
    }
  }

  /** The keys in order. */
  ghost function KeyList(keys: set<Bytes>): (ks: seq<Bytes>)
    ensures Lists(ks, keys)
  {
    ListExists(keys);
    var ks :| Lists(ks, keys);
    ks
  }

  /** Ranging over a map meets the keys in an order of the runtime's choosing; sorting them leaves one list. */
  method SortedKeys(keys: set<Bytes>) returns (ks: seq<Bytes>)
    ensures ks == KeyList(keys)
  {
    var rest, met := keys, [];
    while rest != {}
      invariant rest <= keys && Distinct(met) && forall k :: k in met <==> k in keys - rest
      decreases |rest|
    {
      var k :| k in rest;
      assert k !in met;
      met := met + [k];
      rest := rest - {k};
    }
    ks := [];
    for i := 0 to |met|
      invariant Lists(ks, set j | 0 <= j < i :: met[j])
    {
      InsertLists(ks, set j | 0 <= j < i :: met[j], met[i]);
      ks := InsertKey(ks, met[i]);
      assert (set j | 0 <= j < i + 1 :: met[j]) == (set j | 0 <= j < i :: met[j]) + {met[i]};
    }
    assert (set j | 0 <= j < |met| :: met[j]) == keys by {
      forall k | k in keys ensures k in set j | 0 <= j < |met| :: met[j] {
        assert k in met;
      }
      forall k | k in set j | 0 <= j < |met| :: met[j] ensures k in keys {
        assert k in met;
      }
    }
    ListsUnique(ks, KeyList(keys), keys);
  }

  // ---- The canonical bytes ----

  ghost function Canon(c: Codec, v: Json): Bytes
    decreases v, 1, 0
  {
    match v
    case Leaf(s) => c.scalar(s)
    case Arr(items) => [LBRACKET] + ItemsFrom(c, v, 0)
    case Obj(members) => [LBRACE] + MembersFrom(c, v, KeyList(members.Keys), 0)
  }

  function Comma(i: nat): Bytes { if i > 0 then [COMMA] else [] }

  /** An array from item i to its closing bracket. */
  ghost function ItemsFrom(c: Codec, v: Json, i: nat): Bytes
    requires v.Arr? && i <= |v.items|
    decreases v, 0, |v.items| - i
  {
    if i == |v.items| then [RBRACKET] else Comma(i) + Canon(c, v.items[i]) + ItemsFrom(c, v, i + 1)
  }

  /** An object from member i to its closing brace. */
  ghost function MembersFrom(c: Codec, v: Json, ks: seq<Bytes>, i: nat): Bytes
    requires v.Obj? && i <= |ks| && forall k :: k in ks ==> k in v.members
    decreases v, 0, |ks| - i
  {
    if i == |ks| then [RBRACE]
    else Comma(i) + c.key(ks[i]) + [COLON] + Canon(c, v.members[ks[i]]) + MembersFrom(c, v, ks, i + 1)
  }

  method MarshalCanonical(c: Codec, v: Json) returns (out: Bytes)
    ensures out == Canon(c, v)
    decreases v, 1
  {
    match v
    case Leaf(s) => out := c.scalar(s);
    case Arr(_) => out := MarshalArray(c, v);
    case Obj(_) => out := MarshalObject(c, v);
  }

  method MarshalArray(c: Codec, v: Json) returns (out: Bytes)
    requires v.Arr?
    ensures out == Canon(c, v)
    decreases v, 0
  {
    out := [LBRACKET];
    for i := 0 to |v.items|
      invariant out + ItemsFrom(c, v, i) == Canon(c, v)
    {
      ghost var before := out;
      if i > 0 {
        out := out + [COMMA];
      }
      var item := MarshalCanonical(c, v.items[i]);
      out := out + item;
      assert out + ItemsFrom(c, v, i + 1) == before + ItemsFrom(c, v, i);
    }
    out := out + [RBRACKET];
  }

  method MarshalObject(c: Codec, v: Json) returns (out: Bytes)
    requires v.Obj?
    ensures out == Canon(c, v)
    decreases v, 0
  {
    var ks := SortedKeys(v.members.Keys);
    out := [LBRACE];
    for i := 0 to |ks|
      invariant out + MembersFrom(c, v, ks, i) == Canon(c, v)
    {
      ghost var before := out;
      if i > 0 {
        out := out + [COMMA];
      }
      out := out + c.key(ks[i]) + [COLON];
      var member := MarshalCanonical(c, v.members[ks[i]]);
      out := out + member;
      assert out + MembersFrom(c, v, ks, i + 1) == before + MembersFrom(c, v, ks, i);
    }
    out := out + [RBRACE];
  }

  /** Byte by byte: [] and {} ... */
  lemma {:induction false} EmptyWritten(c: Codec)
    ensures Canon(c, Arr([])) == [91, 93] && Canon(c, Obj(map[])) == [123, 125]
  {
    var empty: map<Bytes, Json> := map[];
    ListsUnique([], KeyList(empty.Keys), empty.Keys);
    assert MembersFrom(c, Obj(empty), [], 0) == [125];
  }

  /** ... [x,y] ... */
  lemma {:induction false} ArrayWritten(c: Codec, x: Json, y: Json)
    ensures Canon(c, Arr([x, y])) == [91] + Canon(c, x) + [44] + Canon(c, y) + [93]
  {
    assert ItemsFrom(c, Arr([x, y]), 2) == [93];
    assert ItemsFrom(c, Arr([x, y]), 1) == [44] + Canon(c, y) + [93];
  }

  /** ... and {"k":x,"j":y}, the smaller key first. */
  lemma {:induction false} ObjectWritten(c: Codec, x: Json, y: Json, k: Bytes, j: Bytes)
    requires Leq(k, j) && k != j
    ensures Canon(c, Obj(map[j := y, k := x])) ==
      [123] + (c.key(k) + [58] + Canon(c, x) + ([44] + c.key(j) + [58] + Canon(c, y) + [125]))
  {
    var m := map[j := y, k := x];
    PairListed(m.Keys, k, j);
    var v, last := Obj(m), [44] + c.key(j) + [58] + Canon(c, y) + [125];
    assert MembersFrom(c, v, [k, j], 1) == last by {
      assert MembersFrom(c, v, [k, j], 2) == [125];
    }
    assert Comma(0) + c.key(k) == c.key(k);
    assert MembersFrom(c, v, [k, j], 0) == c.key(k) + [58] + Canon(c, x) + last;
  }

  lemma {:induction false} PairListed(keys: set<Bytes>, k: Bytes, j: Bytes)
    requires keys == {k, j} && Leq(k, j) && k != j
    ensures KeyList(keys) == [k, j]
  {
    assert Lists([k, j], keys);
    ListsUnique([k, j], KeyList(keys), keys);
  }

  // ---- Equal bytes, equal values ----

  /** The first byte tells the three kinds of value apart and is never a closing bracket or a comma. */
  lemma {:induction false} FirstByte(c: Codec, v: Json)
    requires SelfDelimiting(c)
    ensures Canon(c, v) != [] && Canon(c, v)[0] !in {COMMA, RBRACKET, RBRACE}
    ensures v.Arr? <==> Canon(c, v)[0] == LBRACKET
    ensures v.Obj? <==> Canon(c, v)[0] == LBRACE
  {
    if v.Leaf? {
      assert c.scalar(v.scalar)[0] !in {COMMA, LBRACKET, RBRACKET, LBRACE, RBRACE};
    }
  }

  /** A value can be read back from the front of any text it was written to. */
  lemma {:induction false} CanonReadsBack(c: Codec, v: Json, w: Json, r: Bytes, q: Bytes)
    requires SelfDelimiting(c) && Delimited(r) && Delimited(q)
    requires Canon(c, v) + r == Canon(c, w) + q
    ensures v == w && r == q
    decreases v, 1, 0
  {
    FirstByte(c, v);
    FirstByte(c, w);
    assert (Canon(c, v) + r)[0] == Canon(c, v)[0] && (Canon(c, w) + q)[0] == Canon(c, w)[0];
    match v
    case Leaf(s) =>
      assert ScalarsDelimit(c, s, w.scalar, r, q);
      SamePrefix(c.scalar(s), r, q);
    case Arr(_) =>
      assert (Canon(c, v) + r)[1..] == ItemsFrom(c, v, 0) + r;
      assert (Canon(c, w) + q)[1..] == ItemsFrom(c, w, 0) + q;
      ItemsReadBack(c, v, w, 0, r, q);
    case Obj(_) =>
      var ks, js := KeyList(v.members.Keys), KeyList(w.members.Keys);
      assert (Canon(c, v) + r)[1..] == MembersFrom(c, v, ks, 0) + r;
      assert (Canon(c, w) + q)[1..] == MembersFrom(c, w, js, 0) + q;
      MembersReadBack(c, v, w, ks, js, 0, r, q);
      SameMembers(v.members, w.members, ks);
  }

  lemma {:induction false} SamePrefix(a: Bytes, r: Bytes, q: Bytes)
    requires a + r == a + q
    ensures r == q
  {
    assert (a + r)[|a|..] == r && (a + q)[|a|..] == q;
  }

  lemma {:induction false} SameMembers(m: map<Bytes, Json>, n: map<Bytes, Json>, ks: seq<Bytes>)
    requires (forall k :: k in ks <==> k in m) && (forall k :: k in ks <==> k in n)
    requires forall i :: 0 <= i < |ks| ==> m[ks[i]] == n[ks[i]]
    ensures m == n
  {
    forall k | k in m ensures k in n && m[k] == n[k] {
      assert k in ks;
    }
    assert m.Keys == n.Keys;
  }

  lemma {:induction false} ItemsReadBack(c: Codec, v: Json, w: Json, i: nat, r: Bytes, q: Bytes)
    requires SelfDelimiting(c) && v.Arr? && w.Arr? && i <= |v.items| && i <= |w.items|
    requires v.items[..i] == w.items[..i]
    requires ItemsFrom(c, v, i) + r == ItemsFrom(c, w, i) + q
    ensures v == w && r == q
    decreases v, 0, |v.items| - i
  {
    ItemsEnd(c, v, w, i, r, q);
    if i == |v.items| {
      SamePrefix([RBRACKET], r, q);
      assert v.items == v.items[..i] && w.items == w.items[..i];
    } else {
      var r', q' := ItemsFrom(c, v, i + 1) + r, ItemsFrom(c, w, i + 1) + q;
      assert ItemsFrom(c, v, i) + r == Comma(i) + (Canon(c, v.items[i]) + r');
      assert ItemsFrom(c, w, i) + q == Comma(i) + (Canon(c, w.items[i]) + q');
      SamePrefix(Comma(i), Canon(c, v.items[i]) + r', Canon(c, w.items[i]) + q');
      ItemsDelimit(c, v, i + 1, r);
      ItemsDelimit(c, w, i + 1, q);
      CanonReadsBack(c, v.items[i], w.items[i], r', q');
      assert v.items[..i + 1] == v.items[..i] + [v.items[i]] && w.items[..i + 1] == w.items[..i] + [w.items[i]];
      ItemsReadBack(c, v, w, i + 1, r, q);
    }
  }

  lemma {:induction false} ItemsDelimit(c: Codec, v: Json, i: nat, r: Bytes)
    requires v.Arr? && 0 < i <= |v.items|
    ensures Delimited(ItemsFrom(c, v, i) + r)
  {
  }

  /** Both arrays end here or neither does. */
  lemma {:induction false} ItemsEnd(c: Codec, v: Json, w: Json, i: nat, r: Bytes, q: Bytes)
    requires SelfDelimiting(c) && v.Arr? && w.Arr? && i <= |v.items| && i <= |w.items|
    requires ItemsFrom(c, v, i) + r == ItemsFrom(c, w, i) + q
    ensures i == |v.items| <==> i == |w.items|
  {
    ItemsHead(c, v, i, r);
    ItemsHead(c, w, i, q);
  }

  lemma {:induction false} ItemsHead(c: Codec, v: Json, i: nat, r: Bytes)
    requires SelfDelimiting(c) && v.Arr? && i <= |v.items|
    ensures var t := ItemsFrom(c, v, i) + r; t != [] && (t[0] == RBRACKET <==> i == |v.items|)
  {
    if i < |v.items| {
      FirstByte(c, v.items[i]);
      assert ItemsFrom(c, v, i)[0] == if i > 0 then COMMA else Canon(c, v.items[i])[0];
    }
  }

  lemma {:induction false} MembersReadBack(c: Codec, v: Json, w: Json, ks: seq<Bytes>, js: seq<Bytes>, i: nat,
                                           r: Bytes, q: Bytes)
    requires SelfDelimiting(c) && v.Obj? && w.Obj? && i <= |ks| && i <= |js|
    requires (forall k :: k in ks ==> k in v.members) && (forall k :: k in js ==> k in w.members)
    requires ks[..i] == js[..i] && forall j :: 0 <= j < i ==> v.members[ks[j]] == w.members[js[j]]
    requires MembersFrom(c, v, ks, i) + r == MembersFrom(c, w, js, i) + q
    ensures ks == js && r == q && forall j :: 0 <= j < |ks| ==> v.members[ks[j]] == w.members[ks[j]]
    decreases v, 0, |ks| - i
  {
    MembersHead(c, v, ks, i, r);
    MembersHead(c, w, js, i, q);
    if i == |ks| {
      SamePrefix([RBRACE], r, q);
      assert ks == ks[..i] && js == js[..i];
    } else {
      var k, l := ks[i], js[i];
      var r', q' := MembersFrom(c, v, ks, i + 1) + r, MembersFrom(c, w, js, i + 1) + q;
      var x, y := Canon(c, v.members[k]) + r', Canon(c, w.members[l]) + q';
      assert MembersFrom(c, v, ks, i) + r == Comma(i) + (c.key(k) + [COLON] + x);
      assert MembersFrom(c, w, js, i) + q == Comma(i) + (c.key(l) + [COLON] + y);
      SamePrefix(Comma(i), c.key(k) + [COLON] + x, c.key(l) + [COLON] + y);
      assert KeysDelimit(c, k, l, x, y);
      SamePrefix(c.key(k) + [COLON], x, y);
      MembersDelimit(c, v, ks, i + 1, r);
      MembersDelimit(c, w, js, i + 1, q);
      CanonReadsBack(c, v.members[k], w.members[l], r', q');
      assert ks[..i + 1] == ks[..i] + [k] && js[..i + 1] == js[..i] + [l];
      MembersReadBack(c, v, w, ks, js, i + 1, r, q);
    }
  }

  lemma {:induction false} MembersDelimit(c: Codec, v: Json, ks: seq<Bytes>, i: nat, r: Bytes)
    requires v.Obj? && 0 < i <= |ks| && forall k :: k in ks ==> k in v.members
    ensures Delimited(MembersFrom(c, v, ks, i) + r)
  {
  }

  lemma {:induction false} MembersHead(c: Codec, v: Json, ks: seq<Bytes>, i: nat, r: Bytes)
    requires SelfDelimiting(c) && v.Obj? && i <= |ks| && forall k :: k in ks ==> k in v.members
    ensures var t := MembersFrom(c, v, ks, i) + r; t != [] && (t[0] == RBRACE <==> i == |ks|)
  {
    if i < |ks| {
      assert c.key(ks[i]) != [] && c.key(ks[i])[0] !in {COMMA, RBRACE};
      assert MembersFrom(c, v, ks, i)[0] == if i > 0 then COMMA else c.key(ks[i])[0];
    }
  }

  /** Two JSON values have the same canonical bytes iff they are the same value. */
  lemma {:induction false} CanonicalExactly(c: Codec, v: Json, w: Json)
    requires SelfDelimiting(c)
    ensures Canon(c, v) == Canon(c, w) <==> v == w
  {
    if Canon(c, v) == Canon(c, w) {
      CanonReadsBack(c, v, w, [], []);
    }
  }

  // ---- Cache keys ----

  datatype KeyInput = KeyInput(tenant: Bytes, model: Bytes, prompt: Bytes, stream: bool, surface: Bytes, bucket: Bytes)

  function Field(s: Bytes): Bytes { s + [0] }

  function KeyBytes(k: KeyInput): Bytes {
    Field(k.tenant) + Field(k.model) + Field(k.surface) + Field(k.prompt) + [if k.stream then 1 else 0]
    + if k.bucket != [] then Field(k.bucket) else []
  }

  lemma {:induction false} KeyWritten(k: KeyInput)
    ensures KeyBytes(k) == k.tenant + [0] + k.model + [0] + k.surface + [0] + k.prompt + [0]
                           + (if k.stream then [1] else [0]) + (if k.bucket == [] then [] else k.bucket + [0])
  {
    var t, m, s, p := k.tenant + [0], k.model + [0], k.surface + [0], k.prompt + [0];
    assert t + m == k.tenant + [0] + k.model + [0];
    assert t + m + s == k.tenant + [0] + k.model + [0] + k.surface + [0];
    assert t + m + s + p == k.tenant + [0] + k.model + [0] + k.surface + [0] + k.prompt + [0];
  }

  /** The hash state BuildKey feeds field by field. */
  class Hasher {
    var written: Bytes

    constructor ()
      ensures written == []
    {
      written := [];
    }

    method Write(b: Bytes)
      modifies this
      ensures written == old(written) + b
    {
      written := written + b;
    }

    method WriteField(s: Bytes)
      modifies this
      ensures written == old(written) + Field(s)
    {
      Write(s);
      Write([0]);
    }
  }

  method BuildKey(k: KeyInput, digest: Bytes -> Bytes) returns (key: Bytes)
    ensures key == digest(KeyBytes(k))
    ensures key == digest(k.tenant + [0] + k.model + [0] + k.surface + [0] + k.prompt + [0]
                          + (if k.stream then [1] else [0]) + (if k.bucket == [] then [] else k.bucket + [0]))
  {
    var h := new Hasher();
    h.WriteField(k.tenant);
    h.WriteField(k.model);
    h.WriteField(k.surface);
    h.WriteField(k.prompt);
    if k.stream {
      h.Write([1]);
    } else {
      h.Write([0]);
    }
    if k.bucket != [] {
      h.WriteField(k.bucket);
    }
    assert h.written == KeyBytes(k);
    KeyWritten(k);
    key := digest(h.written);
  }

  predicate NulFree(s: Bytes) { 0 !in s }

  predicate Plain(k: KeyInput) { NulFree(k.tenant) && NulFree(k.model) && NulFree(k.surface) && NulFree(k.prompt) }

  /** A NUL-free field can be read off the front. */
  lemma {:induction false} FieldReadsBack(a: Bytes, b: Bytes, r: Bytes, q: Bytes)
    requires NulFree(a) && NulFree(b) && Field(a) + r == Field(b) + q
    ensures a == b && r == q
  {
    var t := Field(a) + r;
    assert t[|a|] == 0 && t[|b|] == 0;
    assert forall i :: 0 <= i < |a| ==> t[i] == a[i];
    assert forall i :: 0 <= i < |b| ==> t[i] == b[i];
    assert |a| == |b|;
    assert a == t[..|a|] && b == t[..|b|];
    assert r == t[|a| + 1..] && q == t[|b| + 1..];
  }

  function FromModel(k: KeyInput): Bytes { Field(k.model) + FromSurface(k) }
  function FromSurface(k: KeyInput): Bytes { Field(k.surface) + FromPrompt(k) }
  function FromPrompt(k: KeyInput): Bytes { Field(k.prompt) + FromFlag(k) }
  function FromFlag(k: KeyInput): Bytes { [if k.stream then 1 else 0] + if k.bucket != [] then Field(k.bucket) else [] }

  lemma {:induction false} KeyBytesParts(k: KeyInput)
    ensures KeyBytes(k) == Field(k.tenant) + FromModel(k)
  {
  }

  lemma {:induction false} FlagReadsBack(a: KeyInput, b: KeyInput)
    requires FromFlag(a) == FromFlag(b)
    ensures a.stream == b.stream && a.bucket == b.bucket
  {
    var x, y := FromFlag(a), FromFlag(b);
    assert x[0] == y[0];
    if a.bucket != [] && b.bucket != [] {
      assert x[1..] == Field(a.bucket) && y[1..] == Field(b.bucket);
      assert a.bucket == Field(a.bucket)[..|a.bucket|];
      assert b.bucket == Field(b.bucket)[..|b.bucket|];
      assert |Field(a.bucket)| == |Field(b.bucket)|;
    } else {
      assert |x| == if a.bucket != [] then |a.bucket| + 2 else 1;
      assert |y| == if b.bucket != [] then |b.bucket| + 2 else 1;
    }
  }

  /** Among inputs with NUL-free fields, different tenants, models, surfaces, prompts, stream flags or buckets hash
      different bytes. */
  lemma {:induction false} KeysNeverCollide(a: KeyInput, b: KeyInput)
    requires Plain(a) && Plain(b)
    ensures KeyBytes(a) == KeyBytes(b) <==> a == b
  {
    if KeyBytes(a) == KeyBytes(b) {
      KeyBytesParts(a);
      KeyBytesParts(b);
      FieldReadsBack(a.tenant, b.tenant, FromModel(a), FromModel(b));
      FieldReadsBack(a.model, b.model, FromSurface(a), FromSurface(b));
      FieldReadsBack(a.surface, b.surface, FromPrompt(a), FromPrompt(b));
      FieldReadsBack(a.prompt, b.prompt, FromFlag(a), FromFlag(b));
      FlagReadsBack(a, b);
    }
  }

  lemma {:induction false} SplitAtNul(s: Bytes) returns (x: Bytes, y: Bytes)
    requires !NulFree(s)
    ensures s == x + [0] + y
  {
    var i :| 0 <= i < |s| && s[i] == 0;
    x, y := s[..i], s[i + 1..];
  }

  /** Four fields joined by NUL, which is all that KeyBytes keeps of them. */
  function Joined(t: Bytes, m: Bytes, s: Bytes, p: Bytes): Bytes { t + ([0] + (m + ([0] + (s + ([0] + p))))) }

  lemma {:induction false} JoinedDecides(a: KeyInput, b: KeyInput)
    requires Joined(a.tenant, a.model, a.surface, a.prompt) == Joined(b.tenant, b.model, b.surface, b.prompt)
    requires FromFlag(a) == FromFlag(b)
    ensures KeyBytes(a) == KeyBytes(b)
  {
    KeyBytesJoined(a);
    KeyBytesJoined(b);
  }

  lemma {:induction false} KeyBytesJoined(k: KeyInput)
    ensures KeyBytes(k) == Joined(k.tenant, k.model, k.surface, k.prompt) + [0] + FromFlag(k)
  {
  }

  lemma {:induction false} NulMovesLeft(x: Bytes, y: Bytes, z: Bytes)
    ensures (x + [0] + y) + z == x + ([0] + (y + z))
  {
  }

  /** An input with a NUL in any of the four fields always shares its bytes, and so its key, with an input that
      differs from it. */
  lemma {:induction false} NulAlwaysCollides(a: KeyInput)
    requires !Plain(a)
    ensures exists b :: b != a && KeyBytes(b) == KeyBytes(a)
  {
    var b: KeyInput;
    if !NulFree(a.tenant) {
      var x, y := SplitAtNul(a.tenant);
      b := a.(tenant := x, model := y, surface := a.model, prompt := a.surface + [0] + a.prompt);
      assert |b.tenant| < |a.tenant|;
      NulMovesLeft(x, y, [0] + (a.model + ([0] + (a.surface + ([0] + a.prompt)))));
      assert a.surface + [0] + a.prompt == a.surface + ([0] + a.prompt);
    } else if !NulFree(a.model) {
      var x, y := SplitAtNul(a.model);
      b := a.(model := x, surface := y, prompt := a.surface + [0] + a.prompt);
      assert |b.model| < |a.model|;
      NulMovesLeft(x, y, [0] + (a.surface + ([0] + a.prompt)));
      assert a.surface + [0] + a.prompt == a.surface + ([0] + a.prompt);
    } else if !NulFree(a.surface) {
      var x, y := SplitAtNul(a.surface);
      b := a.(surface := x, prompt := y + [0] + a.prompt);
      assert |b.surface| < |a.surface|;
      NulMovesLeft(x, y, [0] + a.prompt);
      assert y + [0] + a.prompt == y + ([0] + a.prompt);
    } else {
      var x, y := SplitAtNul(a.prompt);
      b := a.(tenant := a.tenant + [0] + a.model, model := a.surface, surface := x, prompt := y);
      assert |b.tenant| > |a.tenant|;
      NulMovesLeft(a.tenant, a.model, [0] + (a.surface + ([0] + (x + ([0] + y)))));
      assert x + [0] + y == x + ([0] + y);
    }
    JoinedDecides(a, b);
  }

  // ---- Which keys are an input's own ----

  /** The bytes are a flag byte, alone or with a NUL-ended bucket: what may follow the four fields. */
  predicate Tail(v: Bytes) {
    v != [] && v[0] in {0, 1} && (|v| == 1 || (|v| >= 3 && v[|v| - 1] == 0))
  }

  /** The flag and bucket of k, cut at a NUL at i, leave something that reads as flag and bucket again. */
  predicate Reopens(k: KeyInput, i: int) {
    var w := FromFlag(k);
    0 <= i < |w| - 1 && w[i] == 0 && Tail(w[i + 1..])
  }

  lemma {:induction false} FlagIsTail(k: KeyInput)
    ensures Tail(FromFlag(k))
  {
  }

  /** Every tail is the flag and bucket of some input. */
  function WithTail(k: KeyInput, v: Bytes): (r: KeyInput)
    requires Tail(v)
    ensures FromFlag(r) == v
    ensures r.tenant == k.tenant && r.model == k.model && r.surface == k.surface && r.prompt == k.prompt
  {
    var r := k.(stream := v[0] == 1, bucket := if |v| == 1 then [] else v[1..|v| - 1]);
    assert |v| > 1 ==> v == [v[0]] + v[1..|v| - 1] + [v[|v| - 1]];
    r
  }

  /** The first NUL moves into the tenant, the prompt takes what is before the cut. */
  function Shifted(a: KeyInput, x: Bytes, v: Bytes): KeyInput
    requires Tail(v)
  {
    WithTail(KeyInput(a.tenant + [0] + a.model, a.surface, x, false, a.prompt, []), v)
  }

  lemma {:induction false} ShiftedCollides(a: KeyInput, x: Bytes, v: Bytes)
    requires Tail(v) && FromFlag(a) == x + ([0] + v)
    ensures KeyBytes(Shifted(a, x, v)) == KeyBytes(a)
  {
    var b := Shifted(a, x, v);
    KeyBytesJoined(a);
    KeyBytesJoined(b);
    assert FromFlag(b) == v;
    MovedFields(a.tenant, a.model, a.surface, a.prompt, x, v);
  }

  /** An input whose flag and bucket reopen shares its bytes with another. */
  lemma {:induction false} ReopenedCollides(a: KeyInput, i: nat) returns (b: KeyInput)
    requires Reopens(a, i)
    ensures b != a && KeyBytes(b) == KeyBytes(a)
  {
    var w := FromFlag(a);
    assert w == w[..i] + ([0] + w[i + 1..]);
    b := Shifted(a, w[..i], w[i + 1..]);
    assert |b.tenant| == |a.tenant| + 1 + |a.model|;
    ShiftedCollides(a, w[..i], w[i + 1..]);
  }

  lemma {:induction false} MovedFields(t: Bytes, m: Bytes, s: Bytes, p: Bytes, x: Bytes, v: Bytes)
    ensures Joined(t + [0] + m, s, p, x) + [0] + v == Joined(t, m, s, p) + [0] + (x + ([0] + v))
  {
    NulMovesLeft(t, m, [0] + (s + ([0] + (p + ([0] + x)))));
    assert Joined(t + [0] + m, s, p, x) == t + ([0] + (m + ([0] + (s + ([0] + (p + ([0] + x)))))));
    LastField(t, m, s, p, [0] + x);
    assert Joined(t + [0] + m, s, p, x) == Joined(t, m, s, p) + ([0] + x);
    Reassociated(Joined(t, m, s, p), x, v);
  }

  lemma {:induction false} LastField(t: Bytes, m: Bytes, s: Bytes, p: Bytes, x: Bytes)
    ensures Joined(t, m, s, p + x) == Joined(t, m, s, p) + x
  {
    assert [0] + (p + x) == ([0] + p) + x;
    assert s + (([0] + p) + x) == (s + ([0] + p)) + x;
    var sp := s + ([0] + p);
    assert [0] + (sp + x) == ([0] + sp) + x;
    assert m + (([0] + sp) + x) == (m + ([0] + sp)) + x;
    var msp := m + ([0] + sp);
    assert [0] + (msp + x) == ([0] + msp) + x;
    assert t + (([0] + msp) + x) == (t + ([0] + msp)) + x;
  }

  lemma {:induction false} Reassociated(j: Bytes, x: Bytes, v: Bytes)
    ensures (j + ([0] + x)) + [0] + v == j + [0] + (x + ([0] + v))
  {
  }

  function Nuls(s: Bytes): nat {
    if s == [] then 0 else Nuls(s[..|s| - 1]) + if s[|s| - 1] == 0 then 1 else 0
  }

  lemma {:induction false} NulsAdd(a: Bytes, b: Bytes)
    ensures Nuls(a + b) == Nuls(a) + Nuls(b)
    decreases |b|
  {
    if b == [] {
      assert a + b == a;
    } else {
      assert (a + b)[..|a + b| - 1] == a + b[..|b| - 1];
      NulsAdd(a, b[..|b| - 1]);
    }
  }

  lemma {:induction false} NulsDecide(s: Bytes)
    ensures Nuls(s) == 0 <==> NulFree(s)
  {
    if s != [] {
      NulsDecide(s[..|s| - 1]);
      assert s == s[..|s| - 1] + [s[|s| - 1]];
    }
  }

  lemma {:induction false} NulsJoined(k: KeyInput)
    ensures Nuls(Joined(k.tenant, k.model, k.surface, k.prompt))
         == 3 + Nuls(k.tenant) + Nuls(k.model) + Nuls(k.surface) + Nuls(k.prompt)
  {
    var p := [0] + k.prompt;
    var sp := [0] + (k.surface + p);
    var msp := [0] + (k.model + sp);
    assert Nuls([0]) == 1 by { assert [0][..0] == []; }
    NulsAdd([0], k.prompt);
    NulsAdd(k.surface, p);
    NulsAdd([0], k.surface + p);
    NulsAdd(k.model, sp);
    NulsAdd([0], k.model + sp);
    NulsAdd(k.tenant, msp);
  }

  lemma {:induction false} PlainHasThree(k: KeyInput)
    ensures Nuls(Joined(k.tenant, k.model, k.surface, k.prompt)) == 3 <==> Plain(k)
    ensures Nuls(Joined(k.tenant, k.model, k.surface, k.prompt)) >= 3
  {
    NulsJoined(k);
    NulsDecide(k.tenant);
    NulsDecide(k.model);
    NulsDecide(k.surface);
    NulsDecide(k.prompt);
  }

  /** Of two ways to cut the same bytes, the one with more NULs in front cuts later. */
  lemma {:induction false} MoreNulsCutLater(x: Bytes, w: Bytes, y: Bytes, u: Bytes)
    requires x + [0] + w == y + [0] + u && Nuls(x) < Nuls(y)
    ensures |x| < |y|
  {
    if |y| <= |x| {
      var z := x + [0] + w;
      assert y == z[..|y|] && x == z[..|x|];
      assert x == y + x[|y|..];
      NulsAdd(y, x[|y|..]);
    }
  }

  /** Bytes of an input with NUL-free fields, shared by one that has a NUL, reopen its flag and bucket. */
  lemma {:induction false} SharedReopens(a: KeyInput, b: KeyInput)
    requires Plain(a) && !Plain(b) && KeyBytes(b) == KeyBytes(a)
    ensures exists i :: Reopens(a, i)
  {
    var x, y := Joined(a.tenant, a.model, a.surface, a.prompt), Joined(b.tenant, b.model, b.surface, b.prompt);
    var w, u := FromFlag(a), FromFlag(b);
    KeyBytesJoined(a);
    KeyBytesJoined(b);
    PlainHasThree(a);
    PlainHasThree(b);
    MoreNulsCutLater(x, w, y, u);
    var i := |y| - |x| - 1;
    LaterCut(x, w, y, u, i);
    FlagIsTail(b);
    assert Reopens(a, i);
  }

  lemma {:induction false} LaterCut(x: Bytes, w: Bytes, y: Bytes, u: Bytes, i: int)
    requires x + [0] + w == y + [0] + u && |x| < |y| && u != [] && i == |y| - |x| - 1
    ensures 0 <= i < |w| - 1 && w[i] == 0 && w[i + 1..] == u
  {
    var z, q := x + [0] + w, y + [0] + u;
    assert |z| == |x| + 1 + |w| && |q| == |y| + 1 + |u|;
    assert z[|x| + 1 + i] == w[i] && q[|y|] == 0;
    assert z[|y| + 1..] == w[i + 1..] && q[|y| + 1..] == u;
  }

  /** The bytes, and so the key, of an input belong to no other input iff its tenant, model, surface and prompt are
      NUL-free and its flag and bucket do not reopen: not streaming with a bucket that reads as a flag and a bucket, or
      a bucket with such an end after a NUL. */
  lemma {:induction false} KeyIsOwnExactly(a: KeyInput)
    ensures (forall b :: KeyBytes(b) == KeyBytes(a) ==> b == a) <==> Plain(a) && forall i :: !Reopens(a, i)
  {
    if !Plain(a) {
      NulAlwaysCollides(a);
    } else if exists i :: Reopens(a, i) {
      var i :| Reopens(a, i);
      var b := ReopenedCollides(a, i);
    } else {
      forall b | KeyBytes(b) == KeyBytes(a) ensures b == a {
        if Plain(b) {
          KeysNeverCollide(a, b);
        } else {
          SharedReopens(a, b);
        }
      }
    }
  }

  /** NUL-free fields and bucket do not make a key an input's own: a bucket that begins with byte 1. */
  lemma {:induction false} BucketReadsAsFlag(a: KeyInput, z: Bytes)
    requires Plain(a) && !a.stream && z != [] && a.bucket == [1] + z
    ensures exists b :: b != a && KeyBytes(b) == KeyBytes(a)
  {
    var w := FromFlag(a);
    assert w[1..] == [1] + z + [0];
    assert Reopens(a, 0);
    KeyIsOwnExactly(a);
  }
}
