/**
 Guardrail policies: merging tenant, project and service levels into one policy
 (internal/service/catalog/helpers.go, runtime.go) and what the merged policy accepts
 (policy.go). Strings are byte sequences. Lower-casing and regular expressions are
 parameters: everything holds for any such `Engine`.
 */
module GuardrailPolicy {
  import opened Options

  /** strings.ToLower, and regexp.MatchString(pattern, text) with an invalid pattern reading as false. */
  datatype Engine = Engine(lower: string -> string, matches: (string, string) -> bool)

  datatype RuleSet = RuleSet(
    allowModels: seq<string>, blockModels: seq<string>, blockTerms: seq<string>, blockRegex: seq<string>,
    redactTerms: seq<string>, maxInputChars: int, maxOutputChars: int)
  datatype Policy = Policy(enabled: bool, request: Option<RuleSet>, response: Option<RuleSet>)

  const DENY_ALL: string := "__gateyes_deny_all__"

  // ---- String lists ----

  predicate IsSpace(c: char) { c in " \t\n\r" || c as int == 11 || c as int == 12 }

  function TrimLeft(s: string): string { if s != "" && IsSpace(s[0]) then TrimLeft(s[1..]) else s }
  function TrimRight(s: string): string { if s != "" && IsSpace(s[|s| - 1]) then TrimRight(s[..|s| - 1]) else s }
  function TrimSpace(s: string): string { TrimRight(TrimLeft(s)) }

  function Normalized(values: seq<string>): seq<string> {
    if values == [] then []
    else
      var init, v := Normalized(values[..|values| - 1]), TrimSpace(values[|values| - 1]);
      if v == "" || v in init then init else init + [v]
  }

  /** Nonempty, with no white space at either end. */
  predicate Trimmed(s: string) { s != "" && !IsSpace(s[0]) && !IsSpace(s[|s| - 1]) }

  /** Trimmed, nonempty, duplicate-free. */
  ghost predicate CleanList(values: seq<string>) {
    && (forall i :: 0 <= i < |values| ==> Trimmed(values[i]))
    && (forall i, j :: 0 <= i < j < |values| ==> values[i] != values[j])
  }

  lemma {:induction false} CleanInit(values: seq<string>)
    requires CleanList(values) && values != []
    ensures var init, v := values[..|values| - 1], values[|values| - 1];
      CleanList(init) && values == init + [v] && v !in init && v != "" && TrimSpace(v) == v
  {
    var v := values[|values| - 1];
    assert TrimLeft(v) == v && TrimRight(v) == v;
  }

  lemma {:induction false} CleanIsNormal(values: seq<string>)
    requires CleanList(values)
    ensures Normalized(values) == values
  {
    if values != [] {
      CleanInit(values);
      CleanIsNormal(values[..|values| - 1]);
    }
  }

  method NormalizeStringList(values: seq<string>) returns (result: seq<string>)
    ensures result == Normalized(values)
  {
    var seen: set<string> := {};
    result := [];
    for i := 0 to |values|
      invariant result == Normalized(values[..i])
      invariant forall v :: v in seen <==> v in result
    {
      assert values[..i + 1][..i] == values[..i];
      var value := TrimSpace(values[i]);
      if value == "" || value in seen {
        continue;
      }
      seen := seen + {value};
      result := result + [value];
    }
    assert values[..|values|] == values;
  }

  /** The members of xs that are also in ys, in order. */
  function Common(xs: seq<string>, ys: seq<string>): seq<string> {
    if xs == [] then []
    else
      var init, x := Common(xs[..|xs| - 1], ys), xs[|xs| - 1];
      if x in ys then init + [x] else init
  }

  function MergedAllow(base: seq<string>, overlay: seq<string>): seq<string> {
    var b, o := Normalized(base), Normalized(overlay);
    if b == [] then o
    else if o == [] then b
    else if Common(b, o) == [] then [DENY_ALL]
    else Common(b, o)
  }

  method MergeAllowModels(base: seq<string>, overlay: seq<string>) returns (result: seq<string>)
    ensures result == MergedAllow(base, overlay)
  {
    var b := NormalizeStringList(base);
    var o := NormalizeStringList(overlay);
    if |b| == 0 {
      return o;
    }
    if |o| == 0 {
      return b;
    }
    var allowed := set x | x in o;
    result := [];
    for i := 0 to |b|
      invariant result == Common(b[..i], o)
    {
      assert b[..i + 1][..i] == b[..i];
      if b[i] in allowed {
        result := result + [b[i]];
      }
    }
    assert b[..|b|] == b;
    if |result| == 0 {
      return [DENY_ALL];
    }
  }

  /** base followed by the members of overlay not seen before. */
  function Union(base: seq<string>, overlay: seq<string>): seq<string> {
    if overlay == [] then base
    else
      var init, x := Union(base, overlay[..|overlay| - 1]), overlay[|overlay| - 1];
      if x in init then init else init + [x]
  }

  function MergedUnique(base: seq<string>, overlay: seq<string>): seq<string> {
    Union(Normalized(base), Normalized(overlay))
  }

  lemma {:induction false} TrimLeftTrims(s: string)
    ensures TrimLeft(s) != "" ==> !IsSpace(TrimLeft(s)[0])
  {
    if s != "" && IsSpace(s[0]) {
      TrimLeftTrims(s[1..]);
    }
  }

  lemma {:induction false} TrimRightTrims(s: string)
    ensures var t := TrimRight(s); t != "" ==> t[0] == s[0] && !IsSpace(t[|t| - 1])
  {
    if s != "" && IsSpace(s[|s| - 1]) {
      TrimRightTrims(s[..|s| - 1]);
    }
  }

  lemma {:induction false} TrimSpaceTrims(s: string)
    ensures TrimSpace(s) != "" ==> Trimmed(TrimSpace(s))
  {
    TrimLeftTrims(s);
    TrimRightTrims(TrimLeft(s));
  }

  /** Normalising always gives a clean list. */
  lemma {:induction false} NormalizedClean(values: seq<string>)
    ensures CleanList(Normalized(values))
  {
    if values != [] {
      NormalizedClean(values[..|values| - 1]);
      TrimSpaceTrims(values[|values| - 1]);
    }
  }

  predicate White(c: char) { c in {' ', '\t', '\n', '\r', '\U{000B}', '\U{000C}'} }

  predicate Blank(s: string) { forall i :: 0 <= i < |s| ==> White(s[i]) }

  /** Trimming takes off white space on both sides and nothing else. */
  lemma {:induction false} TrimSpaceKeepsInner(l: string, x: string, r: string)
    requires Blank(l) && Blank(r) && x != "" && !White(x[0]) && !White(x[|x| - 1])
    ensures TrimSpace(l + x + r) == x
  {
    TrimLeftSkips(l, x + r);
    assert l + x + r == l + (x + r);
    TrimRightSkips(x, r);
  }

  lemma {:induction false} TrimLeftSkips(l: string, s: string)
    requires Blank(l) && s != "" && !IsSpace(s[0])
    ensures TrimLeft(l + s) == s
  {
    if l == "" {
      assert l + s == s;
    } else {
      assert (l + s)[1..] == l[1..] + s;
      TrimLeftSkips(l[1..], s);
    }
  }

  lemma {:induction false} TrimRightSkips(s: string, r: string)
    requires Blank(r) && s != "" && !IsSpace(s[|s| - 1])
    ensures TrimRight(s + r) == s
  {
    if r == "" {
      assert s + r == s;
    } else {
      assert (s + r)[..|s + r| - 1] == s + r[..|r| - 1];
      TrimRightSkips(s, r[..|r| - 1]);
    }
  }

  /** What normalising keeps: the trimmed form of every entry that is not blank, and nothing else. */
  lemma {:induction false} NormalizedKeeps(values: seq<string>, x: string)
    ensures x in Normalized(values) <==> x != "" && exists i :: 0 <= i < |values| && TrimSpace(values[i]) == x
  {
    if values != [] {
      var n := |values| - 1;
      NormalizedKeeps(values[..n], x);
      assert forall i :: 0 <= i < n ==> values[..n][i] == values[i];
      assert (exists i :: 0 <= i < |values| && TrimSpace(values[i]) == x) <==>
        (exists i :: 0 <= i < n && TrimSpace(values[..n][i]) == x) || TrimSpace(values[n]) == x;
    }
  }

  lemma {:induction false} UnionOfNone(xs: seq<string>)
    requires forall i, j :: 0 <= i < j < |xs| ==> xs[i] != xs[j]
    ensures Union([], xs) == xs
  {
    if xs != [] {
      UnionOfNone(xs[..|xs| - 1]);
      assert xs == xs[..|xs| - 1] + [xs[|xs| - 1]];
    }
  }

  method MergeUniqueStrings(base: seq<string>, overlay: seq<string>) returns (result: seq<string>)
    ensures result == MergedUnique(base, overlay)
  {
    NormalizedClean(base);
    NormalizedClean(overlay);
    var b := NormalizeStringList(base);
    var o := NormalizeStringList(overlay);
    if |b| == 0 {
      UnionOfNone(o);
      return o;
    }
    if |o| == 0 {
      return b;
    }
    var seen: set<string> := {};
    result := [];
    for i := 0 to |b|
      invariant result == b[..i] && forall v :: v in seen <==> v in result
    {
      assert b[i] !in b[..i];
      if b[i] !in seen {
        seen := seen + {b[i]};
        result := result + [b[i]];
      }
    }
    assert b[..|b|] == b && o[..0] == [];
    for i := 0 to |o|
      invariant result == Union(b, o[..i]) && forall v :: v in seen <==> v in result
    {
      assert o[..i + 1][..i] == o[..i];
      if o[i] !in seen {
        seen := seen + {o[i]};
        result := result + [o[i]];
      }
    }
    assert o[..|o|] == o;
  }

  lemma {:induction false} CommonMembers(xs: seq<string>, ys: seq<string>)
    ensures forall x :: x in Common(xs, ys) <==> x in xs && x in ys
    ensures CleanList(xs) ==> CleanList(Common(xs, ys))
  {
    if xs != [] {
      var n := |xs| - 1;
      CommonMembers(xs[..n], ys);
      assert xs == xs[..n] + [xs[n]];
      assert CleanList(xs) ==> CleanList(xs[..n]) && xs[n] !in xs[..n];
    }
  }

  lemma {:induction false} UnionMembers(xs: seq<string>, ys: seq<string>)
    ensures forall x :: x in Union(xs, ys) <==> x in xs || x in ys
    ensures CleanList(xs) && CleanList(ys) ==> CleanList(Union(xs, ys))
  {
    if ys != [] {
      var n := |ys| - 1;
      UnionMembers(xs, ys[..n]);
      assert ys == ys[..n] + [ys[n]];
      assert CleanList(ys) ==> CleanList(ys[..n]);
    }
  }

  /** What the merge of any two lists admits, for every name: what both admit, an empty list admitting all, or the
      sentinel alone when they have nothing in common. */
  lemma {:induction false} MergedAllowExactly(base: seq<string>, overlay: seq<string>, model: string)
    ensures var b, o, m := Normalized(base), Normalized(overlay), MergedAllow(base, overlay);
      && CleanList(m) && (m == [] <==> b == [] && o == [])
      && ((m == [] || model in m) <==>
          || ((b == [] || model in b) && (o == [] || model in o))
          || (model == DENY_ALL && b != [] && o != [] && forall x :: x in b ==> x !in o))
  {
    var b, o := Normalized(base), Normalized(overlay);
    NormalizedClean(base);
    NormalizedClean(overlay);
    if b != [] && o != [] {
      CommonMembers(b, o);
      SentinelIsClean();
      var common := Common(b, o);
      if common == [] {
        assert forall x :: x in b && x in o ==> x in common;
      } else {
        assert common[0] in common;
      }
    }
  }

  lemma {:induction false} SentinelIsClean()
    ensures CleanList([DENY_ALL])
  {
    assert Trimmed(DENY_ALL);
  }

  // ---- Rule sets ----

  function MinPositive(a: int, b: int): int {
    if a <= 0 then b else if b <= 0 then a else if a < b then a else b
  }

  predicate HasRules(r: Option<RuleSet>) {
    r.Some? &&
    (Normalized(r.value.allowModels) != [] || Normalized(r.value.blockModels) != []
     || Normalized(r.value.blockTerms) != []
     || Normalized(r.value.blockRegex) != [] || Normalized(r.value.redactTerms) != []
     || r.value.maxInputChars > 0 || r.value.maxOutputChars > 0)
  }

  function BothRules(b: RuleSet, o: RuleSet): RuleSet {
    RuleSet(MergedAllow(b.allowModels, o.allowModels), MergedUnique(b.blockModels, o.blockModels),
            MergedUnique(b.blockTerms, o.blockTerms), MergedUnique(b.blockRegex, o.blockRegex),
            MergedUnique(b.redactTerms, o.redactTerms),
            MinPositive(b.maxInputChars, o.maxInputChars), MinPositive(b.maxOutputChars, o.maxOutputChars))
  }

  /** mergeGuardrailRuleSets. */
  function MergeRules(base: Option<RuleSet>, overlay: Option<RuleSet>): Option<RuleSet> {
    if base.None? then overlay
    else if overlay.None? then base
    else if HasRules(Some(BothRules(base.value, overlay.value))) then Some(BothRules(base.value, overlay.value))
    else None
  }

  /** mergeServicePolicies. */
  function MergePolicies(base: Option<Policy>, overlay: Option<Policy>): Option<Policy> {
    if base.None? && overlay.None? then None
    else
      var start := if base.None? then Policy(false, None, None) else base.value;
      var merged := if overlay.None? then start
                    else Policy(start.enabled || overlay.value.enabled,
                                MergeRules(start.request, overlay.value.request),
                                MergeRules(start.response, overlay.value.response));
      if merged.request.None? && merged.response.None? && !merged.enabled then None
      else if HasRules(merged.request) || HasRules(merged.response) then Some(merged.(enabled := true))
      else Some(merged)
  }

  /** resolveEffectivePolicy: the levels that apply, tenant first, merged left to right. */
  function Effective(levels: seq<Option<Policy>>): Option<Policy> {
    if levels == [] then None else MergePolicies(Effective(levels[..|levels| - 1]), levels[|levels| - 1])
  }

  // ---- Meaning ----

  predicate OccursAt(s: string, t: string, i: int) {
    0 <= i <= |s| - |t| && s[i..i + |t|] == t
  }

  /** strings.Contains. */
  predicate Contains(s: string, t: string) {
    exists i :: 0 <= i <= |s| && OccursAt(s, t, i)
  }

  predicate TermHits(eng: Engine, term: string, text: string) {
    term != "" && Contains(eng.lower(text), eng.lower(term))
  }

  /** checkBlockedContent finds nothing. */
  ghost predicate ContentOk(eng: Engine, r: RuleSet, text: string) {
    text == "" ||
    (&& (forall t :: t in r.blockTerms ==> !TermHits(eng, t, text))
     && (forall p :: p in r.blockRegex && p != "" ==> !eng.matches(p, text)))
  }

  ghost predicate RequestOk(eng: Engine, r: RuleSet, model: string, text: string) {
    && (r.allowModels == [] || model in r.allowModels)
    && model !in r.blockModels
    && (r.maxInputChars <= 0 || |text| <= r.maxInputChars)
    && ContentOk(eng, r, text)
  }

  ghost predicate ResponseOk(eng: Engine, r: RuleSet, text: string) {
    ContentOk(eng, r, text) && (r.maxOutputChars <= 0 || |text| <= r.maxOutputChars)
  }

  /** applyRequestPolicy returns no error. */
  ghost predicate Admits(eng: Engine, p: Option<Policy>, model: string, text: string) {
    p.Some? && p.value.enabled && p.value.request.Some? ==> RequestOk(eng, p.value.request.value, model, text)
  }

  /** applyResponsePolicy returns no error. */
  ghost predicate Passes(eng: Engine, p: Option<Policy>, text: string) {
    p.Some? && p.value.enabled && p.value.response.Some? ==> ResponseOk(eng, p.value.response.value, text)
  }

  // ---- Rule sets up to white space, blanks and repeats ----

  function Norm(r: RuleSet): RuleSet {
    r.(allowModels := Normalized(r.allowModels), blockModels := Normalized(r.blockModels),
       blockTerms := Normalized(r.blockTerms), blockRegex := Normalized(r.blockRegex),
       redactTerms := Normalized(r.redactTerms))
  }

  ghost predicate CleanRules(r: Option<RuleSet>) {
    r.Some? ==>
      && CleanList(r.value.allowModels) && CleanList(r.value.blockModels) && CleanList(r.value.blockTerms)
      && CleanList(r.value.blockRegex) && CleanList(r.value.redactTerms)
  }

  lemma {:induction false} CleanIsNorm(r: RuleSet)
    requires CleanRules(Some(r))
    ensures Norm(r) == r
  {
    CleanIsNormal(r.allowModels);
    CleanIsNormal(r.blockModels);
    CleanIsNormal(r.blockTerms);
    CleanIsNormal(r.blockRegex);
    CleanIsNormal(r.redactTerms);
  }

  lemma {:induction false} UniqueMeaning(b: seq<string>, o: seq<string>)
    ensures CleanList(MergedUnique(b, o))
    ensures forall x :: x in MergedUnique(b, o) <==> x in Normalized(b) || x in Normalized(o)
  {
    NormalizedClean(b);
    NormalizedClean(o);
    UnionMembers(Normalized(b), Normalized(o));
  }

  lemma {:induction false} BothRulesClean(b: RuleSet, o: RuleSet)
    ensures CleanRules(Some(BothRules(b, o)))
  {
    MergedAllowExactly(b.allowModels, o.allowModels, "");
    UniqueMeaning(b.blockModels, o.blockModels);
    UniqueMeaning(b.blockTerms, o.blockTerms);
    UniqueMeaning(b.blockRegex, o.blockRegex);
    UniqueMeaning(b.redactTerms, o.redactTerms);
  }

  /** The names an optional rule set allows; none means all. */
  function AllowList(r: Option<RuleSet>): seq<string> { if r.Some? then Normalized(r.value.allowModels) else [] }

  function RedactList(r: Option<RuleSet>): seq<string> { if r.Some? then Normalized(r.value.redactTerms) else [] }

  /** The rules other than the allowlist accept the request. */
  ghost predicate OthersAccept(eng: Engine, r: Option<RuleSet>, model: string, text: string) {
    r.Some? ==> RequestOk(eng, Norm(r.value).(allowModels := []), model, text)
  }

  ghost predicate AcceptsRequest(eng: Engine, r: Option<RuleSet>, model: string, text: string) {
    r.Some? ==> RequestOk(eng, Norm(r.value), model, text)
  }

  ghost predicate AcceptsResponse(eng: Engine, r: Option<RuleSet>, text: string) {
    r.Some? ==> ResponseOk(eng, Norm(r.value), text)
  }

  /** An empty allowlist admits every name. */
  predicate Open(names: seq<string>, model: string) { names == [] || model in names }

  predicate Allows(r: Option<RuleSet>, model: string) { Open(AllowList(r), model) }

  lemma {:induction false} AcceptsInTwo(eng: Engine, r: Option<RuleSet>, model: string, text: string)
    ensures AcceptsRequest(eng, r, model, text) <==> Allows(r, model) && OthersAccept(eng, r, model, text)
  {
  }

  /** Rules that are all empty reject nothing. */
  lemma {:induction false} NoRulesAcceptAll(eng: Engine, r: Option<RuleSet>, model: string, text: string)
    requires !HasRules(r)
    ensures AcceptsRequest(eng, r, model, text) && AcceptsResponse(eng, r, text) && AllowList(r) == []
    ensures RedactList(r) == []
  {
  }

  lemma {:induction false} BothContent(eng: Engine, b: RuleSet, o: RuleSet, text: string)
    ensures ContentOk(eng, BothRules(b, o), text) <==> ContentOk(eng, Norm(b), text) && ContentOk(eng, Norm(o), text)
  {
    UniqueMeaning(b.blockTerms, o.blockTerms);
    UniqueMeaning(b.blockRegex, o.blockRegex);
  }

  lemma {:induction false} BothOthers(eng: Engine, b: RuleSet, o: RuleSet, model: string, text: string)
    ensures OthersAccept(eng, Some(BothRules(b, o)), model, text) <==>
      OthersAccept(eng, Some(b), model, text) && OthersAccept(eng, Some(o), model, text)
  {
    BothRulesClean(b, o);
    CleanIsNorm(BothRules(b, o));
    ContentIgnoresAllow(eng, BothRules(b, o), text);
    ContentIgnoresAllow(eng, Norm(b), text);
    ContentIgnoresAllow(eng, Norm(o), text);
    BothContent(eng, b, o, text);
    UniqueMeaning(b.blockModels, o.blockModels);
  }

  lemma {:induction false} ContentIgnoresAllow(eng: Engine, r: RuleSet, text: string)
    ensures ContentOk(eng, r.(allowModels := []), text) <==> ContentOk(eng, r, text)
  {
  }

  lemma {:induction false} BothResponses(eng: Engine, b: RuleSet, o: RuleSet, text: string)
    ensures AcceptsResponse(eng, Some(BothRules(b, o)), text) <==>
      AcceptsResponse(eng, Some(b), text) && AcceptsResponse(eng, Some(o), text)
  {
    BothRulesClean(b, o);
    CleanIsNorm(BothRules(b, o));
    BothContent(eng, b, o, text);
  }

  // ---- Merging any number of rule sets ----

  function MergeAll(rs: seq<Option<RuleSet>>): Option<RuleSet> {
    if rs == [] then None else MergeRules(MergeAll(rs[..|rs| - 1]), rs[|rs| - 1])
  }

  lemma {:induction false} MergeOthers(eng: Engine, b: Option<RuleSet>, o: Option<RuleSet>, model: string, text: string)
    ensures var m := MergeRules(b, o);
      && (OthersAccept(eng, m, model, text) <==> OthersAccept(eng, b, model, text) && OthersAccept(eng, o, model, text))
      && (AcceptsResponse(eng, m, text) <==> AcceptsResponse(eng, b, text) && AcceptsResponse(eng, o, text))
  {
    if b.Some? && o.Some? {
      var both := Some(BothRules(b.value, o.value));
      BothOthers(eng, b.value, o.value, model, text);
      BothResponses(eng, b.value, o.value, text);
      if !HasRules(both) {
        NoRulesAcceptAll(eng, both, model, text);
        AcceptsInTwo(eng, both, model, text);
      }
    }
  }

  lemma {:induction false} MergeAllow(b: Option<RuleSet>, o: Option<RuleSet>)
    ensures AllowList(MergeRules(b, o)) == MergedAllow(AllowList(b), AllowList(o))
  {
    NormalOfNormal(AllowList(b));
    NormalOfNormal(AllowList(o));
    if b.Some? {
      NormalOfNormal(b.value.allowModels);
    }
    if o.Some? {
      NormalOfNormal(o.value.allowModels);
    }
    if b.Some? && o.Some? {
      BothRulesClean(b.value, o.value);
      CleanIsNorm(BothRules(b.value, o.value));
    }
  }

  lemma {:induction false} NormalOfNormal(values: seq<string>)
    ensures Normalized(Normalized(values)) == Normalized(values) && Normalized([]) == []
  {
    NormalizedClean(values);
    CleanIsNormal(Normalized(values));
  }

  /** The name is on every allowlist that is not empty. */
  ghost predicate OnEvery(rs: seq<Option<RuleSet>>, model: string) {
    forall i :: 0 <= i < |rs| ==> Allows(rs[i], model)
  }

  lemma {:induction false} OnEverySplits(rs: seq<Option<RuleSet>>, model: string)
    requires rs != []
    ensures OnEvery(rs, model) <==> OnEvery(rs[..|rs| - 1], model) && Allows(rs[|rs| - 1], model)
  {
    var n := |rs| - 1;
    assert forall i :: 0 <= i < n ==> rs[i] == rs[..n][i];
  }

  /** What the merge of any number of allowlists allows: the names on every one of them, or the sentinel when no name
      is. */
  lemma {:induction false} MergedAllowlists(rs: seq<Option<RuleSet>>, model: string)
    ensures Allows(MergeAll(rs), model) <==>
      OnEvery(rs, model) || (model == DENY_ALL && forall x :: !OnEvery(rs, x))
  {
    if rs == [] {
      assert OnEvery(rs, model);
    } else {
      var init, last := rs[..|rs| - 1], rs[|rs| - 1];
      var b := MergeAll(init);
      forall x ensures Allows(b, x) <==> OnEvery(init, x) || (x == DENY_ALL && forall y :: !OnEvery(init, y)) {
        MergedAllowlists(init, x);
      }
      forall x ensures OnEvery(rs, x) <==> OnEvery(init, x) && Allows(last, x) {
        OnEverySplits(rs, x);
      }
      MergeAllow(b, last);
      MergedTwo(b, last, model);
      AllowsSomething(b);
    }
  }

  /** One merge: what both allow, or the sentinel when they allow nothing in common. */
  lemma {:induction false} MergedTwo(b: Option<RuleSet>, o: Option<RuleSet>, model: string)
    ensures Allows(MergeRules(b, o), model) <==>
      (Allows(b, model) && Allows(o, model)) || (model == DENY_ALL && forall x :: !(Allows(b, x) && Allows(o, x)))
  {
    MergeAllow(b, o);
    NormalOfAllow(b);
    NormalOfAllow(o);
    MergedLists(AllowList(b), AllowList(o), model);
    assert forall x :: Allows(b, x) <==> Open(AllowList(b), x);
    assert forall x :: Allows(o, x) <==> Open(AllowList(o), x);
  }

  lemma {:induction false} MergedLists(xs: seq<string>, ys: seq<string>, model: string)
    requires Normalized(xs) == xs && Normalized(ys) == ys
    ensures Open(MergedAllow(xs, ys), model) <==>
      (Open(xs, model) && Open(ys, model)) || (model == DENY_ALL && forall x :: !(Open(xs, x) && Open(ys, x)))
  {
    MergedAllowExactly(xs, ys, model);
    if xs == [] || ys == [] {
      var x := if xs != [] then xs[0] else if ys != [] then ys[0] else "";
      assert Open(xs, x) && Open(ys, x);
    } else {
      assert forall x :: x in xs <==> Open(xs, x);
      assert forall x :: x in ys <==> Open(ys, x);
    }
  }

  lemma {:induction false} NormalOfAllow(r: Option<RuleSet>)
    ensures Normalized(AllowList(r)) == AllowList(r)
  {
    if r.Some? {
      NormalOfNormal(r.value.allowModels);
    }
  }

  lemma {:induction false} AllowsSomething(r: Option<RuleSet>)
    ensures exists x :: Allows(r, x)
  {
    if AllowList(r) == [] {
      assert Allows(r, "");
    } else {
      assert Allows(r, AllowList(r)[0]);
    }
  }

  lemma {:induction false} MergedOthers(eng: Engine, rs: seq<Option<RuleSet>>, model: string, text: string)
    ensures OthersAccept(eng, MergeAll(rs), model, text) <==>
      forall i :: 0 <= i < |rs| ==> OthersAccept(eng, rs[i], model, text)
    ensures AcceptsResponse(eng, MergeAll(rs), text) <==>
      forall i :: 0 <= i < |rs| ==> AcceptsResponse(eng, rs[i], text)
  {
    if rs != [] {
      var n := |rs| - 1;
      MergedOthers(eng, rs[..n], model, text);
      MergeOthers(eng, MergeAll(rs[..n]), rs[n], model, text);
      SplitLast(rs, r => OthersAccept(eng, r, model, text));
      SplitLast(rs, r => AcceptsResponse(eng, r, text));
    }
  }

  lemma {:induction false} SplitLast<T>(xs: seq<T>, ok: T -> bool)
    requires xs != []
    ensures var n := |xs| - 1;
      (forall i :: 0 <= i < |xs| ==> ok(xs[i])) <==> ok(xs[n]) && forall i :: 0 <= i < n ==> ok(xs[..n][i])
  {
    var n := |xs| - 1;
    assert forall i :: 0 <= i < n ==> xs[i] == xs[..n][i];
  }

  /** The meaning of merged rule sets, for all lists and every model name: all of them accept the request; or the
      model is the sentinel, no name is on all the allowlists, and all other rules accept it. */
  lemma {:induction false} MergedMeaning(eng: Engine, rs: seq<Option<RuleSet>>, model: string, text: string)
    ensures AcceptsRequest(eng, MergeAll(rs), model, text) <==>
      || (forall i :: 0 <= i < |rs| ==> AcceptsRequest(eng, rs[i], model, text))
      || (&& model == DENY_ALL && (forall x :: !OnEvery(rs, x))
          && forall i :: 0 <= i < |rs| ==> OthersAccept(eng, rs[i], model, text))
    ensures AcceptsResponse(eng, MergeAll(rs), text) <==>
      forall i :: 0 <= i < |rs| ==> AcceptsResponse(eng, rs[i], text)
  {
    AcceptsInTwo(eng, MergeAll(rs), model, text);
    MergedAllowlists(rs, model);
    MergedOthers(eng, rs, model, text);
    forall i | 0 <= i < |rs|
      ensures AcceptsRequest(eng, rs[i], model, text) <==> Allows(rs[i], model) && OthersAccept(eng, rs[i], model, text)
    {
      AcceptsInTwo(eng, rs[i], model, text);
    }
  }

  // ---- When the merged lists are the ones enforced ----

  lemma {:induction false} MergeHasRules(b: Option<RuleSet>, o: Option<RuleSet>)
    ensures HasRules(MergeRules(b, o)) <==> HasRules(b) || HasRules(o)
  {
    if b.Some? && o.Some? {
      BothRulesClean(b.value, o.value);
      CleanIsNorm(BothRules(b.value, o.value));
      MergedAllowExactly(b.value.allowModels, o.value.allowModels, "");
      UnionEmpty(b.value.blockModels, o.value.blockModels);
      UnionEmpty(b.value.blockTerms, o.value.blockTerms);
      UnionEmpty(b.value.blockRegex, o.value.blockRegex);
      UnionEmpty(b.value.redactTerms, o.value.redactTerms);
    }
  }

  lemma {:induction false} UnionEmpty(b: seq<string>, o: seq<string>)
    ensures MergedUnique(b, o) == [] <==> Normalized(b) == [] && Normalized(o) == []
  {
    UniqueMeaning(b, o);
    if Normalized(b) != [] {
      assert Normalized(b)[0] in MergedUnique(b, o);
    }
    if Normalized(o) != [] {
      assert Normalized(o)[0] in MergedUnique(b, o);
    }
  }

  lemma {:induction false} MergedHasRules(rs: seq<Option<RuleSet>>)
    ensures HasRules(MergeAll(rs)) <==> exists i :: 0 <= i < |rs| && HasRules(rs[i])
  {
    if rs != [] {
      MergedHasRules(rs[..|rs| - 1]);
      MergeHasRules(MergeAll(rs[..|rs| - 1]), rs[|rs| - 1]);
      SplitLast(rs, r => !HasRules(r));
    }
  }

  /** How many levels carry a rule set at all. */
  function Sets(rs: seq<Option<RuleSet>>): nat {
    if rs == [] then 0 else Sets(rs[..|rs| - 1]) + if rs[|rs| - 1].Some? then 1 else 0
  }

  /** Two rule sets without rules cancel out, so nothing is left of an even number of them. */
  lemma {:induction false} NoneExactly(rs: seq<Option<RuleSet>>)
    ensures MergeAll(rs) == None <==> (forall i :: 0 <= i < |rs| ==> !HasRules(rs[i])) && Sets(rs) % 2 == 0
  {
    if rs != [] {
      var init, last := rs[..|rs| - 1], rs[|rs| - 1];
      NoneExactly(init);
      MergedHasRules(init);
      MergeHasRules(MergeAll(init), last);
      SplitLast(rs, r => !HasRules(r));
    }
  }

  /** Set k is what is enforced, exactly as it was written: no set follows it, and those before it have no rules and
      are even in number. */
  ghost predicate Verbatim(rs: seq<Option<RuleSet>>, k: nat) {
    && k < |rs| && rs[k].Some?
    && (forall i :: k < i < |rs| ==> rs[i].None?)
    && (forall i :: 0 <= i < k ==> !HasRules(rs[i]))
    && Sets(rs[..k]) % 2 == 0
  }

  lemma {:induction false} VerbatimIsEnforced(rs: seq<Option<RuleSet>>, k: nat)
    requires Verbatim(rs, k)
    ensures MergeAll(rs) == rs[k]
  {
    var init := rs[..|rs| - 1];
    if k < |init| {
      assert init[..k] == rs[..k];
      VerbatimIsEnforced(init, k);
    } else {
      NoneExactly(init);
    }
  }

  lemma {:induction false} VerbatimLater(rs: seq<Option<RuleSet>>, k: nat)
    requires rs != [] && rs[|rs| - 1].None? && Verbatim(rs[..|rs| - 1], k)
    ensures Verbatim(rs, k)
  {
    assert rs[..|rs| - 1][..k] == rs[..k];
  }

  /** The merge of any rule sets is clean, unless one of them is enforced verbatim. */
  lemma {:induction false} CleanOrVerbatim(rs: seq<Option<RuleSet>>)
    ensures CleanRules(MergeAll(rs)) || exists k: nat :: Verbatim(rs, k) && MergeAll(rs) == rs[k]
  {
    if rs != [] {
      var n := |rs| - 1;
      var init, last := rs[..n], rs[n];
      if last.None? {
        CleanOrVerbatim(init);
        if !CleanRules(MergeAll(init)) {
          var k: nat :| Verbatim(init, k);
          VerbatimLater(rs, k);
          VerbatimIsEnforced(rs, k);
        }
      } else if MergeAll(init).Some? {
        BothRulesClean(MergeAll(init).value, last.value);
      } else {
        NoneExactly(init);
        assert Verbatim(rs, n);
        VerbatimIsEnforced(rs, n);
      }
    }
  }

  // ---- Effective policies ----

  function Request(p: Option<Policy>): Option<RuleSet> { if p.Some? then p.value.request else None }
  function Response(p: Option<Policy>): Option<RuleSet> { if p.Some? then p.value.response else None }

  function Requests(levels: seq<Option<Policy>>): (rs: seq<Option<RuleSet>>)
    ensures |rs| == |levels| && forall i :: 0 <= i < |rs| ==> rs[i] == Request(levels[i])
  {
    seq(|levels|, i requires 0 <= i < |levels| => Request(levels[i]))
  }

  function Responses(levels: seq<Option<Policy>>): (rs: seq<Option<RuleSet>>)
    ensures |rs| == |levels| && forall i :: 0 <= i < |rs| ==> rs[i] == Response(levels[i])
  {
    seq(|levels|, i requires 0 <= i < |levels| => Response(levels[i]))
  }

  /** A merged policy is switched on whenever it has rules to enforce. */
  ghost predicate Armed(p: Option<Policy>) {
    p.Some? && (HasRules(p.value.request) || HasRules(p.value.response)) ==> p.value.enabled
  }

  /** A merge never drops a rule set and is switched on whenever one of them has rules. */
  lemma {:induction false} MergedParts(base: Option<Policy>, overlay: Option<Policy>)
    ensures var m := MergePolicies(base, overlay);
      && Request(m) == MergeRules(Request(base), Request(overlay))
      && Response(m) == MergeRules(Response(base), Response(overlay))
      && Armed(m)
  {
  }

  lemma {:induction false} EffectiveParts(levels: seq<Option<Policy>>)
    ensures var m := Effective(levels);
      Request(m) == MergeAll(Requests(levels)) && Response(m) == MergeAll(Responses(levels)) && Armed(m)
  {
    if levels != [] {
      var n := |levels| - 1;
      EffectiveParts(levels[..n]);
      MergedParts(Effective(levels[..n]), levels[n]);
      assert Requests(levels)[..n] == Requests(levels[..n]) && Responses(levels)[..n] == Responses(levels[..n]);
    }
  }

  /** Some level is enabled or has rules. */
  ghost predicate SwitchedOn(levels: seq<Option<Policy>>) {
    exists i :: 0 <= i < |levels| && LevelOn(levels[i])
  }

  predicate LevelOn(p: Option<Policy>) {
    p.Some? && (p.value.enabled || HasRules(p.value.request) || HasRules(p.value.response))
  }

  lemma {:induction false} EffectiveOn(levels: seq<Option<Policy>>)
    ensures Effective(levels).Some? && Effective(levels).value.enabled <==> SwitchedOn(levels)
  {
    if levels != [] {
      var n := |levels| - 1;
      EffectiveOn(levels[..n]);
      EffectiveParts(levels[..n]);
      MergeOn(Effective(levels[..n]), levels[n]);
      SplitLast(levels, p => !LevelOn(p));
    }
  }

  lemma {:induction false} MergeOn(base: Option<Policy>, overlay: Option<Policy>)
    requires Armed(base)
    ensures var m := MergePolicies(base, overlay);
      m.Some? && m.value.enabled <==> (base.Some? && base.value.enabled) || LevelOn(overlay)
  {
    MergeHasRules(Request(base), Request(overlay));
    MergeHasRules(Response(base), Response(overlay));
  }

  /** No level's rules are enforced as they were written while they need cleaning. */
  ghost predicate Settled(rs: seq<Option<RuleSet>>) { forall k: nat :: Verbatim(rs, k) ==> CleanRules(rs[k]) }

  lemma {:induction false} SettledIsClean(rs: seq<Option<RuleSet>>)
    ensures Settled(rs) <==> CleanRules(MergeAll(rs))
  {
    CleanOrVerbatim(rs);
    forall k: nat | Verbatim(rs, k) ensures MergeAll(rs) == rs[k] {
      VerbatimIsEnforced(rs, k);
    }
  }

  /** The effective policy is the conjunction of all levels, whatever their own Enabled flags say, for any number of
      levels and every model name: a request is admitted exactly when the rules of every level accept it, or when it
      names the sentinel, the allowlists have no name in common and every other rule accepts it. A response passes
      exactly when the rules of every level accept it. Rules are read up to white space, blanks and repeats, which
      the merge removes; only a rule set enforced verbatim is read as it stands. */
  lemma {:induction false} EffectiveIsConjunction(eng: Engine, levels: seq<Option<Policy>>, model: string, text: string)
    ensures var rs := Requests(levels);
      && (Settled(rs) ==>
          (Admits(eng, Effective(levels), model, text) <==>
           || (forall i :: 0 <= i < |rs| ==> AcceptsRequest(eng, rs[i], model, text))
           || (&& model == DENY_ALL && (forall x :: !OnEvery(rs, x))
               && forall i :: 0 <= i < |rs| ==> OthersAccept(eng, rs[i], model, text))))
      && (forall k: nat :: Verbatim(rs, k) ==>
          (Admits(eng, Effective(levels), model, text) <==>
           !SwitchedOn(levels) || RequestOk(eng, rs[k].value, model, text)))
    ensures var rs := Responses(levels);
      && (Settled(rs) ==>
          (Passes(eng, Effective(levels), text) <==> forall i :: 0 <= i < |rs| ==> AcceptsResponse(eng, rs[i], text)))
      && (forall k: nat :: Verbatim(rs, k) ==>
          (Passes(eng, Effective(levels), text) <==> !SwitchedOn(levels) || ResponseOk(eng, rs[k].value, text)))
  {
    EffectiveParts(levels);
    EffectiveOn(levels);
    CleanPolicyMeaning(eng, Effective(levels), model, text);
    MergedMeaning(eng, Requests(levels), model, text);
    MergedMeaning(eng, Responses(levels), model, text);
    SettledIsClean(Requests(levels));
    SettledIsClean(Responses(levels));
    forall k: nat | Verbatim(Requests(levels), k) ensures MergeAll(Requests(levels)) == Requests(levels)[k] {
      VerbatimIsEnforced(Requests(levels), k);
    }
    forall k: nat | Verbatim(Responses(levels), k) ensures MergeAll(Responses(levels)) == Responses(levels)[k] {
      VerbatimIsEnforced(Responses(levels), k);
    }
  }

  /** An armed policy with clean lists enforces just what its rules say. */
  lemma {:induction false} CleanPolicyMeaning(eng: Engine, p: Option<Policy>, model: string, text: string)
    requires Armed(p)
    ensures CleanRules(Request(p)) ==> (Admits(eng, p, model, text) <==> AcceptsRequest(eng, Request(p), model, text))
    ensures CleanRules(Response(p)) ==> (Passes(eng, p, text) <==> AcceptsResponse(eng, Response(p), text))
  {
    if p.Some? {
      if p.value.request.Some? && CleanRules(p.value.request) {
        CleanIsNorm(p.value.request.value);
      }
      if p.value.response.Some? && CleanRules(p.value.response) {
        CleanIsNorm(p.value.response.value);
      }
      if !p.value.enabled {
        NoRulesAcceptAll(eng, p.value.request, model, text);
        NoRulesAcceptAll(eng, p.value.response, model, text);
      }
    }
  }

  // ---- Redaction ----

  lemma {:induction false} MergeRedacts(b: Option<RuleSet>, o: Option<RuleSet>, term: string)
    ensures term in RedactList(MergeRules(b, o)) <==> term in RedactList(b) || term in RedactList(o)
  {
    if b.Some? && o.Some? {
      UniqueMeaning(b.value.redactTerms, o.value.redactTerms);
      CleanIsNormal(BothRules(b.value, o.value).redactTerms);
    }
  }

  lemma {:induction false} MergedRedacts(rs: seq<Option<RuleSet>>, term: string)
    ensures term in RedactList(MergeAll(rs)) <==> exists i :: 0 <= i < |rs| && term in RedactList(rs[i])
  {
    if rs != [] {
      var n := |rs| - 1;
      MergedRedacts(rs[..n], term);
      MergeRedacts(MergeAll(rs[..n]), rs[n], term);
      SplitLast(rs, r => term !in RedactList(r));
    }
  }

  /** The effective policy redacts a term, in requests and in responses, iff some level asks for it. */
  lemma {:induction false} EffectiveRedactsUnion(levels: seq<Option<Policy>>, term: string)
    ensures term in RedactList(Request(Effective(levels))) <==>
      exists i :: 0 <= i < |levels| && term in RedactList(Request(levels[i]))
    ensures term in RedactList(Response(Effective(levels))) <==>
      exists i :: 0 <= i < |levels| && term in RedactList(Response(levels[i]))
  {
    EffectiveParts(levels);
    MergedRedacts(Requests(levels), term);
    MergedRedacts(Responses(levels), term);
  }

  // ---- The sentinel as a model name ----

  function OneModel(x: string): RuleSet { RuleSet([x], [], [], [], [], 0, 0) }

  /** Two levels with disjoint allowlists both refuse the sentinel, their merge admits it. */
  lemma {:induction false} SentinelModelSlipsThrough(eng: Engine, a: string, b: string)
    requires Trimmed(a) && Trimmed(b) && a != b && a != DENY_ALL && b != DENY_ALL
    ensures var x, y := Some(Policy(true, Some(OneModel(a)), None)), Some(Policy(true, Some(OneModel(b)), None));
      && !AcceptsRequest(eng, Request(x), DENY_ALL, "") && !AcceptsRequest(eng, Request(y), DENY_ALL, "")
      && Admits(eng, Effective([x, y]), DENY_ALL, "")
  {
    var x, y := Some(Policy(true, Some(OneModel(a)), None)), Some(Policy(true, Some(OneModel(b)), None));
    OneModelMeans(eng, a);
    OneModelMeans(eng, b);
    var rs := Requests([x, y]);
    forall z ensures !OnEvery(rs, z) {
      assert rs[0] == Request(x) && rs[1] == Request(y);
    }
    assert Settled(rs);
    EffectiveIsConjunction(eng, [x, y], DENY_ALL, "");
  }

  lemma {:induction false} OneModelMeans(eng: Engine, a: string)
    requires Trimmed(a)
    ensures CleanRules(Some(OneModel(a))) && AllowList(Some(OneModel(a))) == [a]
    ensures OthersAccept(eng, Some(OneModel(a)), DENY_ALL, "")
  {
    CleanIsNormal([a]);
    assert Normalized([]) == [];
  }

  // ---- What single rules decide ----

  lemma {:induction false} SomeLevelRefuses(eng: Engine, levels: seq<Option<Policy>>, i: nat, model: string,
                                            text: string)
    requires i < |levels| && Settled(Requests(levels)) && !OthersAccept(eng, Request(levels[i]), model, text)
    ensures !Admits(eng, Effective(levels), model, text)
  {
    EffectiveIsConjunction(eng, levels, model, text);
    AcceptsInTwo(eng, Requests(levels)[i], model, text);
  }

  /** A model that some level blocks is refused, whatever all the policies say otherwise. */
  lemma {:induction false} BlockedModelIsRefused(eng: Engine, levels: seq<Option<Policy>>, i: nat, model: string,
                                                 text: string)
    requires i < |levels| && Settled(Requests(levels)) && Request(levels[i]).Some?
    requires model in Normalized(Request(levels[i]).value.blockModels)
    ensures !Admits(eng, Effective(levels), model, text)
  {
    SomeLevelRefuses(eng, levels, i, model, text);
  }

  /** A text in which a blocked term of some level occurs, in whatever case, is refused. */
  lemma {:induction false} BlockedTermIsRefused(eng: Engine, levels: seq<Option<Policy>>, i: nat, term: string,
                                                written: string, before: string, after: string, model: string,
                                                  text: string)
    requires i < |levels| && Settled(Requests(levels)) && Request(levels[i]).Some?
    requires term in Normalized(Request(levels[i]).value.blockTerms) && eng.lower(written) == eng.lower(term)
    requires text != "" && eng.lower(text) == eng.lower(before) + eng.lower(written) + eng.lower(after)
    ensures !Admits(eng, Effective(levels), model, text)
  {
    var r := Norm(Request(levels[i]).value);
    NormalizedClean(Request(levels[i]).value.blockTerms);
    var n := |eng.lower(before)|;
    assert eng.lower(text)[n..n + |eng.lower(term)|] == eng.lower(term);
    assert OccursAt(eng.lower(text), eng.lower(term), n);
    assert TermHits(eng, term, text) && term in r.blockTerms;
    SomeLevelRefuses(eng, levels, i, model, text);
  }

  /** A text that a pattern of some level matches is refused. */
  lemma {:induction false} BlockedPatternIsRefused(eng: Engine, levels: seq<Option<Policy>>, i: nat, p: string,
                                                   model: string, text: string)
    requires i < |levels| && Settled(Requests(levels)) && Request(levels[i]).Some?
    requires p in Normalized(Request(levels[i]).value.blockRegex) && text != "" && eng.matches(p, text)
    ensures !Admits(eng, Effective(levels), model, text)
  {
    NormalizedClean(Request(levels[i]).value.blockRegex);
    SomeLevelRefuses(eng, levels, i, model, text);
  }

  /** A text longer than a positive limit of some level is refused. */
  lemma {:induction false} LongTextIsRefused(eng: Engine, levels: seq<Option<Policy>>, i: nat, model: string,
                                             text: string)
    requires i < |levels| && Settled(Requests(levels)) && Request(levels[i]).Some?
    requires 0 < Request(levels[i]).value.maxInputChars < |text|
    ensures !Admits(eng, Effective(levels), model, text)
  {
    SomeLevelRefuses(eng, levels, i, model, text);
  }

  /** A model that is missing from a nonempty allowlist of some level is refused, unless it is the sentinel. */
  lemma {:induction false} UnlistedModelIsRefused(eng: Engine, levels: seq<Option<Policy>>, i: nat, model: string,
                                                  text: string)
    requires i < |levels| && Settled(Requests(levels)) && Request(levels[i]).Some? && model != DENY_ALL
    requires var names := Normalized(Request(levels[i]).value.allowModels); names != [] && model !in names
    ensures !Admits(eng, Effective(levels), model, text)
  {
    EffectiveIsConjunction(eng, levels, model, text);
    AcceptsInTwo(eng, Requests(levels)[i], model, text);
  }

  /** And nothing else is refused: a request that every level lists, does not block, and finds short and clean. */
  lemma {:induction false} UnobjectionableIsAdmitted(eng: Engine, levels: seq<Option<Policy>>, model: string,
                                                     text: string)
    requires Settled(Requests(levels))
    requires forall i :: 0 <= i < |levels| && Request(levels[i]).Some? ==>
      NoObjection(eng, Norm(Request(levels[i]).value), model, text)
    ensures Admits(eng, Effective(levels), model, text)
  {
    EffectiveIsConjunction(eng, levels, model, text);
    forall i | 0 <= i < |levels| ensures AcceptsRequest(eng, Requests(levels)[i], model, text) {
      if Request(levels[i]).Some? {
        NoObjectionIsOk(eng, Norm(Request(levels[i]).value), model, text);
      }
    }
  }

  lemma {:induction false} NoObjectionIsOk(eng: Engine, r: RuleSet, model: string, text: string)
    requires NoObjection(eng, r, model, text)
    ensures RequestOk(eng, r, model, text)
  {
  }

  ghost predicate NoObjection(eng: Engine, r: RuleSet, model: string, text: string) {
    && (r.allowModels == [] || model in r.allowModels) && model !in r.blockModels
    && (r.maxInputChars <= 0 || |text| <= r.maxInputChars)
    && (forall t :: t in r.blockTerms ==> !Contains(eng.lower(text), eng.lower(t)))
    && (forall p :: p in r.blockRegex ==> !eng.matches(p, text))
  }
}
