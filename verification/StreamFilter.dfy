/**
 Enforcing a policy on one request and on a response stream: internal/service/catalog/policy.go.
 */
module StreamFilter {
  import opened Options
  import opened GuardrailPolicy

  // ---- Redaction ----

  const REDACTED: string := "[REDACTED]"

  /** strings.ReplaceAll with a nonempty term: leftmost, non-overlapping. */
  function ReplaceAll(s: string, term: string): string
    requires term != ""
  {
    if |s| < |term| then s
    else if s[..|term|] == term then REDACTED + ReplaceAll(s[|term|..], term)
    else [s[0]] + ReplaceAll(s[1..], term)
  }

  /** How many times the term is replaced. */
  function Replacements(s: string, term: string): nat
    requires term != ""
  {
    if |s| < |term| then 0
    else if s[..|term|] == term then 1 + Replacements(s[|term|..], term)
    else Replacements(s[1..], term)
  }

  lemma {:induction false} OneMore(n: nat, d: int)
    ensures (1 + n) * d == d + n * d
  {
  }

  lemma {:induction false} ReplacedLength(s: string, term: string)
    requires term != ""
    ensures |ReplaceAll(s, term)| == |s| + Replacements(s, term) * (|REDACTED| - |term|)
  {
    if |s| >= |term| {
      if s[..|term|] == term {
        ReplacedLength(s[|term|..], term);
        OneMore(Replacements(s[|term|..], term), |REDACTED| - |term|);
      } else {
        ReplacedLength(s[1..], term);
      }
    }
  }

  lemma {:induction false} ReplacesOccurrences(s: string, term: string)
    requires term != ""
    ensures Replacements(s, term) > 0 <==> Contains(s, term)
  {
    if |s| < |term| {
    } else if s[..|term|] == term {
      assert OccursAt(s, term, 0);
    } else {
      ReplacesOccurrences(s[1..], term);
      if Contains(s[1..], term) {
        var i :| 0 <= i <= |s[1..]| && OccursAt(s[1..], term, i);
        OccursShifted(s, term, i + 1);
      }
      if Contains(s, term) {
        var i :| 0 <= i <= |s| && OccursAt(s, term, i);
        OccursShifted(s, term, i);
      }
    }
  }

  lemma {:induction false} OccursShifted(s: string, term: string, i: nat)
    requires term != "" && s != "" && i <= |s|
    ensures i > 0 ==> (OccursAt(s, term, i) <==> OccursAt(s[1..], term, i - 1))
    ensures i == 0 && OccursAt(s, term, i) ==> |s| >= |term| && s[..|term|] == term
  {
    assert i > 0 && i + |term| <= |s| ==> s[i..i + |term|] == s[1..][i - 1..i - 1 + |term|];
  }

  lemma {:induction false} NothingToReplace(s: string, term: string)
    requires term != "" && Replacements(s, term) == 0
    ensures ReplaceAll(s, term) == s
  {
    if |s| >= |term| {
      NothingToReplace(s[1..], term);
      assert s == [s[0]] + s[1..];
    }
  }

  lemma {:induction false} MarkerStays(s: string)
    ensures ReplaceAll(s, REDACTED) == s
  {
    if |s| >= |REDACTED| {
      if s[..|REDACTED|] == REDACTED {
        MarkerStays(s[|REDACTED|..]);
        assert s == s[..|REDACTED|] + s[|REDACTED|..];
      } else {
        MarkerStays(s[1..]);
        assert s == [s[0]] + s[1..];
      }
    }
  }

  /** Replacing a term whose length is the marker's moves nothing, so each occurrence shows. */
  lemma {:induction false} SameLengthShows(s: string, term: string)
    requires |term| == |REDACTED| && term != REDACTED && Replacements(s, term) > 0
    ensures ReplaceAll(s, term) != s
  {
    var r := ReplaceAll(s, term);
    if s[..|term|] == term {
      assert r[..|term|] == REDACTED;
    } else {
      SameLengthShows(s[1..], term);
      assert r[1..] == ReplaceAll(s[1..], term);
    }
  }

  /** A text is left alone exactly when it does not contain the term (or the term is the marker itself). */
  lemma {:induction false} RedactsExactlyOccurrences(s: string, term: string)
    requires term != ""
    ensures ReplaceAll(s, term) == s <==> !Contains(s, term) || term == REDACTED
  {
    ReplacesOccurrences(s, term);
    ReplacedLength(s, term);
    if Replacements(s, term) == 0 {
      NothingToReplace(s, term);
    } else if term == REDACTED {
      MarkerStays(s);
    } else if |term| == |REDACTED| {
      SameLengthShows(s, term);
    } else {
      NonzeroProduct(Replacements(s, term), |REDACTED| - |term|);
    }
  }

  lemma {:induction false} NonzeroProduct(n: nat, d: int)
    requires n > 0 && d != 0
    ensures n * d != 0
  {
  }

  function Redacted(text: string, terms: seq<string>): string {
    if terms == [] then text
    else
      var init, term := Redacted(text, terms[..|terms| - 1]), terms[|terms| - 1];
      if term == "" then init else ReplaceAll(init, term)
  }

  method RedactText(text: string, terms: seq<string>) returns (result: string)
    ensures result == Redacted(text, terms)
  {
    result := text;
    for i := 0 to |terms|
      invariant result == Redacted(text, terms[..i])
    {
      assert terms[..i + 1][..i] == terms[..i];
      if terms[i] == "" {
        continue;
      }
      result := ReplaceAll(result, terms[i]);
    }
    assert terms[..|terms|] == terms;
  }

  method CheckBlockedContent(eng: Engine, r: RuleSet, text: string) returns (ok: bool)
    ensures ok == ContentOk(eng, r, text)
  {
    if text == "" {
      return true;
    }
    for i := 0 to |r.blockTerms|
      invariant forall j :: 0 <= j < i ==> !TermHits(eng, r.blockTerms[j], text)
    {
      if r.blockTerms[i] != "" && Contains(eng.lower(text), eng.lower(r.blockTerms[i])) {
        assert TermHits(eng, r.blockTerms[i], text) && r.blockTerms[i] in r.blockTerms;
        return false;
      }
    }
    for i := 0 to |r.blockRegex|
      invariant forall j :: 0 <= j < i ==> r.blockRegex[j] == "" || !eng.matches(r.blockRegex[j], text)
    {
      if r.blockRegex[i] == "" {
        continue;
      }
      if eng.matches(r.blockRegex[i], text) {
        return false;
      }
    }
    ok := true;
  }

  function RedactedAll(texts: seq<string>, terms: seq<string>): seq<string> {
    seq(|texts|, i requires 0 <= i < |texts| => Redacted(texts[i], terms))
  }

  /** applyRequestPolicy: refuse, or redact every message text in place. `text` is the joined input text. */
  method ApplyRequestPolicy(eng: Engine, p: Option<Policy>, model: string, text: string, messages: array<string>)
    returns (ok: bool)
    modifies messages
    ensures ok == Admits(eng, p, model, text)
    ensures messages[..] == if ok && p.Some? && p.value.enabled && p.value.request.Some?
                            then RedactedAll(old(messages[..]), p.value.request.value.redactTerms)
                            else old(messages[..])
  {
    if p.None? || !p.value.enabled || p.value.request.None? {
      return true;
    }
    var rules := p.value.request.value;
    if |rules.allowModels| > 0 && model !in rules.allowModels {
      return false;
    }
    if model in rules.blockModels {
      return false;
    }
    if rules.maxInputChars > 0 && |text| > rules.maxInputChars {
      return false;
    }
    var clean := CheckBlockedContent(eng, rules, text);
    if !clean {
      return false;
    }
    RedactInPlace(messages, rules.redactTerms);
    ok := true;
  }

  lemma {:induction false} RedactedEmpty(terms: seq<string>)
    ensures Redacted("", terms) == ""
  {
    if terms != [] {
      RedactedEmpty(terms[..|terms| - 1]);
    }
  }

  method RedactInPlace(messages: array<string>, terms: seq<string>)
    modifies messages
    ensures messages[..] == RedactedAll(old(messages[..]), terms)
  {
    for i := 0 to messages.Length
      invariant forall j :: 0 <= j < i ==> messages[j] == Redacted(old(messages[j]), terms)
      invariant forall j :: i <= j < messages.Length ==> messages[j] == old(messages[j])
    {
      if messages[i] != "" {
        messages[i] := RedactText(messages[i], terms);
      } else {
        RedactedEmpty(terms);
      }
    }
  }

  // ---- Streams ----

  /** A text or refusal part of a finished response. */
  datatype Part = Part(text: string, refusal: string)

  datatype Event =
    | Delta(text: string)                  // content delta
    | Completed(response: Option<seq<Part>>)
    | Other(kind: string)

  /** What the select loop may receive. */
  datatype Input = Ev(event: Event) | StreamError(message: string) | ErrorsClosed | ContextDone

  datatype Failure = Blocked | TooLong | Upstream(message: string) | Cancelled

  function OutputText(parts: seq<Part>): string {
    if parts == [] then ""
    else
      var last := parts[|parts| - 1];
      OutputText(parts[..|parts| - 1]) + if last.text != "" then last.text else last.refusal
  }

  function RedactedParts(parts: seq<Part>, terms: seq<string>): seq<Part> {
    seq(|parts|, i requires 0 <= i < |parts| => parts[i].(text := Redacted(parts[i].text, terms)))
  }

  /** What one event becomes when it is forwarded. */
  function Forwarded(e: Event, terms: seq<string>): Event {
    match e
    case Delta(text) => Delta(Redacted(text, terms))
    case Completed(Some(parts)) => Completed(Some(RedactedParts(parts, terms)))
    case _ => e
  }

  /** The concatenation of content deltas. */
  function Text(es: seq<Event>): string {
    if es == [] then ""
    else Text(es[..|es| - 1]) + match es[|es| - 1] case Delta(t) => t case _ => ""
  }

  /** Why an input ends the stream, given what was forwarded before it. */
  ghost predicate Stops(eng: Engine, r: RuleSet, sent: seq<Event>, x: Input, why: Option<Failure>) {
    match x
    case StreamError(m) => why == Some(Upstream(m))
    case ErrorsClosed => why == None
    case ContextDone => why == Some(Cancelled)
    case Ev(Delta(t)) =>
      var buffer := Text(sent) + Redacted(t, r.redactTerms);
      t != "" && why == Some(if !ContentOk(eng, r, buffer) then Blocked else TooLong) && !ResponseOk(eng, r, buffer)
    case Ev(Completed(Some(parts))) =>
      why == Some(if !ContentOk(eng, r, OutputText(parts)) then Blocked else TooLong) &&
        !ResponseOk(eng, r, OutputText(parts))
    case _ => false
  }

  ghost predicate Continues(eng: Engine, r: RuleSet, sent: seq<Event>, x: Input) {
    x.Ev? &&
    match x.event
    case Delta(t) => t == "" || ResponseOk(eng, r, Text(sent) + Redacted(t, r.redactTerms))
    case Completed(Some(parts)) => ResponseOk(eng, r, OutputText(parts))
    case _ => true
  }

  /** The one outcome a run may have: it forwards, redacted and in order, the longest prefix that continues. */
  ghost predicate Filtered(eng: Engine, r: RuleSet, input: seq<Input>, out: seq<Event>, err: Option<Failure>) {
    && |out| <= |input|
    && (forall i :: 0 <= i < |out| ==>
          Continues(eng, r, out[..i], input[i]) && out[i] == Forwarded(input[i].event, r.redactTerms))
    && (if |out| == |input| then err == None else Stops(eng, r, out, input[|out|], err))
  }

  /** applyResponsePolicy on a finished response. */
  method ApplyResponsePolicy(eng: Engine, r: RuleSet, parts: seq<Part>)
    returns (err: Option<Failure>, redacted: seq<Part>)
    ensures err == if ResponseOk(eng, r, OutputText(parts)) then None
                   else Some(if !ContentOk(eng, r, OutputText(parts)) then Blocked else TooLong)
    ensures err.None? ==> redacted == RedactedParts(parts, r.redactTerms)
  {
    var text := OutputText(parts);
    var clean := CheckBlockedContent(eng, r, text);
    if !clean {
      return Some(Blocked), parts;
    }
    if r.maxOutputChars > 0 && |text| > r.maxOutputChars {
      return Some(TooLong), parts;
    }
    redacted := [];
    for j := 0 to |parts|
      invariant redacted == RedactedParts(parts[..j], r.redactTerms)
    {
      var part := parts[j];
      if part.text != "" {
        var t := RedactText(part.text, r.redactTerms);
        part := part.(text := t);
      } else {
        RedactedEmpty(r.redactTerms);
      }
      redacted := redacted + [part];
      assert parts[..j + 1] == parts[..j] + [parts[j]];
    }
    assert parts[..|parts|] == parts;
    err := None;
  }

  method FilterResponseStream(eng: Engine, r: RuleSet, input: seq<Input>)
    returns (out: seq<Event>, err: Option<Failure>)
    ensures Filtered(eng, r, input, out, err)
  {
    out := [];
    var buffer := "";
    for i := 0 to |input|
      invariant |out| == i && buffer == Text(out)
      invariant forall j :: 0 <= j < i ==>
        Continues(eng, r, out[..j], input[j]) && out[j] == Forwarded(input[j].event, r.redactTerms)
    {
      match input[i]
      case StreamError(m) =>
        return out, Some(Upstream(m));
      case ErrorsClosed =>
        return out, None;
      case ContextDone =>
        return out, Some(Cancelled);
      case Ev(e) =>
        var event := e;
        if e.Delta? && e.text != "" {
          var text := RedactText(e.text, r.redactTerms);
          var grown := buffer + text;
          var clean := CheckBlockedContent(eng, r, grown);
          if !clean {
            return out, Some(Blocked);
          }
          if r.maxOutputChars > 0 && |grown| > r.maxOutputChars {
            return out, Some(TooLong);
          }
          buffer := grown;
          event := Delta(text);
        } else if e.Delta? {
          RedactedEmpty(r.redactTerms);
        }
        if e.Completed? && e.response.Some? {
          var failure, parts := ApplyResponsePolicy(eng, r, e.response.value);
          if failure.Some? {
            return out, failure;
          }
          event := Completed(Some(parts));
        }
        ghost var sent := out;
        out := out + [event];
        assert out[..i] == sent;
        assert forall j :: 0 <= j < i ==> out[..j] == sent[..j];
    }
    err := None;
  }

  // ---- What the outcome guarantees ----

  /** At every point of every stream the text sent so far, across chunk borders, is free of blocked terms
      and patterns and within the length limit. */
  lemma {:induction false} SentTextIsAlwaysClean(eng: Engine, r: RuleSet, input: seq<Input>, out: seq<Event>,
                                                 err: Option<Failure>, n: nat)
    requires Filtered(eng, r, input, out, err) && n <= |out|
    ensures ResponseOk(eng, r, Text(out[..n]))
  {
    if n == 0 {
      assert out[..0] == [];
      assert Text(out[..0]) == "";
    } else {
      SentTextIsAlwaysClean(eng, r, input, out, err, n - 1);
      assert out[..n][..n - 1] == out[..n - 1];
      assert Continues(eng, r, out[..n - 1], input[n - 1]);
      assert out[n - 1] == Forwarded(input[n - 1].event, r.redactTerms);
      if input[n - 1].event == Delta("") {
        RedactedEmpty(r.redactTerms);
        assert Text(out[..n]) == Text(out[..n - 1]);
      } else if !input[n - 1].event.Delta? {
        assert Text(out[..n]) == Text(out[..n - 1]);
      } else {
        assert Text(out[..n]) == Text(out[..n - 1]) + Redacted(input[n - 1].event.text, r.redactTerms);
      }
    }
  }

  lemma {:induction false} StopsOrContinues(eng: Engine, r: RuleSet, sent: seq<Event>, x: Input, why: Option<Failure>)
    requires Continues(eng, r, sent, x)
    ensures !Stops(eng, r, sent, x, why)
  {
  }

  /** No run stops strictly before another one on the same input. */
  lemma {:induction false} NotShorter(eng: Engine, r: RuleSet, input: seq<Input>,
                   out1: seq<Event>, err1: Option<Failure>, out2: seq<Event>, err2: Option<Failure>)
    requires Filtered(eng, r, input, out1, err1) && Filtered(eng, r, input, out2, err2)
    requires |out1| <= |out2| && out1 == out2[..|out1|]
    ensures |out1| == |out2|
  {
    var n := |out1|;
    if n < |out2| {
      StopsOrContinues(eng, r, out2[..n], input[n], err1);
    }
  }

  /** The outcome is unique: the filter neither forwards more nor less than the policy allows. */
  lemma {:induction false} OutcomeIsUnique(eng: Engine, r: RuleSet, input: seq<Input>,
                                           out1: seq<Event>, err1: Option<Failure>,
                                           out2: seq<Event>, err2: Option<Failure>)
    requires Filtered(eng, r, input, out1, err1) && Filtered(eng, r, input, out2, err2)
    ensures out1 == out2 && err1 == err2
  {
    var n := if |out1| <= |out2| then |out1| else |out2|;
    forall i | 0 <= i < n ensures out1[i] == out2[i] {
      assert Continues(eng, r, out1[..i], input[i]) && Continues(eng, r, out2[..i], input[i]);
    }
    assert out1[..n] == out2[..n];
    assert |out1| == n ==> out1[..n] == out1;
    assert |out2| == n ==> out2[..n] == out2;
    if |out1| <= |out2| {
      NotShorter(eng, r, input, out1, err1, out2, err2);
    } else {
      NotShorter(eng, r, input, out2, err2, out1, err1);
    }
  }

  /** All input the filter could have seen, chunk by chunk redacted. */
  function RedactedInput(input: seq<Input>, terms: seq<string>): string {
    if input == [] then ""
    else
      RedactedInput(input[..|input| - 1], terms) +
      match input[|input| - 1] case Ev(Delta(t)) => Redacted(t, terms) case _ => ""
  }

  /** What was sent is an in-order prefix of the chunkwise redacted input, and a stream that ended
      without error was sent whole, up to the closing of the error channel if the loop noticed that first. */
  lemma {:induction false} SentTextIsRedactedPrefix(eng: Engine, r: RuleSet, input: seq<Input>, out: seq<Event>,
                                                    err: Option<Failure>, n: nat)
    requires Filtered(eng, r, input, out, err) && n <= |out|
    ensures Text(out[..n]) == RedactedInput(input[..n], r.redactTerms)
    ensures err.None? ==> |out| == |input| || input[|out|] == ErrorsClosed
  {
    if n > 0 {
      SentTextIsRedactedPrefix(eng, r, input, out, err, n - 1);
      assert out[..n][..n - 1] == out[..n - 1] && input[..n][..n - 1] == input[..n - 1];
      assert Continues(eng, r, out[..n - 1], input[n - 1]) &&
        out[n - 1] == Forwarded(input[n - 1].event, r.redactTerms);
    }
  }

  // ---- Checking as it streams against checking at the end ----

  /** At every chunk border of this stream, lower-casing the text so far gives the beginning of what lower-casing all
      of it gives, and a pattern that matches the text so far matches all of it. */
  ghost predicate SteadyBorders(eng: Engine, r: RuleSet, input: seq<Input>) {
    forall n :: 0 <= n <= |input| ==> SteadyAt(eng, r, input, n)
  }

  ghost predicate SteadyAt(eng: Engine, r: RuleSet, input: seq<Input>, n: nat)
    requires n <= |input|
  {
    var part, whole := RedactedInput(input[..n], r.redactTerms), RedactedInput(input, r.redactTerms);
    && StartsWith(eng.lower(whole), eng.lower(part))
    && forall p :: p in r.blockRegex && eng.matches(p, part) ==> eng.matches(p, whole)
  }

  lemma {:induction false} ContainsGrows(whole: string, part: string, t: string)
    requires StartsWith(whole, part) && Contains(part, t)
    ensures Contains(whole, t)
  {
    var i :| 0 <= i <= |part| && OccursAt(part, t, i);
    assert whole[i..i + |t|] == part[i..i + |t|];
    assert OccursAt(whole, t, i);
  }

  lemma {:induction false} PrefixIsOk(eng: Engine, r: RuleSet, input: seq<Input>, n: nat)
    requires n <= |input| && SteadyAt(eng, r, input, n)
    requires ResponseOk(eng, r, RedactedInput(input, r.redactTerms))
    ensures ResponseOk(eng, r, RedactedInput(input[..n], r.redactTerms))
  {
    var part, whole := RedactedInput(input[..n], r.redactTerms), RedactedInput(input, r.redactTerms);
    RedactedInputGrows(input, r.redactTerms, n);
    if part != "" {
      assert whole != "";
      forall t | t in r.blockTerms ensures !TermHits(eng, t, part) {
        assert !TermHits(eng, t, whole);
        if TermHits(eng, t, part) {
          ContainsGrows(eng.lower(whole), eng.lower(part), eng.lower(t));
        }
      }
    }
  }

  ghost predicate StartsWith(s: string, t: string) { |t| <= |s| && s[..|t|] == t }

  lemma {:induction false} RedactedInputGrows(input: seq<Input>, terms: seq<string>, n: nat)
    requires n <= |input|
    ensures StartsWith(RedactedInput(input, terms), RedactedInput(input[..n], terms))
  {
    if n == |input| {
      assert input[..n] == input;
    } else {
      var init := input[..|input| - 1];
      RedactedInputGrows(init, terms, n);
      assert init[..n] == input[..n];
      assert StartsWith(RedactedInput(input, terms), RedactedInput(init, terms));
      StartsWithin(RedactedInput(input, terms), RedactedInput(init, terms), RedactedInput(input[..n], terms));
    }
  }

  lemma {:induction false} StartsWithin(a: string, b: string, c: string)
    requires StartsWith(a, b) && StartsWith(b, c)
    ensures StartsWith(a, c)
  {
    assert a[..|c|] == b[..|c|];
  }

  /** For a stream of chunks, the incremental filter refuses exactly when a check of the whole redacted
      text would have refused. */
  lemma {:induction false} StreamRefusedExactlyWhenTextIs(eng: Engine, r: RuleSet, input: seq<Input>,
                                                          out: seq<Event>, err: Option<Failure>)
    requires Filtered(eng, r, input, out, err) && SteadyBorders(eng, r, input)
    requires forall i :: 0 <= i < |input| ==> input[i].Ev? && !input[i].event.Completed?
    ensures err == None <==> ResponseOk(eng, r, RedactedInput(input, r.redactTerms))
  {
    var n := |out|;
    SentTextIsAlwaysClean(eng, r, input, out, err, n);
    SentTextIsRedactedPrefix(eng, r, input, out, err, n);
    assert out[..n] == out;
    if n == |input| {
      assert input[..n] == input;
    } else {
      RefusalIsFinal(eng, r, input, out, err);
    }
  }

  lemma {:induction false} OneMoreChunk(input: seq<Input>, terms: seq<string>, n: nat)
    requires n < |input| && input[n].Ev? && input[n].event.Delta?
    ensures RedactedInput(input[..n + 1], terms) ==
      RedactedInput(input[..n], terms) + Redacted(input[n].event.text, terms)
  {
    assert input[..n + 1][..n] == input[..n];
  }

  lemma {:induction false} RefusalIsFinal(eng: Engine, r: RuleSet, input: seq<Input>, out: seq<Event>,
                                          err: Option<Failure>)
    requires Filtered(eng, r, input, out, err) && SteadyBorders(eng, r, input) && |out| < |input|
    requires input[|out|].Ev? && !input[|out|].event.Completed?
    requires Text(out) == RedactedInput(input[..|out|], r.redactTerms)
    ensures err.Some? && !ResponseOk(eng, r, RedactedInput(input, r.redactTerms))
  {
    var n, whole := |out|, RedactedInput(input, r.redactTerms);
    assert Stops(eng, r, out, input[n], err);
    var buffer := Text(out) + Redacted(input[n].event.text, r.redactTerms);
    OneMoreChunk(input, r.redactTerms, n);
    assert SteadyAt(eng, r, input, n + 1);
    if ResponseOk(eng, r, whole) {
      PrefixIsOk(eng, r, input, n + 1);
    }
  }

  /** Checked on the whole text up to and including it, input n is an event that a policy lets through. */
  ghost predicate PassesAt(eng: Engine, r: RuleSet, input: seq<Input>, n: nat)
    requires n < |input|
  {
    match input[n]
    case Ev(Delta(t)) => t == "" || ResponseOk(eng, r, RedactedInput(input[..n + 1], r.redactTerms))
    case Ev(Completed(Some(parts))) => ResponseOk(eng, r, OutputText(parts))
    case Ev(_) => true
    case _ => false
  }

  /** For every policy and every input, the stream is cut at the first input that does not pass, and nowhere else. */
  lemma {:induction false} CutAtFirstRefusal(eng: Engine, r: RuleSet, input: seq<Input>, out: seq<Event>,
                                             err: Option<Failure>, n: nat)
    requires Filtered(eng, r, input, out, err) && n <= |out| && n < |input|
    ensures n < |out| <==> PassesAt(eng, r, input, n)
  {
    SentTextIsRedactedPrefix(eng, r, input, out, err, n);
    if input[n].Ev? && input[n].event.Delta? {
      OneMoreChunk(input, r.redactTerms, n);
    }
    if n < |out| {
      assert Continues(eng, r, out[..n], input[n]);
    } else {
      assert out[..n] == out;
      assert Stops(eng, r, out, input[n], err);
    }
  }

  /** What each event is sent as: texts redacted, refusals and every other kind of event as they came. */
  lemma {:induction false} SentEventsExactly(eng: Engine, r: RuleSet, input: seq<Input>, out: seq<Event>,
                                             err: Option<Failure>, i: nat)
    requires Filtered(eng, r, input, out, err) && i < |out|
    ensures input[i].Ev? && var e := input[i].event;
      match e
      case Delta(t) => out[i] == Delta(Redacted(t, r.redactTerms))
      case Completed(Some(parts)) => out[i].Completed? && out[i].response.Some? && var sent := out[i].response.value;
        |sent| == |parts| && forall j :: 0 <= j < |parts| ==>
          sent[j].text == Redacted(parts[j].text, r.redactTerms) && sent[j].refusal == parts[j].refusal
      case _ => out[i] == e
  {
    assert Continues(eng, r, out[..i], input[i]) && out[i] == Forwarded(input[i].event, r.redactTerms);
  }

  /** The text of a finished response: of each part its text or, without one, its refusal. */
  lemma {:induction false} OutputTextJoins(a: seq<Part>, b: seq<Part>, text: string, refusal: string)
    ensures OutputText(a + b) == OutputText(a) + OutputText(b)
    ensures OutputText([Part(text, refusal)]) == if text == "" then refusal else text
    decreases |b|
  {
    var one := Part(text, refusal);
    assert [one][..0] == [] && OutputText([]) == "";
    if b == [] {
      assert a + b == a;
    } else {
      var n := |b| - 1;
      OutputTextJoins(a, b[..n], text, refusal);
      assert (a + b)[..|a + b| - 1] == a + b[..n] && (a + b)[|a + b| - 1] == b[n];
    }
  }

  /** The text that the policy is asked about at an input. */
  function Checked(input: seq<Input>, terms: seq<string>, n: nat): Option<string>
    requires n < |input|
  {
    match input[n]
    case Ev(Delta(t)) => if t == "" then None else Some(RedactedInput(input[..n + 1], terms))
    case Ev(Completed(Some(parts))) => Some(OutputText(parts))
    case _ => None
  }

  /** Why a stream ends where it ends. */
  lemma {:induction false} EndExactly(eng: Engine, r: RuleSet, input: seq<Input>, out: seq<Event>, err: Option<Failure>)
    requires Filtered(eng, r, input, out, err) && |out| < |input|
    ensures var x, text := input[|out|], Checked(input, r.redactTerms, |out|);
      && (err == None <==> x == ErrorsClosed)
      && (err == Some(Cancelled) <==> x == ContextDone)
      && (forall m :: err == Some(Upstream(m)) <==> x == StreamError(m))
      && (err == Some(Blocked) <==> text.Some? && !ContentOk(eng, r, text.value))
      && (err == Some(TooLong) <==>
          text.Some? && ContentOk(eng, r, text.value) && 0 < r.maxOutputChars < |text.value|)
  {
    var n := |out|;
    SentTextIsRedactedPrefix(eng, r, input, out, err, n);
    assert out[..n] == out;
    assert Stops(eng, r, out, input[n], err);
    if input[n].Ev? && input[n].event.Delta? {
      OneMoreChunk(input, r.redactTerms, n);
    }
  }

  // ---- Redacting chunk by chunk ----

  /** Scanning a + b for the term, an occurrence that is replaced begins in a and ends in b. */
  predicate Cut(a: string, b: string, term: string)
    requires term != ""
  {
    if a == "" || |a + b| < |term| then false
    else if (a + b)[..|term|] == term then |term| > |a| || Cut(a[|term|..], b, term)
    else Cut(a[1..], b, term)
  }

  lemma {:induction false} ShortStays(s: string, term: string)
    requires term != "" && |s| < |term|
    ensures ReplaceAll(s, term) == s
  {
  }

  /** Nothing to replace at the front. */
  lemma {:induction false} FrontStays(s: string, term: string)
    requires term != "" && s != "" && !StartsWith(s, term)
    ensures ReplaceAll(s, term) == [s[0]] + ReplaceAll(s[1..], term)
  {
    if |s| < |term| {
      ShortStays(s, term);
      ShortStays(s[1..], term);
      assert s == [s[0]] + s[1..];
    }
  }

  lemma {:induction false} StartsOn(a: string, b: string, t: string)
    ensures StartsWith(a, t) ==> StartsWith(a + b, t)
    ensures |t| <= |a| && StartsWith(a + b, t) ==> StartsWith(a, t)
  {
    assert |t| <= |a| ==> (a + b)[..|t|] == a[..|t|];
  }

  /** Where a term starts, the marker starts the output. */
  lemma {:induction false} FirstByte(s: string, term: string)
    requires term != ""
    ensures StartsWith(s, term) ==> s[0] == term[0] && ReplaceAll(s, term)[0] == '['
  {
    assert StartsWith(s, term) ==> s[..|term|][0] == s[0];
  }

  lemma {:induction false} UncutSplits(a: string, b: string, term: string)
    requires term != "" && !Cut(a, b, term)
    ensures ReplaceAll(a + b, term) == ReplaceAll(a, term) + ReplaceAll(b, term)
    decreases |a|
  {
    var whole := a + b;
    if a == "" {
      assert whole == b;
    } else if StartsWith(whole, term) {
      assert |term| <= |a| && a[..|term|] == term;
      assert whole[|term|..] == a[|term|..] + b;
      UncutSplits(a[|term|..], b, term);
      Concat3(REDACTED, ReplaceAll(a[|term|..], term), ReplaceAll(b, term));
    } else {
      assert whole[1..] == a[1..] + b;
      StartsOn(a, b, term);
      if |whole| < |term| {
        ShortStays(whole, term);
        ShortStays(a, term);
        ShortStays(b, term);
      } else {
        UncutSplits(a[1..], b, term);
        FrontStays(whole, term);
        FrontStays(a, term);
        Concat3([a[0]], ReplaceAll(a[1..], term), ReplaceAll(b, term));
      }
    }
  }

  lemma {:induction false} Concat3(x: string, y: string, z: string)
    ensures x + (y + z) == (x + y) + z
  {
  }

  /** A term that begins with a bracket cannot begin inside a text without one. */
  lemma {:induction false} UnbracketedStays(v: string, rest: string, term: string)
    requires term != "" && term[0] == '[' && '[' !in v
    ensures ReplaceAll(v + rest, term) == v + ReplaceAll(rest, term)
  {
    if v == "" {
      assert v + rest == rest;
    } else {
      var s := v + rest;
      assert s[0] == v[0] && s[1..] == v[1..] + rest;
      FirstByte(s, term);
      FrontStays(s, term);
      UnbracketedStays(v[1..], rest, term);
      Concat3([v[0]], v[1..], ReplaceAll(rest, term));
    }
  }

  /** Output without a bracket was copied from the input. */
  lemma {:induction false} UnbracketedIsCopied(s: string, u: string, z: string, term: string) returns (rest: string)
    requires term != "" && '[' !in u && ReplaceAll(s, term) == u + z
    ensures s == u + rest && ReplaceAll(rest, term) == z
    decreases |u|
  {
    if u == "" {
      assert u + z == z;
      rest := s;
    } else {
      assert (u + z)[0] == u[0] && (u + z)[1..] == u[1..] + z;
      FirstByte(s, term);
      FrontStays(s, term);
      assert ([s[0]] + ReplaceAll(s[1..], term))[1..] == ReplaceAll(s[1..], term);
      rest := UnbracketedIsCopied(s[1..], u[1..], z, term);
      Concat3([u[0]], u[1..], rest);
      assert s == [s[0]] + s[1..] && u == [u[0]] + u[1..];
    }
  }

  /** Two ways to begin the same text. */
  lemma {:induction false} Overlap(m: string, p: string, x: string, q: string)
    requires m + p == x + q
    ensures |x| >= |m| ==> StartsWith(x, m)
    ensures |x| <= |m| ==> m == x + m[|x|..] && q == m[|x|..] + p
  {
    assert |x| >= |m| ==> (x + q)[..|m|] == x[..|m|] && (m + p)[..|m|] == m;
    assert |x| <= |m| ==> (m + p)[..|x|] == m[..|x|] && (x + q)[..|x|] == x;
    assert |x| <= |m| ==> (m + p)[|x|..] == m[|x|..] + p && (x + q)[|x|..] == q;
  }

  /** At the cut: x is the part of the term before the border, y the part after it. */
  lemma {:induction false} CutShows(x: string, y: string, rest: string)
    requires x != "" && y != "" && !StartsWith(x + y, REDACTED)
    ensures REDACTED + ReplaceAll(rest, x + y) != x + ReplaceAll(y + rest, x + y)
  {
    var term, b := x + y, y + rest;
    if REDACTED + ReplaceAll(rest, term) == x + ReplaceAll(b, term) {
      Overlap(REDACTED, ReplaceAll(rest, term), x, ReplaceAll(b, term));
      StartsOn(x, y, REDACTED);
      var tail := REDACTED[|x|..];
      assert '[' !in tail;
      var after := UnbracketedIsCopied(b, tail, ReplaceAll(rest, term), term);
      TailDiffers(x, y, rest, tail, after);
    }
  }

  /** y + rest and tail + after are the same text, and the term is shorter than the marker. */
  lemma {:induction false} TailDiffers(x: string, y: string, rest: string, tail: string, after: string)
    requires x != "" && y != "" && REDACTED == x + tail && '[' !in tail
    requires !StartsWith(x + y, REDACTED) && y + rest == tail + after
    ensures ReplaceAll(rest, x + y) != ReplaceAll(after, x + y)
  {
    var term := x + y;
    Overlap(tail, after, y, rest);
    StartsBoth(x, y, tail);
    var v := tail[|y|..];
    assert term[0] == x[0] == REDACTED[0] == '[';
    UnbracketedStays(v, after, term);
    assert |ReplaceAll(rest, term)| == |v| + |ReplaceAll(after, term)|;
  }

  lemma {:induction false} StartsBoth(x: string, y: string, t: string)
    ensures StartsWith(y, t) ==> StartsWith(x + y, x + t)
  {
    assert |t| <= |y| ==> (x + y)[..|x + t|] == x + y[..|t|];
  }

  lemma {:induction false} CutDiffers(a: string, b: string, term: string)
    requires term != "" && Cut(a, b, term) && !StartsWith(term, REDACTED)
    ensures ReplaceAll(a + b, term) != ReplaceAll(a, term) + ReplaceAll(b, term)
    decreases |a|
  {
    var whole := a + b;
    if StartsWith(whole, term) {
      if |term| > |a| {
        var y := term[|a|..];
        assert term[..|a|] == whole[..|term|][..|a|] == a && whole[|a|..] == b;
        assert whole[..|term|][|a|..] == b[..|y|] && whole[|term|..] == b[|y|..];
        assert term == a + y && b == y + whole[|term|..];
        assert ReplaceAll(whole, term) == REDACTED + ReplaceAll(whole[|term|..], term);
        ShortStays(a, term);
        CutShows(a, y, whole[|term|..]);
      } else {
        assert a[..|term|] == term && whole[|term|..] == a[|term|..] + b;
        CutDiffers(a[|term|..], b, term);
        DifferAfter(REDACTED, ReplaceAll(whole[|term|..], term), ReplaceAll(a[|term|..], term), ReplaceAll(b, term));
      }
    } else {
      assert whole[1..] == a[1..] + b;
      StartsOn(a, b, term);
      CutDiffers(a[1..], b, term);
      FrontStays(whole, term);
      FrontStays(a, term);
      DifferAfter([a[0]], ReplaceAll(whole[1..], term), ReplaceAll(a[1..], term), ReplaceAll(b, term));
    }
  }

  lemma {:induction false} DifferAfter(x: string, w: string, y: string, z: string)
    requires w != y + z
    ensures x + w != (x + y) + z
  {
    assert (x + w)[|x|..] == w && ((x + y) + z)[|x|..] == y + z;
  }

  /** Redacting two chunks one by one is redacting their concatenation iff no occurrence that is replaced is cut by
      the border, for every term that does not begin with the marker. */
  lemma {:induction false} ChunksRedactAlikeExactly(a: string, b: string, term: string)
    requires term != "" && !StartsWith(term, REDACTED)
    ensures ReplaceAll(a + b, term) == ReplaceAll(a, term) + ReplaceAll(b, term) <==> !Cut(a, b, term)
  {
    if Cut(a, b, term) {
      CutDiffers(a, b, term);
    } else {
      UncutSplits(a, b, term);
    }
  }

  /** The exception: a term that begins with the marker may be cut unnoticed. */
  lemma {:induction false} MarkerHidesCut()
    ensures var term, a, b := REDACTED + REDACTED, REDACTED, REDACTED + REDACTED;
      Cut(a, b, term) && ReplaceAll(a + b, term) == ReplaceAll(a, term) + ReplaceAll(b, term)
  {
    var m, term := REDACTED, REDACTED + REDACTED;
    var whole := m + (m + m);
    assert whole[..|term|] == term && whole[|term|..] == m;
    assert term[|term|..] == "";
    ShortStays(m, term);
    ShortStays("", term);
    assert ReplaceAll(whole, term) == m + m;
    assert ReplaceAll(term, term) == m + "" == m;
  }

  /** All the text a stream carries. */
  function RawText(input: seq<Input>): string {
    if input == [] then ""
    else RawText(input[..|input| - 1]) + match input[|input| - 1] case Ev(Delta(t)) => t case _ => ""
  }

  function ChunkText(x: Input): string { match x case Ev(Delta(t)) => t case _ => "" }

  /** The border before input n cuts no replaced occurrence of any term, each term meeting the text the terms before
      it left. */
  ghost predicate BorderHolds(terms: seq<string>, a: string, b: string) {
    forall j :: 0 <= j < |terms| && terms[j] != "" ==> !Cut(Redacted(a, terms[..j]), Redacted(b, terms[..j]), terms[j])
  }

  lemma {:induction false} UncutBorderRedacts(terms: seq<string>, a: string, b: string)
    requires BorderHolds(terms, a, b)
    ensures Redacted(a + b, terms) == Redacted(a, terms) + Redacted(b, terms)
  {
    if terms != [] {
      var n := |terms| - 1;
      var init := terms[..n];
      assert BorderHolds(init, a, b) by {
        assert forall j :: 0 <= j < n ==> init[..j] == terms[..j] && init[j] == terms[j];
      }
      UncutBorderRedacts(init, a, b);
      if terms[n] != "" {
        UncutSplits(Redacted(a, init), Redacted(b, init), terms[n]);
      }
    }
  }

  /** What goes out is the text so far, redacted as a whole, when no border cuts an occurrence that is replaced. */
  lemma {:induction false} UncutStreamRedactsWhole(input: seq<Input>, terms: seq<string>)
    requires forall n :: 0 <= n < |input| ==> BorderHolds(terms, RawText(input[..n]), ChunkText(input[n]))
    ensures RedactedInput(input, terms) == Redacted(RawText(input), terms)
  {
    if input == [] {
      RedactedEmpty(terms);
    } else {
      var n := |input| - 1;
      var init := input[..n];
      forall i | 0 <= i < n ensures BorderHolds(terms, RawText(init[..i]), ChunkText(init[i])) {
        assert init[..i] == input[..i] && BorderHolds(terms, RawText(input[..i]), ChunkText(input[i]));
      }
      UncutStreamRedactsWhole(init, terms);
      UncutBorderRedacts(terms, RawText(init), ChunkText(input[n]));
      RedactedEmpty(terms);
    }
  }

  /** For one term, at every moment: what went out is the text so far, redacted as a whole, iff no border cuts a
      replaced occurrence. */
  lemma {:induction false} StreamRedactsWholeExactly(input: seq<Input>, term: string)
    requires term != "" && !StartsWith(term, REDACTED)
    ensures (forall n :: 0 <= n <= |input| ==> SentWhole(input, term, n)) <==>
      forall n :: 0 <= n < |input| ==> !CutAt(input, term, n)
  {
    assert SentWhole(input, term, 0) by {
      assert input[..0] == [];
      RedactedEmpty([term]);
    }
    forall n | 0 <= n < |input| && SentWhole(input, term, n)
      ensures SentWhole(input, term, n + 1) <==> !CutAt(input, term, n)
    {
      OneMoreRedacts(input, term, n);
    }
    if forall n :: 0 <= n < |input| ==> !CutAt(input, term, n) {
      for n := 0 to |input|
        invariant forall i :: 0 <= i <= n ==> SentWhole(input, term, i)
      {
        assert !CutAt(input, term, n);
      }
    } else {
      var n :| 0 <= n < |input| && CutAt(input, term, n);
      assert SentWhole(input, term, n) ==> !SentWhole(input, term, n + 1);
    }
  }

  ghost predicate SentWhole(input: seq<Input>, term: string, n: nat)
    requires n <= |input|
  {
    RedactedInput(input[..n], [term]) == Redacted(RawText(input[..n]), [term])
  }

  predicate CutAt(input: seq<Input>, term: string, n: nat)
    requires n < |input| && term != ""
  {
    Cut(RawText(input[..n]), ChunkText(input[n]), term)
  }

  lemma {:induction false} OneTerm(s: string, term: string)
    requires term != ""
    ensures Redacted(s, [term]) == ReplaceAll(s, term)
  {
    assert [term][..0] == [];
  }

  lemma {:induction false} OneMoreRedacts(input: seq<Input>, term: string, n: nat)
    requires n < |input| && term != "" && !StartsWith(term, REDACTED) && SentWhole(input, term, n)
    ensures SentWhole(input, term, n + 1) <==> !CutAt(input, term, n)
  {
    var a, b := RawText(input[..n]), ChunkText(input[n]);
    assert input[..n + 1][..n] == input[..n];
    OneTerm(a, term);
    OneTerm(b, term);
    OneTerm(a + b, term);
    RedactedEmpty([term]);
    assert RawText(input[..n + 1]) == a + b;
    assert RedactedInput(input[..n + 1], [term]) == RedactedInput(input[..n], [term]) + Redacted(b, [term]);
    ChunksRedactAlikeExactly(a, b, term);
  }

  /** The plainest such stream: a term sent in two parts goes out as it is. */
  lemma {:induction false} SplitTermGoesOut(x: string, y: string)
    requires x != "" && y != "" && !StartsWith(x + y, REDACTED)
    ensures var input, term := [Ev(Delta(x)), Ev(Delta(y))], x + y;
      RedactedInput(input, [term]) == term && Redacted(RawText(input), [term]) == REDACTED
  {
    var input, term := [Ev(Delta(x)), Ev(Delta(y))], x + y;
    assert input[..1] == [Ev(Delta(x))] && input[..1][..0] == [];
    OneTerm(x, term);
    OneTerm(y, term);
    OneTerm(term, term);
    ShortStays(x, term);
    ShortStays(y, term);
    assert RawText(input[..1]) == x && RawText(input) == term;
    assert RedactedInput(input[..1], [term]) == x;
    assert term[..|term|] == term && term[|term|..] == "";
    assert ReplaceAll(term, term) == REDACTED + ReplaceAll("", term);
  }
}
