/**
 The event stream of the Responses surface: internal/handler/responses.go. The handler inserts the frames that open
 and close a message item around the text it forwards.
 */
module ResponsesSse {
  import opened Options

  datatype ToolCall = ToolCall(id: string, name: string, args: string)
  datatype Output = Output(id: string, kind: string, status: string, callId: string, name: string, args: string)
  datatype Event = Event(kind: string, delta: string, textDelta: string, calls: seq<ToolCall>,
                         output: Option<Output>, response: Option<string>)

  const CONTENT_DELTA := "content_delta"
  const RESPONSE_STARTED := "response_started"
  const RESPONSE_COMPLETED := "response_completed"
  const TOOL_CALL_DONE := "tool_call_done"
  const THINKING_DELTA := "thinking_delta"

  const DELTA := "response.output_text.delta"
  const COMPLETED := "response.completed"
  const CREATED := "response.created"
  const ITEM_DONE := "response.output_item.done"

  const FUNCTION_CALL := "function_call"

  /** The kinds that only the handler's own frames should carry. */
  const BRACKETS: set<string> := {"response.output_item.added", "response.content_part.added",
                                  "response.output_text.done", "response.content_part.done"}

  /** The event ends an output item other than a complete function call, such as a message. Providers report the
      end of any upstream item as TOOL_CALL_DONE. */
  predicate EndsItem(e: Event) {
    (e.kind == ITEM_DONE || e.kind == TOOL_CALL_DONE) && !(e.output.Some? && e.output.value.kind == FUNCTION_CALL)
  }

  /** The event, sent on, looks to a client like one of the handler's own bracketing frames. */
  predicate Foreign(e: Event) { e.kind in BRACKETS || EndsItem(e) }

  /** What is written to the client: the handler's own frames, and events sent on. */
  datatype Frame =
    | ItemAdded(id: string)
    | PartAdded
    | TextDone
    | PartDone(text: string)
    | ItemDone(id: string, text: string)
    | Sent(event: Event)

  // ---- Normalisation ----

  function TextOf(e: Event): string { if e.textDelta != "" then e.textDelta else e.delta }

  function CallEvent(call: ToolCall): Event {
    Event(ITEM_DONE, "", "", [], Some(Output(call.id, FUNCTION_CALL, "completed", call.id, call.name, call.args)), None)
  }

  function CallEvents(calls: seq<ToolCall>): (es: seq<Event>)
    ensures |es| == |calls| && forall i :: 0 <= i < |calls| ==> es[i] == CallEvent(calls[i])
  {
    seq(|calls|, i requires 0 <= i < |calls| => CallEvent(calls[i]))
  }

  function TextEvents(e: Event): seq<Event> {
    if TextOf(e) != "" then [e.(kind := DELTA, delta := TextOf(e), textDelta := "", calls := [])] else []
  }

  function Normalized(e: Event): seq<Event> {
    if e.kind == CONTENT_DELTA then
      TextEvents(e) + CallEvents(e.calls)
    else if e.kind == RESPONSE_STARTED then [e.(kind := CREATED)]
    else if e.kind == RESPONSE_COMPLETED then [e.(kind := COMPLETED)]
    else if e.kind == TOOL_CALL_DONE then [e.(kind := ITEM_DONE)]
    else if e.kind == THINKING_DELTA then []
    else [e]
  }

  method NormalizeEvent(e: Event) returns (normalized: seq<Event>)
    ensures normalized == Normalized(e)
  {
    if e.kind == CONTENT_DELTA {
      normalized := [];
      if TextOf(e) != "" {
        normalized := normalized + [e.(kind := DELTA, delta := TextOf(e), textDelta := "", calls := [])];
      }
      for i := 0 to |e.calls|
        invariant normalized == TextEvents(e) + CallEvents(e.calls[..i])
      {
        assert CallEvents(e.calls[..i + 1]) == CallEvents(e.calls[..i]) + [CallEvent(e.calls[i])];
        normalized := normalized + [CallEvent(e.calls[i])];
      }
    } else if e.kind == RESPONSE_STARTED {
      normalized := [e.(kind := CREATED)];
    } else if e.kind == RESPONSE_COMPLETED {
      normalized := [e.(kind := COMPLETED)];
    } else if e.kind == TOOL_CALL_DONE {
      normalized := [e.(kind := ITEM_DONE)];
    } else if e.kind == THINKING_DELTA {
      normalized := [];
    } else {
      normalized := [e];
    }
  }

  function NormalizedAll(events: seq<Event>): seq<Event> {
    if events == [] then [] else Normalized(events[0]) + NormalizedAll(events[1..])
  }

  // ---- Rendering ----

  function Closing(id: string, text: string): seq<Frame> { [TextDone, PartDone(text), ItemDone(id, text)] }

  /** The frames of normalised events, from a point where an item is open or not and this text has gone out. */
  function Render(id: string, open: bool, text: string, es: seq<Event>): seq<Frame>
    decreases |es|
  {
    if es == [] then if open then Closing(id, text) else []
    else
      var e, rest := es[0], es[1..];
      if e.kind == DELTA then
        (if open then [] else [ItemAdded(id), PartAdded]) + [Sent(e)] + Render(id, true, text + e.delta, rest)
      else if e.kind == COMPLETED then
        (if open then Closing(id, text) else []) + [Sent(e)] + Render(id, false, text, rest)
      else [Sent(e)] + Render(id, open, text, rest)
  }

  /** What goes out for one event before the rest. */
  function Step(id: string, open: bool, text: string, e: Event): seq<Frame> {
    if e.kind == DELTA then (if open then [] else [ItemAdded(id), PartAdded]) + [Sent(e)]
    else if e.kind == COMPLETED then (if open then Closing(id, text) else []) + [Sent(e)]
    else [Sent(e)]
  }

  function OpenAfter(open: bool, e: Event): bool { e.kind == DELTA || (open && e.kind != COMPLETED) }
  function TextAfter(text: string, e: Event): string { if e.kind == DELTA then text + e.delta else text }

  lemma {:induction false} RenderStep(id: string, open: bool, text: string, es: seq<Event>)
    requires es != []
    ensures Render(id, open, text, es)
         == Step(id, open, text, es[0]) + Render(id, OpenAfter(open, es[0]), TextAfter(text, es[0]), es[1..])
  {
  }

  /** The frames of one normalised event, and the handler's two variables after it. */
  method WriteEvent(id: string, outputItemAdded: bool, accumulatedText: string, e: Event)
    returns (out: seq<Frame>, added: bool, text: string)
    ensures out == Step(id, outputItemAdded, accumulatedText, e)
    ensures added == OpenAfter(outputItemAdded, e) && text == TextAfter(accumulatedText, e)
  {
    out, added, text := [], outputItemAdded, accumulatedText;
    if e.kind == DELTA && !added {
      out := out + [ItemAdded(id), PartAdded];
      added := true;
    }
    if e.kind == DELTA {
      text := text + e.delta;
    }
    if e.kind == COMPLETED && added {
      out := out + Closing(id, text);
      added := false;
    }
    out := out + [Sent(e)];
  }

  lemma {:induction false} Reassociate(a: seq<Frame>, b: seq<Frame>, c: seq<Frame>)
    ensures a + (b + c) == (a + b) + c
  {
  }

  /** The inner loop: the frames of all events one provider event normalises to. */
  method WriteEvents(id: string, outputItemAdded: bool, accumulatedText: string, es: seq<Event>,
                     ghost later: seq<Event>)
    returns (out: seq<Frame>, added: bool, text: string)
    ensures out + Render(id, added, text, later) == Render(id, outputItemAdded, accumulatedText, es + later)
  {
    out, added, text := [], outputItemAdded, accumulatedText;
    ghost var whole := Render(id, outputItemAdded, accumulatedText, es + later);
    assert es[0..] == es;
    for j := 0 to |es|
      invariant out + Render(id, added, text, es[j..] + later) == whole
    {
      ghost var rest := es[j..] + later;
      RenderStep(id, added, text, rest);
      assert rest[1..] == es[j + 1..] + later;
      var frames: seq<Frame>;
      frames, added, text := WriteEvent(id, added, text, es[j]);
      Reassociate(out, frames, Render(id, added, text, rest[1..]));
      out := out + frames;
    }
    assert es[|es|..] + later == later;
  }

  method StreamResponses(id: string, events: seq<Event>) returns (out: seq<Frame>)
    ensures out == Render(id, false, "", NormalizedAll(events))
    ensures BecomeAll(events, SentEvents(out)) && OutputsSent(SentEvents(out)) == OutputsProvided(events)
  {
    var outputItemAdded, accumulatedText := false, "";
    out := [];
    ghost var whole := Render(id, false, "", NormalizedAll(events));
    assert events[0..] == events;
    for i := 0 to |events|
      invariant out + Render(id, outputItemAdded, accumulatedText, NormalizedAll(events[i..])) == whole
    {
      var normalized := NormalizeEvent(events[i]);
      ghost var later := NormalizedAll(events[i + 1..]);
      assert events[i..][1..] == events[i + 1..];
      assert normalized + later == NormalizedAll(events[i..]);
      var frames: seq<Frame>;
      frames, outputItemAdded, accumulatedText := WriteEvents(id, outputItemAdded, accumulatedText, normalized, later);
      Reassociate(out, frames, Render(id, outputItemAdded, accumulatedText, later));
      out := out + frames;
    }
    if outputItemAdded {
      out := out + Closing(id, accumulatedText);
    }
    OutputSendsAll(id, events, out);
    ToolCallsAllSent(id, events, out);
  }

  // ---- What a client may rely on ----

  /** Where a client stands: outside an item, just after either opening frame, inside, at either of the first two
      closing frames, or right after an item closed. */
  datatype Phase = Outside | Added | Primed | Inside | TextOver | PartOver | Closed | Broken
  datatype Reader = Reader(phase: Phase, text: string)

  const BROKEN: Reader := Reader(Broken, "")

  /** The bracketing rules. `text` is everything the deltas carried so far; both closing frames must repeat it. An
      item opens only for a delta and closes only for the end of the response. */
  function Read(id: string, r: Reader, f: Frame): Reader {
    match f
    case ItemAdded(i) => if r.phase == Outside && i == id then r.(phase := Added) else BROKEN
    case PartAdded => if r.phase == Added then r.(phase := Primed) else BROKEN
    case TextDone => if r.phase == Inside then r.(phase := TextOver) else BROKEN
    case PartDone(t) => if r.phase == TextOver && t == r.text then r.(phase := PartOver) else BROKEN
    case ItemDone(i, t) => if r.phase == PartOver && i == id && t == r.text then r.(phase := Closed) else BROKEN
    case Sent(e) =>
      if e.kind == DELTA then
        if r.phase == Primed || r.phase == Inside then Reader(Inside, r.text + e.delta) else BROKEN
      else if e.kind == COMPLETED then
        if r.phase == Outside || r.phase == Closed then r.(phase := Outside) else BROKEN
      else if (r.phase == Outside || r.phase == Inside) && !Foreign(e) then r
      else BROKEN
  }

  function ReadAll(id: string, r: Reader, fs: seq<Frame>): Reader
    decreases |fs|
  {
    if fs == [] then r else ReadAll(id, Read(id, r, fs[0]), fs[1..])
  }

  predicate AcceptedFrom(id: string, r: Reader, fs: seq<Frame>) {
    ReadAll(id, r, fs).phase == Outside || ReadAll(id, r, fs).phase == Closed
  }

  predicate WellBracketed(id: string, fs: seq<Frame>) { AcceptedFrom(id, Reader(Outside, ""), fs) }

  /** The events a stream sends on. */
  function SentEvents(fs: seq<Frame>): seq<Event> {
    if fs == [] then []
    else (if fs[0].Sent? then [fs[0].event] else []) + SentEvents(fs[1..])
  }

  ghost predicate Clean(es: seq<Event>) { forall i :: 0 <= i < |es| ==> !Foreign(es[i]) }

  function At(open: bool, text: string): Reader { Reader(if open then Inside else Outside, text) }

  lemma {:induction false} BrokenStaysBroken(id: string, r: Reader, fs: seq<Frame>)
    requires r.phase == Broken
    ensures ReadAll(id, r, fs).phase == Broken
    decreases |fs|
  {
    if fs != [] {
      BrokenStaysBroken(id, Read(id, r, fs[0]), fs[1..]);
    }
  }

  lemma {:induction false} ReadAppend(id: string, r: Reader, a: seq<Frame>, b: seq<Frame>)
    ensures ReadAll(id, r, a + b) == ReadAll(id, ReadAll(id, r, a), b)
    decreases |a|
  {
    if a == [] {
      assert a + b == b;
    } else {
      assert (a + b)[1..] == a[1..] + b;
      ReadAppend(id, Read(id, r, a[0]), a[1..], b);
    }
  }

  lemma {:induction false} ReadClosing(id: string, text: string)
    ensures ReadAll(id, At(true, text), Closing(id, text)) == Reader(Closed, text)
  {
    var c := Closing(id, text);
    assert c[1..] == [PartDone(text), ItemDone(id, text)] && c[1..][1..] == [ItemDone(id, text)] &&
      c[1..][1..][1..] == [];
    assert ReadAll(id, Reader(PartOver, text), c[1..][1..]) == Reader(Closed, text);
    assert ReadAll(id, Reader(TextOver, text), c[1..]) == Reader(Closed, text);
  }

  lemma {:induction false} ReadOne(id: string, r: Reader, f: Frame)
    ensures ReadAll(id, r, [f]) == Read(id, r, f)
  {
    assert [f][1..] == [];
  }

  lemma {:induction false} ReadOpening(id: string, text: string)
    ensures ReadAll(id, At(false, text), [ItemAdded(id), PartAdded]) == Reader(Primed, text)
  {
    assert [ItemAdded(id), PartAdded][1..] == [PartAdded];
    ReadOne(id, Reader(Added, text), PartAdded);
  }

  lemma {:induction false} ReadStep(id: string, open: bool, text: string, e: Event)
    ensures ReadAll(id, At(open, text), Step(id, open, text, e))
         == if Foreign(e) then BROKEN else At(OpenAfter(open, e), TextAfter(text, e))
  {
    var pre := if e.kind == DELTA && !open then [ItemAdded(id), PartAdded]
               else if e.kind == COMPLETED && open then Closing(id, text) else [];
    ReadAppend(id, At(open, text), pre, [Sent(e)]);
    assert pre + [Sent(e)] == Step(id, open, text, e);
    ReadOpening(id, text);
    ReadClosing(id, text);
    ReadOne(id, ReadAll(id, At(open, text), pre), Sent(e));
  }

  /** The rendering of any events is well bracketed iff none of them looks like a bracketing frame itself. */
  lemma {:induction false} RenderAccepted(id: string, open: bool, text: string, es: seq<Event>)
    ensures AcceptedFrom(id, At(open, text), Render(id, open, text, es)) <==> Clean(es)
    decreases |es|
  {
    if es == [] {
      ReadClosing(id, text);
    } else {
      var e, rest := es[0], es[1..];
      var head, tail := Step(id, open, text, e), Render(id, OpenAfter(open, e), TextAfter(text, e), rest);
      assert Render(id, open, text, es) == head + tail;
      ReadAppend(id, At(open, text), head, tail);
      ReadStep(id, open, text, e);
      if Foreign(e) {
        BrokenStaysBroken(id, BROKEN, tail);
      } else {
        RenderAccepted(id, OpenAfter(open, e), TextAfter(text, e), rest);
        assert Clean(es) <==> Clean(rest) by {
          assert forall i :: 0 <= i < |rest| ==> rest[i] == es[i + 1];
          assert forall i :: 1 <= i < |es| ==> es[i] == rest[i - 1];
        }
      }
    }
  }

  /** Rendering loses, adds and reorders nothing. */
  lemma {:induction false} RenderSendsAll(id: string, open: bool, text: string, es: seq<Event>)
    ensures SentEvents(Render(id, open, text, es)) == es
    decreases |es|
  {
    if es == [] {
      SentOfClosing(id, text, []);
      assert Closing(id, text) + [] == Closing(id, text);
    } else {
      var e, rest := es[0], es[1..];
      var tail := Render(id, OpenAfter(open, e), TextAfter(text, e), rest);
      RenderStep(id, open, text, es);
      RenderSendsAll(id, OpenAfter(open, e), TextAfter(text, e), rest);
      SentOfStep(id, open, text, e, tail);
      assert es == [e] + rest;
    }
  }

  lemma {:induction false} SentOfClosing(id: string, text: string, tail: seq<Frame>)
    ensures SentEvents(Closing(id, text) + tail) == SentEvents(tail)
  {
    var c := Closing(id, text) + tail;
    assert c[1..] == [PartDone(text), ItemDone(id, text)] + tail && c[1..][1..] == [ItemDone(id, text)] + tail;
    assert c[1..][1..][1..] == tail;
    assert SentEvents(c[1..][1..]) == [] + SentEvents(tail) == SentEvents(tail);
    assert SentEvents(c[1..]) == [] + SentEvents(c[1..][1..]);
    assert SentEvents(c) == [] + SentEvents(c[1..]);
  }

  lemma {:induction false} SentOfStep(id: string, open: bool, text: string, e: Event, tail: seq<Frame>)
    ensures SentEvents(Step(id, open, text, e) + tail) == [e] + SentEvents(tail)
  {
    var last := [Sent(e)] + tail;
    assert last[1..] == tail;
    assert SentEvents(last) == [e] + SentEvents(tail);
    if e.kind == DELTA && !open {
      var fs := [ItemAdded(id), PartAdded, Sent(e)] + tail;
      assert fs[1..] == [PartAdded] + last && fs[1..][1..] == last;
      assert Step(id, open, text, e) + tail == fs;
    } else if e.kind == COMPLETED && open {
      SentOfClosing(id, text, last);
      assert Step(id, open, text, e) + tail == Closing(id, text) + last;
    }
  }

  /** An accepted stream does not stop inside a bracket and its next frame keeps to the rules. */
  lemma {:induction false} NextFrame(id: string, r: Reader, fs: seq<Frame>)
    requires AcceptedFrom(id, r, fs)
    ensures fs == [] ==> r.phase == Outside || r.phase == Closed
    ensures fs != [] ==> Read(id, r, fs[0]).phase != Broken && AcceptedFrom(id, Read(id, r, fs[0]), fs[1..])
  {
    if fs != [] && Read(id, r, fs[0]).phase == Broken {
      BrokenStaysBroken(id, Read(id, r, fs[0]), fs[1..]);
    }
  }

  /** The rules leave no choice: a stream a client accepts is the rendering of the events it sends on. */
  lemma {:induction false} AcceptedIsRendered(id: string, open: bool, text: string, fs: seq<Frame>)
    requires AcceptedFrom(id, At(open, text), fs)
    ensures fs == Render(id, open, text, SentEvents(fs))
    decreases |fs|, 1
  {
    NextFrame(id, At(open, text), fs);
    if fs != [] {
      if fs[0].Sent? {
        SentIsRendered(id, open, text, fs);
      } else if !open {
        OpeningIsRendered(id, text, fs);
      } else {
        ClosingIsRendered(id, text, fs);
      }
    }
  }

  lemma {:induction false} SentIsRendered(id: string, open: bool, text: string, fs: seq<Frame>)
    requires fs != [] && fs[0].Sent? && AcceptedFrom(id, At(open, text), fs)
    ensures fs == Render(id, open, text, SentEvents(fs))
    decreases |fs|, 0
  {
    var e, es := fs[0].event, SentEvents(fs);
    NextFrame(id, At(open, text), fs);
    AcceptedIsRendered(id, OpenAfter(open, e), TextAfter(text, e), fs[1..]);
    assert es[0] == e && es[1..] == SentEvents(fs[1..]);
    RenderStep(id, open, text, es);
    SentStepIsOneFrame(id, open, text, e, fs);
  }

  /** An event that a client accepts as it is, is sent without frames around it. */
  lemma {:induction false} SentStepIsOneFrame(id: string, open: bool, text: string, e: Event, fs: seq<Frame>)
    requires fs != [] && fs[0] == Sent(e) && Read(id, At(open, text), fs[0]).phase != Broken
    ensures fs == Step(id, open, text, e) + fs[1..]
  {
    assert Step(id, open, text, e) == [Sent(e)];
  }

  lemma {:induction false} OpeningIsRendered(id: string, text: string, fs: seq<Frame>)
    requires fs != [] && !fs[0].Sent? && AcceptedFrom(id, At(false, text), fs)
    ensures fs == Render(id, false, text, SentEvents(fs))
    decreases |fs|, 0
  {
    NextFrame(id, At(false, text), fs);
    NextFrame(id, Reader(Added, text), fs[1..]);
    NextFrame(id, Reader(Primed, text), fs[1..][1..]);
    var tail := fs[1..][1..][1..];
    var e := fs[1..][1..][0].event;
    AcceptedIsRendered(id, true, text + e.delta, tail);
    assert fs == Step(id, false, text, e) + tail;
    SentOfStep(id, false, text, e, tail);
    var es := SentEvents(fs);
    assert es[1..] == SentEvents(tail);
    RenderStep(id, false, text, es);
  }

  lemma {:induction false} ClosingIsRendered(id: string, text: string, fs: seq<Frame>)
    requires fs != [] && !fs[0].Sent? && AcceptedFrom(id, At(true, text), fs)
    ensures fs == Render(id, true, text, SentEvents(fs))
    decreases |fs|, 0
  {
    NextFrame(id, At(true, text), fs);
    NextFrame(id, Reader(TextOver, text), fs[1..]);
    NextFrame(id, Reader(PartOver, text), fs[1..][1..]);
    var last := fs[1..][1..][1..];
    assert fs == Closing(id, text) + last;
    SentOfClosing(id, text, last);
    NextFrame(id, Reader(Closed, text), last);
    if last != [] {
      var e, tail := last[0].event, last[1..];
      AcceptedIsRendered(id, false, text, tail);
      var es := SentEvents(fs);
      assert last == [Sent(e)] + tail && fs == Step(id, true, text, e) + tail;
      assert es[1..] == SentEvents(tail);
      RenderStep(id, true, text, es);
    }
  }

  // ---- From the provider's events ----

  lemma {:induction false} CleanThrough(events: seq<Event>)
    ensures Clean(NormalizedAll(events)) <==> Clean(events)
  {
    if events != [] {
      var e, rest := events[0], events[1..];
      var head, tail := Normalized(e), NormalizedAll(rest);
      CleanThrough(rest);
      CleanAppend([e], rest);
      assert events == [e] + rest;
      CleanHead(e);
      CleanAppend(head, tail);
    }
  }

  lemma {:induction false} CleanHead(e: Event)
    ensures Clean(Normalized(e)) <==> Clean([e])
  {
    if Foreign(e) {
      assert !Clean([e]) by { assert [e][0] == e; }
      assert Foreign(Normalized(e)[0]);
    } else {
      assert Clean([e]);
    }
  }

  lemma {:induction false} CleanAppend(a: seq<Event>, b: seq<Event>)
    ensures Clean(a + b) <==> Clean(a) && Clean(b)
  {
    assert forall i :: 0 <= i < |a| ==> (a + b)[i] == a[i];
    assert forall i :: 0 <= i < |b| ==> (a + b)[|a| + i] == b[i];
  }

  /** The text of the deltas among normalised events. */
  function DeltaText(es: seq<Event>): string {
    if es == [] then "" else (if es[0].kind == DELTA then es[0].delta else "") + DeltaText(es[1..])
  }

  /** The text the provider streamed. */
  function ProviderText(events: seq<Event>): string {
    if events == [] then ""
    else
      var e := events[0];
      (if e.kind == CONTENT_DELTA then TextOf(e) else if e.kind == DELTA then e.delta else "") +
        ProviderText(events[1..])
  }

  lemma {:induction false} DeltaTextAppend(a: seq<Event>, b: seq<Event>)
    ensures DeltaText(a + b) == DeltaText(a) + DeltaText(b)
  {
    if a == [] {
      assert a + b == b;
    } else {
      assert (a + b)[1..] == a[1..] + b;
      DeltaTextAppend(a[1..], b);
    }
  }

  lemma {:induction false} NoDeltas(es: seq<Event>)
    requires forall i :: 0 <= i < |es| ==> es[i].kind != DELTA
    ensures DeltaText(es) == ""
  {
    if es != [] {
      NoDeltas(es[1..]);
    }
  }

  /** Normalising one event keeps its text. */
  lemma {:induction false} NormalizedText(e: Event)
    ensures DeltaText(Normalized(e)) == if e.kind == CONTENT_DELTA then TextOf(e)
                                        else if e.kind == DELTA then e.delta else ""
  {
    if e.kind == CONTENT_DELTA {
      var calls := CallEvents(e.calls);
      NoDeltas(calls);
      DeltaTextAppend(TextEvents(e), calls);
      assert TextEvents(e) != [] ==> TextEvents(e)[1..] == [];
    } else {
      assert Normalized(e) != [] ==> Normalized(e)[1..] == [];
    }
  }

  /** What the deltas carry, and so what the last closing frames repeat, is what the provider streamed. */
  lemma {:induction false} StreamedTextIsProviderText(events: seq<Event>)
    ensures DeltaText(NormalizedAll(events)) == ProviderText(events)
  {
    if events != [] {
      NormalizedText(events[0]);
      DeltaTextAppend(Normalized(events[0]), NormalizedAll(events[1..]));
      StreamedTextIsProviderText(events[1..]);
    }
  }

  /** For every sequence of provider events the output is well bracketed, with each closing frame carrying all the
      text so far, exactly when no event carries one of the handler's own bracketing kinds or ends an output item
      that is not a function call; and the output is then the only well-bracketed stream that sends on those events. */
  lemma {:induction false} OutputWellBracketedExactly(id: string, events: seq<Event>, out: seq<Frame>)
    requires out == Render(id, false, "", NormalizedAll(events))
    ensures WellBracketed(id, out) <==> Clean(events)
    ensures SentEvents(out) == NormalizedAll(events)
    ensures forall other :: WellBracketed(id, other) && SentEvents(other) == NormalizedAll(events) ==> other == out
  {
    RenderAccepted(id, false, "", NormalizedAll(events));
    CleanThrough(events);
    RenderSendsAll(id, false, "", NormalizedAll(events));
    forall other | WellBracketed(id, other) && SentEvents(other) == NormalizedAll(events) ensures other == out {
      AcceptedIsRendered(id, false, "", other);
    }
  }

  /** Upstream message items do end: the handler sends that end on inside its own open item, which it then closes a
      second time, whatever text was streamed. */
  lemma {:induction false} UpstreamMessageClosesTwice(id: string, delta: Event, done: Event, completed: Event)
    requires delta.kind == CONTENT_DELTA && TextOf(delta) != "" && delta.calls == []
    requires done.kind == TOOL_CALL_DONE && done.output.Some? && done.output.value.kind == "message"
    requires completed.kind == RESPONSE_COMPLETED
    ensures var text, out := TextOf(delta), Render(id, false, "", NormalizedAll([delta, done, completed]));
      && out == [ItemAdded(id), PartAdded, Sent(TextEvents(delta)[0]), Sent(done.(kind := ITEM_DONE)),
                 TextDone, PartDone(text), ItemDone(id, text), Sent(completed.(kind := COMPLETED))]
      && !WellBracketed(id, out)
  {
    var events, text := [delta, done, completed], TextOf(delta);
    var d, i, c := TextEvents(delta)[0], done.(kind := ITEM_DONE), completed.(kind := COMPLETED);
    assert events[1..] == [done, completed] && events[1..][1..] == [completed] && events[1..][1..][1..] == [];
    assert Normalized(delta) == [d];
    assert NormalizedAll([completed]) == [c];
    assert NormalizedAll([done, completed]) == [i] + [c];
    var es := [d, i, c];
    assert NormalizedAll(events) == [d] + ([i] + [c]) == es;
    assert es[1..] == [i, c] && es[1..][1..] == [c] && es[1..][1..][1..] == [];
    assert Render(id, false, text, []) == [];
    assert Render(id, true, text, [c]) == Closing(id, text) + [Sent(c)] + [];
    assert Render(id, true, text, [i, c]) == [Sent(i)] + (Closing(id, text) + [Sent(c)]);
    assert "" + text == text;
    OutputWellBracketedExactly(id, events, Render(id, false, "", NormalizedAll(events)));
    assert Foreign(events[1]);
  }

  // ---- What is sent on for each provider event ----

  /** The end of a function call, complete, with the call's id, name and arguments. */
  ghost predicate CarriesCall(sent: Event, call: ToolCall) {
    && sent.kind == "response.output_item.done" && sent.delta == "" && sent.textDelta == "" && sent.calls == []
    && sent.response == None && sent.output.Some?
    && var o := sent.output.value;
       && o.kind == "function_call" && o.status == "completed"
       && o.id == call.id && o.callId == call.id && o.name == call.name && o.args == call.args
  }

  /** What a client is sent for one provider event: the text of a content delta, if any, and then its tool calls one by
      one; a start, a completion or a finished item under its own name; nothing for thinking; anything else as it is. */
  ghost predicate Becomes(e: Event, sent: seq<Event>) {
    if e.kind == "content_delta" then
      var text := if e.textDelta != "" then e.textDelta else e.delta;
      var n := if text != "" then 1 else 0;
      && |sent| == n + |e.calls|
      && (n == 1 ==> sent[0] == e.(kind := "response.output_text.delta", delta := text, textDelta := "", calls := []))
      && forall i :: 0 <= i < |e.calls| ==> CarriesCall(sent[n + i], e.calls[i])
    else if e.kind == "response_started" then sent == [e.(kind := "response.created")]
    else if e.kind == "response_completed" then sent == [e.(kind := "response.completed")]
    else if e.kind == "tool_call_done" then sent == [e.(kind := "response.output_item.done")]
    else if e.kind == "thinking_delta" then sent == []
    else sent == [e]
  }

  function Flat(parts: seq<seq<Event>>): seq<Event> { if parts == [] then [] else parts[0] + Flat(parts[1..]) }

  ghost predicate BecomeParts(events: seq<Event>, parts: seq<seq<Event>>) {
    |parts| == |events| && forall i :: 0 <= i < |events| ==> Becomes(events[i], parts[i])
  }

  /** The stream sends on just that, event after event. */
  ghost predicate BecomeAll(events: seq<Event>, sent: seq<Event>) {
    exists parts :: BecomeParts(events, parts) && Flat(parts) == sent
  }

  lemma {:induction false} NormalizedBecomes(e: Event)
    ensures Becomes(e, Normalized(e))
  {
    if e.kind == CONTENT_DELTA {
      var n := |TextEvents(e)|;
      forall i | 0 <= i < |e.calls| ensures CarriesCall(Normalized(e)[n + i], e.calls[i]) {
        assert Normalized(e)[n + i] == CallEvent(e.calls[i]);
      }
    }
  }

  lemma {:induction false} NormalizedParts(events: seq<Event>) returns (parts: seq<seq<Event>>)
    ensures BecomeParts(events, parts) && Flat(parts) == NormalizedAll(events)
  {
    parts := [];
    if events != [] {
      var rest := NormalizedParts(events[1..]);
      NormalizedBecomes(events[0]);
      parts := [Normalized(events[0])] + rest;
      assert parts[1..] == rest;
      assert forall i :: 1 <= i < |events| ==> events[i] == events[1..][i - 1] && parts[i] == rest[i - 1];
    }
  }

  /** Between the handler's own frames, the output sends on what each provider event becomes, in order. */
  lemma {:induction false} OutputSendsAll(id: string, events: seq<Event>, out: seq<Frame>)
    requires out == Render(id, false, "", NormalizedAll(events))
    ensures BecomeAll(events, SentEvents(out))
  {
    RenderSendsAll(id, false, "", NormalizedAll(events));
    var parts := NormalizedParts(events);
  }

  // ---- Tool calls ----

  function OutputOf(e: Event): seq<Output> {
    if e.kind == "response.output_item.done" && e.output.Some? && e.output.value.kind == "function_call"
    then [e.output.value] else []
  }

  /** The function calls a client receives. */
  function OutputsSent(es: seq<Event>): seq<Output> {
    if es == [] then [] else OutputOf(es[0]) + OutputsSent(es[1..])
  }

  function CallOutputs(calls: seq<ToolCall>): seq<Output> {
    seq(|calls|, i requires 0 <= i < |calls| =>
      Output(id := calls[i].id, kind := "function_call", status := "completed", callId := calls[i].id,
             name := calls[i].name, args := calls[i].args))
  }

  /** The function calls of one provider event: those in a content delta, or the one it ends. */
  function OutputsGiven(e: Event): seq<Output> {
    if e.kind == "content_delta" then CallOutputs(e.calls)
    else if (e.kind == "tool_call_done" || e.kind == "response.output_item.done") && e.output.Some?
         && e.output.value.kind == "function_call" then [e.output.value]
    else []
  }

  function OutputsProvided(events: seq<Event>): seq<Output> {
    if events == [] then [] else OutputsGiven(events[0]) + OutputsProvided(events[1..])
  }

  lemma {:induction false} OutputsAppend(a: seq<Event>, b: seq<Event>)
    ensures OutputsSent(a + b) == OutputsSent(a) + OutputsSent(b)
  {
    if a == [] {
      assert a + b == b;
    } else {
      assert (a + b)[1..] == a[1..] + b;
      OutputsAppend(a[1..], b);
    }
  }

  lemma {:induction false} CallsAreSent(calls: seq<ToolCall>)
    ensures OutputsSent(CallEvents(calls)) == CallOutputs(calls)
  {
    var sent := CallEvents(calls);
    if calls != [] {
      CallsAreSent(calls[1..]);
      assert sent[1..] == CallEvents(calls[1..]);
      assert CallOutputs(calls) == [CallOutputs(calls)[0]] + CallOutputs(calls[1..]);
      assert OutputOf(sent[0]) == [CallOutputs(calls)[0]];
    }
  }

  lemma {:induction false} OneEventSendsOutputs(e: Event)
    ensures OutputsSent(Normalized(e)) == OutputsGiven(e)
  {
    if e.kind == CONTENT_DELTA {
      var calls := CallEvents(e.calls);
      CallsAreSent(e.calls);
      OutputsAppend(TextEvents(e), calls);
      if TextOf(e) != "" {
        OneOutput(TextEvents(e)[0]);
        assert OutputsSent(TextEvents(e)) == OutputOf(TextEvents(e)[0]) == [];
      }
      assert OutputsSent(TextEvents(e)) == [] && Normalized(e) == TextEvents(e) + calls;
      assert [] + CallOutputs(e.calls) == CallOutputs(e.calls);
    } else if e.kind != THINKING_DELTA {
      OneOutput(Normalized(e)[0]);
    }
  }

  lemma {:induction false} OneOutput(e: Event)
    ensures OutputsSent([e]) == OutputOf(e)
  {
    assert [e][1..] == [];
  }

  lemma {:induction false} AllOutputsNormalized(events: seq<Event>)
    ensures OutputsSent(NormalizedAll(events)) == OutputsProvided(events)
  {
    if events != [] {
      OneEventSendsOutputs(events[0]);
      OutputsAppend(Normalized(events[0]), NormalizedAll(events[1..]));
      AllOutputsNormalized(events[1..]);
    }
  }

  /** A client receives exactly the function calls the provider made, each once, complete and in order. */
  lemma {:induction false} ToolCallsAllSent(id: string, events: seq<Event>, out: seq<Frame>)
    requires out == Render(id, false, "", NormalizedAll(events))
    ensures OutputsSent(SentEvents(out)) == OutputsProvided(events)
  {
    RenderSendsAll(id, false, "", NormalizedAll(events));
    AllOutputsNormalized(events);
  }
}
