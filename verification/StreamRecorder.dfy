/** A traced provider stream: chunks pass through unchanged, the span is closed exactly once. */
module StreamRecorder {
  import opened Prelude

  // ---------------------------------------------------------------- reading one chunk

  datatype DeltaKind = Content | Reasoning | Neither

  /** A streamed chunk, as far as the two readers look into it; `None` is an attribute that is absent
      or empty. */
  datatype Chunk =
    | OpenAiChunk(content: Option<string>, reasoningContent: Option<string>, reasoning: Option<string>)
    | AnthropicChunk(eventType: string, deltaType: string, text: string, thinking: string)
    | OtherChunk

  predicate NonEmpty(o: Option<string>) { o.Some? && o.value != "" }

  /** `openai_delta`: the answer wins over reasoning, under either of reasoning's two names. */
  function OpenAiDelta(c: Chunk): (r: (DeltaKind, string))
    ensures r.0 == Content <==> c.OpenAiChunk? && NonEmpty(c.content)
    ensures r.0 == Content ==> Some(r.1) == c.content
    ensures r.0 == Reasoning ==> c.OpenAiChunk?
    ensures r.0 == Reasoning ==> Some(r.1) == c.reasoningContent || (!NonEmpty(c.reasoningContent) && Some(r.1) == c.reasoning)
    ensures r.0 == Neither ==> c.OpenAiChunk? ==> !NonEmpty(c.reasoningContent) && !NonEmpty(c.reasoning)
    ensures r.0 != Neither <==> r.1 != ""
  {
    if !c.OpenAiChunk? then (Neither, "")
    else if NonEmpty(c.content) then (Content, c.content.value)
    else if NonEmpty(c.reasoningContent) then (Reasoning, c.reasoningContent.value)
    else if NonEmpty(c.reasoning) then (Reasoning, c.reasoning.value)
    else (Neither, "")
  }

  /** `anthropic_delta`: only content-block deltas carry text. */
  function AnthropicDelta(c: Chunk): (r: (DeltaKind, string))
    ensures r.0 != Neither ==> c.AnthropicChunk? && c.eventType == "content_block_delta"
    ensures r.0 == Content ==> c.deltaType == "text_delta" && r.1 == c.text
    ensures r.0 == Reasoning ==> c.deltaType == "thinking_delta" && r.1 == c.thinking
    ensures r.0 == Neither ==> r.1 == ""
    ensures r.0 == Neither ==> c.AnthropicChunk? && c.eventType == "content_block_delta" ==> c.deltaType !in {"text_delta", "thinking_delta"}
  {
    if !c.AnthropicChunk? || c.eventType != "content_block_delta" then (Neither, "")
    else if c.deltaType == "text_delta" then (Content, c.text)
    else if c.deltaType == "thinking_delta" then (Reasoning, c.thinking)
    else (Neither, "")
  }

  // ---------------------------------------------------------------- the event history

  datatype Failure = Failure(name: string)

  /** What the caller does with the stream, and what the provider answers to `next`. */
  datatype Event =
    | Chunked(chunk: Chunk)
    | Exhausted
    | Broke(error: Failure)
    | Closed
    | Exited
    | Dropped

  predicate Terminal(e: Event) { !e.Chunked? }

  /** How the span context is left: normally, or with the provider's exception. */
  datatype Close = Normal | With(error: Failure)

  function CloseOf(e: Event): Close
    requires Terminal(e)
  {
    if e.Broke? then With(e.error) else Normal
  }

  datatype Recorded = Recorded(content: string, reasoning: Option<string>)

  type Reader = Chunk -> (DeltaKind, string)

  /** The texts of one kind among the chunks of a history, in order. */
  function Texts(es: seq<Event>, read: Reader, kind: DeltaKind): seq<string> {
    if es == [] then []
    else
      var before, last := Texts(es[..|es| - 1], read, kind), es[|es| - 1];
      if last.Chunked? && read(last.chunk).0 == kind then before + [read(last.chunk).1] else before
  }

  /** `"".join(parts)`. */
  function Flatten(parts: seq<string>): string {
    if parts == [] then "" else Flatten(parts[..|parts| - 1]) + parts[|parts| - 1]
  }

  /** The position of the first terminal event, or the length. */
  function FirstEnd(es: seq<Event>): (i: nat)
    ensures i <= |es|
    ensures i < |es| ==> Terminal(es[i])
    ensures forall j :: 0 <= j < i ==> !Terminal(es[j])
  {
    if es == [] || Terminal(es[0]) then 0 else 1 + FirstEnd(es[1..])
  }

  function Output(content: seq<string>, reasoning: seq<string>): Recorded {
    Recorded(Flatten(content), if reasoning != [] then Some(Flatten(reasoning)) else None)
  }

  /** What must be on the span after the history `es`: nothing until it ends, and afterwards exactly one
      close, decided by the first terminal event, over exactly the chunks fed before it. */
  function SpanCloses(es: seq<Event>): seq<Close> {
    var i := FirstEnd(es);
    if i < |es| then [CloseOf(es[i])] else []
  }

  function SpanOutputs(es: seq<Event>, read: Reader): seq<Recorded> {
    var i := FirstEnd(es);
    if i < |es| then [Output(Texts(es[..i], read, Content), Texts(es[..i], read, Reasoning))] else []
  }

  lemma {:induction false} FirstEndSnoc(es: seq<Event>, e: Event)
    ensures FirstEnd(es + [e]) == if FirstEnd(es) < |es| then FirstEnd(es) else if Terminal(e) then |es| else |es| + 1
  {
    if es != [] {
      assert (es + [e])[1..] == es[1..] + [e];
      if !Terminal(es[0]) { FirstEndSnoc(es[1..], e); }
    }
  }

  lemma TextsSnoc(es: seq<Event>, e: Event, read: Reader, kind: DeltaKind)
    ensures Texts(es + [e], read, kind) ==
            if e.Chunked? && read(e.chunk).0 == kind then Texts(es, read, kind) + [read(e.chunk).1] else Texts(es, read, kind)
  {
    assert (es + [e])[..|es|] == es;
  }

  lemma {:induction false} EndStays(es: seq<Event>, more: seq<Event>)
    requires FirstEnd(es) < |es|
    ensures FirstEnd(es + more) == FirstEnd(es)
    decreases |more|
  {
    if more == [] {
      assert es + more == es;
    } else {
      FirstEndSnoc(es, more[0]);
      EndStays(es + [more[0]], more[1..]);
      assert es + [more[0]] + more[1..] == es + more;
    }
  }

  /** Once the stream has ended, no further event changes what the span holds. */
  lemma EndIsFinal(es: seq<Event>, more: seq<Event>, read: Reader)
    requires FirstEnd(es) < |es|
    ensures SpanCloses(es + more) == SpanCloses(es)
    ensures SpanOutputs(es + more, read) == SpanOutputs(es, read)
  {
    EndStays(es, more);
    hide FirstEnd, Texts, Output;
    assert (es + more)[..FirstEnd(es)] == es[..FirstEnd(es)] && (es + more)[FirstEnd(es)] == es[FirstEnd(es)];
  }

  // ---------------------------------------------------------------- the recorder

  /** The span and its context manager, reduced to what is written to them. */
  class Span {
    var outputs: seq<Recorded>
    var marks: nat
    var closes: seq<Close>

    constructor ()
      ensures outputs == [] && marks == 0 && closes == []
    {
      outputs, marks, closes := [], 0, [];
    }
  }

  /** The recorder's fields and the span agree with the history of events. */
  ghost predicate Tracks(es: seq<Event>, read: Reader, content: seq<string>, reasoning: seq<string>, marked: bool, done: bool,
                         marks: nat, closes: seq<Close>, outputs: seq<Recorded>)
  {
    && content == Texts(es, read, Content)
    && reasoning == Texts(es, read, Reasoning)
    && marked == (content != [])
    && marks == (if marked then 1 else 0)
    && done == (FirstEnd(es) < |es|)
    && closes == SpanCloses(es)
    && outputs == SpanOutputs(es, read)
  }

  lemma TracksFeed(es: seq<Event>, read: Reader, content: seq<string>, reasoning: seq<string>, marked: bool, done: bool,
                   marks: nat, closes: seq<Close>, outputs: seq<Recorded>, chunk: Chunk)
    requires Tracks(es, read, content, reasoning, marked, done, marks, closes, outputs)
    ensures var (kind, text) := read(chunk);
            Tracks(es + [Chunked(chunk)], read,
                   if kind == Content then content + [text] else content,
                   if kind == Reasoning then reasoning + [text] else reasoning,
                   marked || kind == Content, done, if marked || kind == Content then 1 else 0, closes, outputs)
  {
    var e := Chunked(chunk);
    FirstEndSnoc(es, e);
    TextsSnoc(es, e, read, Content);
    TextsSnoc(es, e, read, Reasoning);
    if FirstEnd(es) < |es| { EndIsFinal(es, [e], read); }
  }

  lemma TracksFinish(es: seq<Event>, read: Reader, content: seq<string>, reasoning: seq<string>, marked: bool, done: bool,
                     marks: nat, closes: seq<Close>, outputs: seq<Recorded>, e: Event)
    requires Tracks(es, read, content, reasoning, marked, done, marks, closes, outputs) && Terminal(e)
    ensures Tracks(es + [e], read, content, reasoning, marked, true, marks,
                   if done then closes else closes + [CloseOf(e)],
                   if done then outputs else outputs + [Output(content, reasoning)])
  {
    FirstEndSnoc(es, e);
    TextsSnoc(es, e, read, Content);
    TextsSnoc(es, e, read, Reasoning);
    if done {
      EndIsFinal(es, [e], read);
    } else {
      assert (es + [e])[..|es|] == es;
    }
  }

  class Recorder {
    const span: Span
    const read: Reader
    var content: seq<string>
    var reasoning: seq<string>
    var marked: bool
    var done: bool
    ghost var history: seq<Event>

    ghost predicate Valid()
      reads this, span
    {
      Tracks(history, read, content, reasoning, marked, done, span.marks, span.closes, span.outputs)
    }

    constructor (span: Span, read: Reader)
      requires span.outputs == [] && span.marks == 0 && span.closes == []
      ensures Valid() && history == [] && this.span == span && this.read == read
    {
      this.span, this.read := span, read;
      content, reasoning, marked, done, history := [], [], false, false, [];
    }

    /** `feed`. */
    method Feed(chunk: Chunk)
      requires Valid()
      modifies this, span
      ensures Valid() && history == old(history) + [Chunked(chunk)]
    {
      assert span.marks == if marked then 1 else 0;
      hide Tracks;
      TracksFeed(history, read, content, reasoning, marked, done, span.marks, span.closes, span.outputs, chunk);
      var (kind, text) := read(chunk);
      match kind {
        case Content =>
          if !marked {
            span.marks := span.marks + 1;
            marked := true;
          }
          content := content + [text];
        case Reasoning =>
          reasoning := reasoning + [text];
        case Neither =>
      }
      history := history + [Chunked(chunk)];
    }

    /** `finish`, called on behalf of the terminal event `e`. */
    method Finish(ghost e: Event, error: Option<Failure>)
      requires Valid() && Terminal(e)
      requires CloseOf(e) == if error.Some? then With(error.value) else Normal
      modifies this, span
      ensures Valid() && history == old(history) + [e]
    {
      hide Tracks, Output;
      TracksFinish(history, read, content, reasoning, marked, done, span.marks, span.closes, span.outputs, e);
      var close := if error.Some? then With(error.value) else Normal;
      assert close == CloseOf(e);
      history := history + [e];
      if !done {
        done := true;
        span.outputs := span.outputs + [Output(content, reasoning)];
        span.closes := span.closes + [close];
      }
      assert Tracks(history, read, content, reasoning, marked, done, span.marks, span.closes, span.outputs);
    }
  }

  /** Everything before position `k` is a chunk, and what stands there is this event. */
  predicate EndsAt(es: seq<Event>, k: nat, e: Event) {
    k < |es| && es[k] == e && Terminal(e) && forall j :: 0 <= j < k ==> es[j].Chunked?
  }

  lemma EndIsFirst(es: seq<Event>, k: nat, e: Event)
    requires EndsAt(es, k, e)
    ensures FirstEnd(es) == k && SpanCloses(es) == [CloseOf(e)]
  {
    assert !Terminal(e) || FirstEnd(es) <= k;
  }

  /** Whatever has happened to a recorder: its span's context was left at most once, and exactly once if the
      stream has ended; with the provider's exception exactly when that is what ended it; the first-content
      mark was made at most once, exactly if there was content; and the one output is the concatenation of
      the texts fed before the end. */
  lemma ClosesOnce(rec: Recorder)
    requires rec.Valid()
    ensures |rec.span.closes| == if exists e <- rec.history :: Terminal(e) then 1 else 0
    ensures forall x :: rec.span.closes == [With(x)] <==> exists k: nat :: EndsAt(rec.history, k, Broke(x))
    ensures rec.span.marks == if exists c <- rec.history :: c.Chunked? && rec.read(c.chunk).0 == Content then 1 else 0
    ensures forall k: nat, e :: EndsAt(rec.history, k, e) ==>
              rec.span.outputs == [Output(Texts(rec.history[..k], rec.read, Content), Texts(rec.history[..k], rec.read, Reasoning))]
    ensures (forall e <- rec.history :: e.Chunked?) ==> rec.span.outputs == []
  {
    var es := rec.history;
    var i := FirstEnd(es);
    if i < |es| {
      assert es[i] in es;
      assert EndsAt(es, i, es[i]);
    }
    forall k: nat, e | EndsAt(es, k, e) ensures k == i && rec.span.closes == [CloseOf(e)] { EndIsFirst(es, k, e); }
    forall x ensures rec.span.closes == [With(x)] <==> exists k: nat :: EndsAt(es, k, Broke(x)) {
      if k: nat :| EndsAt(es, k, Broke(x)) {
        assert rec.span.closes == [CloseOf(Broke(x))];
      }
    }
    NoTexts(es, rec.read, Content);
  }

  lemma {:induction false} NoTexts(es: seq<Event>, read: Reader, kind: DeltaKind)
    ensures Texts(es, read, kind) == [] <==> forall e <- es :: e.Chunked? ==> read(e.chunk).0 != kind
  {
    if es != [] {
      NoTexts(es[..|es| - 1], read, kind);
      assert es == es[..|es| - 1] + [es[|es| - 1]];
    }
  }

  // ---------------------------------------------------------------- the recorded text

  predicate Says(e: Event, read: Reader, kind: DeltaKind) { e.Chunked? && read(e.chunk).0 == kind }

  /** How much text of one kind the chunks of a history carry. */
  function Length(es: seq<Event>, read: Reader, kind: DeltaKind): nat {
    if es == [] then 0
    else Length(es[..|es| - 1], read, kind) + if Says(es[|es| - 1], read, kind) then |read(es[|es| - 1].chunk).1| else 0
  }

  /** `text` is all the text of one kind in the chunks before position `k`, in the order they were fed: each chunk's
      stands where the texts before it end. */
  ghost predicate InOrder(text: string, es: seq<Event>, k: nat, read: Reader, kind: DeltaKind)
    requires k <= |es|
  {
    && |text| == Length(es[..k], read, kind)
    && forall j :: 0 <= j < k && Says(es[j], read, kind) ==> StandsAt(text, Length(es[..j], read, kind), read(es[j].chunk).1)
  }

  predicate StandsAt(text: string, offset: nat, part: string) {
    offset + |part| <= |text| && text[offset..offset + |part|] == part
  }

  lemma StandsStill(text: string, more: string, offset: nat, part: string)
    requires StandsAt(text, offset, part)
    ensures StandsAt(text + more, offset, part)
  {
    assert (text + more)[offset..offset + |part|] == text[offset..offset + |part|];
  }

  lemma InOrderSnoc(text: string, before: seq<Event>, last: Event, read: Reader, kind: DeltaKind)
    requires InOrder(text, before, |before|, read, kind)
    ensures InOrder(text + if Says(last, read, kind) then read(last.chunk).1 else "", before + [last], |before| + 1, read, kind)
  {
    var es, more := before + [last], if Says(last, read, kind) then read(last.chunk).1 else "";
    assert before[..|before|] == before && es[..|before|] == before && es[..|before| + 1] == es;
    forall j | 0 <= j < |es| && Says(es[j], read, kind)
      ensures StandsAt(text + more, Length(es[..j], read, kind), read(es[j].chunk).1)
    {
      if j < |before| {
        assert before[..j] == es[..j];
        hide StandsAt, Length;
        StandsStill(text, more, Length(es[..j], read, kind), read(es[j].chunk).1);
      }
    }
  }

  lemma {:induction false} JoinedInOrder(es: seq<Event>, read: Reader, kind: DeltaKind)
    ensures InOrder(Flatten(Texts(es, read, kind)), es, |es|, read, kind)
  {
    if es != [] {
      var before, last := es[..|es| - 1], es[|es| - 1];
      JoinedInOrder(before, read, kind);
      assert Flatten(Texts(es, read, kind)) ==
             Flatten(Texts(before, read, kind)) + if Says(last, read, kind) then read(last.chunk).1 else "";
      assert es == before + [last];
      hide InOrder;
      InOrderSnoc(Flatten(Texts(before, read, kind)), before, last, read, kind);
    }
  }

  /** What a recorder that has ended leaves on its span: the answer, every content chunk fed before the end joined in
      order, and the reasoning likewise, if and only if there was any. */
  lemma RecordsInOrder(rec: Recorder, k: nat, e: Event)
    requires rec.Valid() && EndsAt(rec.history, k, e)
    ensures |rec.span.outputs| == 1 && InOrder(rec.span.outputs[0].content, rec.history, k, rec.read, Content)
    ensures rec.span.outputs[0].reasoning.Some? <==> exists j :: 0 <= j < k && Says(rec.history[j], rec.read, Reasoning)
    ensures rec.span.outputs[0].reasoning.Some? ==>
              InOrder(rec.span.outputs[0].reasoning.value, rec.history, k, rec.read, Reasoning)
  {
    var es, read := rec.history, rec.read;
    var fed := es[..k];
    EndIsFirst(es, k, e);
    FedInOrder(es, k, read, Content);
    FedInOrder(es, k, read, Reasoning);
    NoTexts(fed, read, Reasoning);
    if x :| x in fed && x.Chunked? && read(x.chunk).0 == Reasoning {
      var j :| 0 <= j < k && fed[j] == x;
      assert Says(es[j], read, Reasoning);
    }
    if j :| 0 <= j < k && Says(es[j], read, Reasoning) { assert fed[j] in fed; }
  }

  lemma FedInOrder(es: seq<Event>, k: nat, read: Reader, kind: DeltaKind)
    requires k <= |es|
    ensures InOrder(Flatten(Texts(es[..k], read, kind)), es, k, read, kind)
  {
    JoinedInOrder(es[..k], read, kind);
    assert es[..k][..k] == es[..k];
    forall j | 0 <= j < k ensures es[..k][..j] == es[..j] {}
    hide Flatten, Texts, Length;
  }

  // ---------------------------------------------------------------- the stream wrapper

  /** What the provider's own iterator answers to one `next`. */
  datatype Inner = Yields(chunk: Chunk) | Stops | Throws(error: Failure)

  /** What the caller sees. */
  datatype Seen = Got(chunk: Chunk) | StopIteration | Raises(error: Failure)

  class TracedStream {
    const rec: Recorder

    constructor (rec: Recorder)
      ensures this.rec == rec
    {
      this.rec := rec;
    }

    /** `__next__`: the caller sees exactly what the provider answered. */
    method Next(inner: Inner) returns (seen: Seen)
      requires rec.Valid()
      modifies rec, rec.span
      ensures rec.Valid()
      ensures match inner
              case Yields(c) => seen == Got(c) && rec.history == old(rec.history) + [Chunked(c)]
              case Stops => seen == StopIteration && rec.history == old(rec.history) + [Exhausted]
              case Throws(x) => seen == Raises(x) && rec.history == old(rec.history) + [Broke(x)]
    {
      match inner
      case Stops =>
        rec.Finish(Exhausted, None);
        return StopIteration;
      case Throws(x) =>
        rec.Finish(Broke(x), Some(x));
        return Raises(x);
      case Yields(c) =>
        rec.Feed(c);
        return Got(c);
    }

    /** `close()`, `__exit__` and `__del__` all end the recording the same way. */
    method End(how: Event)
      requires rec.Valid() && (how.Closed? || how.Exited? || how.Dropped?)
      modifies rec, rec.span
      ensures rec.Valid() && rec.history == old(rec.history) + [how]
    {
      rec.Finish(how, None);
    }
  }
}
