/** The incremental event-stream reader (frontend/web/src/api/fanfic.ts), a subset of section 9.2 of the WHATWG
    HTML Standard, and the server's emitter (services/fanfic/internal/handler/fanfic.go).

    Texts are the decoder's output.  `json` is JSON.parse as a partial function; `returns_(e)` says whether the
    callback for `e` returns (it throws, say, on a null payload), which ends the stream. */
module SseStream {
  import opened Optional
  import opened Text

  datatype Event<+J> = Event(event: string, data: J)

  /** What String.prototype.trim removes. */
  predicate IsSpace(c: char) {
    || '\t' <= c <= '\r' || c == ' ' || c == '\U{A0}' || c == '\U{1680}' || '\U{2000}' <= c <= '\U{200A}'
    || c == '\U{2028}' || c == '\U{2029}' || c == '\U{202F}' || c == '\U{205F}' || c == '\U{3000}' || c == '\U{FEFF}'
  }

  const BLANK := "\n\n"
  const EVENT := "event: "
  const DATA := "data: "

  // ----- what a block of lines means -----

  datatype Fields = Fields(event: string, data: string)

  function AddLine(f: Fields, line: string): Fields {
    if EVENT <= line then f.(event := Trim(line[7..], IsSpace))
    else if DATA <= line then f.(data := f.data + line[6..])
    else f
  }

  function AddLines(f: Fields, lines: seq<string>): Fields
    decreases |lines|
  {
    if lines == [] then f else AddLines(AddLine(f, lines[0]), lines[1..])
  }

  function BlockEvents<J>(block: string, json: string -> Option<J>): seq<Event<J>> {
    var f := AddLines(Fields("message", ""), Split(block, "\n"));
    if f.data == "" || json(f.data).None? then [] else [Event(f.event, json(f.data).value)]
  }

  function EventsOf<J>(blocks: seq<string>, json: string -> Option<J>): seq<Event<J>> {
    if blocks == [] then [] else BlockEvents(blocks[0], json) + EventsOf(blocks[1..], json)
  }

  lemma {:induction false} EventsOfConcat<J>(a: seq<string>, b: seq<string>, json: string -> Option<J>)
    ensures EventsOf(a + b, json) == EventsOf(a, json) + EventsOf(b, json)
    decreases |a|
  {
    hide Split, BlockEvents;
    if a == [] {
      assert a + b == b;
    } else {
      EventsOfConcat(a[1..], b, json);
      assert (a + b)[1..] == a[1..] + b;
    }
  }

  lemma {:induction false} AddLinesSnoc(f: Fields, lines: seq<string>, line: string)
    ensures AddLines(f, lines + [line]) == AddLine(AddLines(f, lines), line)
    decreases |lines|
  {
    if lines == [] {
      assert lines + [line] == [line];
    } else {
      AddLinesSnoc(AddLine(f, lines[0]), lines[1..], line);
      assert (lines + [line])[1..] == lines[1..] + [line];
    }
  }

  lemma {:induction false} OneBlock<J>(block: string, json: string -> Option<J>)
    ensures EventsOf([block], json) == BlockEvents(block, json)
  {
    assert EventsOf([block], json) == BlockEvents(block, json) + EventsOf([block][1..], json);
  }

  lemma {:induction false} NothingYet<J>(json: string -> Option<J>)
    ensures EventsOf([], json) == []
    ensures forall f: Fields :: AddLines(f, []) == f
  {
  }

  lemma {:induction false} LineIs(f: Fields, line: string)
    ensures AddLine(f, line) == if EVENT <= line then Fields(Trim(line[7..], IsSpace), f.data)
                                else if DATA <= line then Fields(f.event, f.data + line[6..]) else f
  {
  }

  // ----- the same line by line -----

  /** What String.prototype.trim removes, one by one. */
  lemma IsSpaceIff(c: char)
    ensures IsSpace(c) <==>
            c in "\t\n\U{0B}\U{0C}\r \U{A0}\U{1680}\U{2028}\U{2029}\U{202F}\U{205F}\U{3000}\U{FEFF}"
            || c in "\U{2000}\U{2001}\U{2002}\U{2003}\U{2004}\U{2005}\U{2006}\U{2007}\U{2008}\U{2009}\U{200A}"
  {
  }

  /** The texts behind "data: ", in order. */
  function DataTexts(lines: seq<string>): seq<string> {
    if lines == [] then []
    else DataTexts(DropLast(lines)) + if "data: " <= Last(lines) then [Last(lines)[6..]] else []
  }

  /** The fields of a block: the last event line, trimmed, "message" without one; and every data line, joined by
      nothing. */
  ghost predicate Means(lines: seq<string>, event: string, data: string) {
    && data == Concat(DataTexts(lines))
    && ((forall i :: 0 <= i < |lines| ==> !("event: " <= lines[i])) ==> event == "message")
    && (forall i :: 0 <= i < |lines| && "event: " <= lines[i] && (forall j :: i < j < |lines| ==> !("event: " <= lines[j])) ==>
          event == Trim(lines[i][7..], IsSpace))
  }

  lemma {:induction false} FieldsMean(lines: seq<string>)
    ensures var f := AddLines(Fields("message", ""), lines); Means(lines, f.event, f.data)
    decreases |lines|
  {
    hide Trim, Concat, AddLines;
    NoLines();
    if lines != [] {
      var front, line := DropLast(lines), Last(lines);
      assert lines == front + [line];
      FieldsMean(front);
      AddLinesSnoc(Fields("message", ""), front, line);
      var f := AddLines(Fields("message", ""), front);
      LineIs(f, line);
      OneKind(line);
      if "data: " <= line {
        ConcatSnoc(DataTexts(front), line[6..]);
      } else {
        assert DataTexts(lines) == DataTexts(front);
      }
      assert forall i :: 0 <= i < |front| ==> lines[i] == front[i];
    }
  }

  lemma NoLines()
    ensures Concat([]) == "" && DataTexts([]) == [] && AddLines(Fields("message", ""), []) == Fields("message", "")
  {
  }

  lemma OneKind(line: string)
    ensures !("event: " <= line && "data: " <= line)
  {
    assert "event: " <= line ==> line[0] == 'e';
    assert "data: " <= line ==> line[0] == 'd';
  }

  /** A block yields one event or none: none without data, or with data that is no JSON. */
  lemma BlockMeans<J>(block: string, json: string -> Option<J>) returns (event: string, data: string)
    ensures Means(Split(block, "\n"), event, data)
    ensures data == "" || json(data).None? ==> BlockEvents(block, json) == []
    ensures data != "" && json(data).Some? ==> BlockEvents(block, json) == [Event(event, json(data).value)]
  {
    hide Split, AddLines, Means;
    FieldsMean(Split(block, "\n"));
    var f := AddLines(Fields("message", ""), Split(block, "\n"));
    event, data := f.event, f.data;
  }

  // ----- parseSSEBuffer -----

  method ParseSSEBuffer<J>(buffer: string, json: string -> Option<J>) returns (events: seq<Event<J>>, rest: string)
    ensures events == EventsOf(DropLast(Split(buffer, "\n\n")), json)
    ensures rest == Last(Split(buffer, "\n\n"))
  {
    hide Split, AddLines, EventsOf, AddLine, Trim;
    events := [];
    NothingYet(json);
    var parts := Split(buffer, BLANK);
    rest := parts[|parts| - 1];
    parts := parts[..|parts| - 1];
    for i := 0 to |parts|
      invariant events == EventsOf(parts[..i], json)
    {
      var event, data := "message", "";
      var lines := Split(parts[i], "\n");
      for n := 0 to |lines|
        invariant Fields(event, data) == AddLines(Fields("message", ""), lines[..n])
      {
        var line := lines[n];
        AddLinesSnoc(Fields("message", ""), lines[..n], line);
        assert lines[..n + 1] == lines[..n] + [line];
        LineIs(Fields(event, data), line);
        if EVENT <= line {
          event := Trim(line[7..], IsSpace);
        } else if DATA <= line {
          data := data + line[6..];
        }
      }
      assert lines[..|lines|] == lines;
      EventsOfConcat(parts[..i], [parts[i]], json);
      OneBlock(parts[i], json);
      assert parts[..i + 1] == parts[..i] + [parts[i]];
      if data != "" {
        var parsed := json(data);
        if parsed.Some? {
          events := events + [Event(event, parsed.value)];
        }
      }
    }
    assert parts[..|parts|] == parts;
  }

  // ----- the whole stream, read at once -----

  /** One parse of the complete text followed by a blank line. */
  function WholeText<J>(text: string, json: string -> Option<J>): seq<Event<J>> {
    EventsOf(DropLast(Split(text + BLANK, BLANK)), json)
  }

  /** The events up to and including the first whose callback throws. */
  function Through<J>(events: seq<Event<J>>, returns_: Event<J> -> bool): seq<Event<J>> {
    if events == [] then [] else if !returns_(events[0]) then [events[0]] else [events[0]] + Through(events[1..], returns_)
  }

  lemma {:induction false} ThroughReads<J>(events: seq<Event<J>>, returns_: Event<J> -> bool)
    ensures var called, threw := Through(events, returns_), !AllReturn(events, returns_);
            && called <= events && (!threw ==> called == events)
            && (threw ==> called != [] && !returns_(Last(called)))
            && forall i :: 0 <= i < |called| - (if threw then 1 else 0) ==> returns_(called[i])
    decreases |events|
  {
    if events != [] {
      ThroughReads(events[1..], returns_);
      assert events == [events[0]] + events[1..];
    }
  }

  predicate AllReturn<J>(events: seq<Event<J>>, returns_: Event<J> -> bool) {
    events == [] || (returns_(events[0]) && AllReturn(events[1..], returns_))
  }

  lemma {:induction false} ThroughConcat<J(!new)>(a: seq<Event<J>>, b: seq<Event<J>>, returns_: Event<J> -> bool)
    ensures AllReturn(a, returns_) ==> Through(a, returns_) == a && Through(a + b, returns_) == a + Through(b, returns_)
                                       && AllReturn(a + b, returns_) == AllReturn(b, returns_)
    ensures !AllReturn(a, returns_) ==> Through(a + b, returns_) == Through(a, returns_) && !AllReturn(a + b, returns_)
    decreases |a|
  {
    if a == [] {
      assert a + b == b;
    } else {
      ThroughConcat(a[1..], b, returns_);
      assert (a + b)[1..] == a[1..] + b;
      assert a == [a[0]] + a[1..];
    }
  }

  function Concat(chunks: seq<string>): string {
    if chunks == [] then "" else chunks[0] + Concat(chunks[1..])
  }

  lemma {:induction false} ConcatSnoc(chunks: seq<string>, chunk: string)
    ensures Concat(chunks + [chunk]) == Concat(chunks) + chunk
    decreases |chunks|
  {
    if chunks == [] {
      assert chunks + [chunk] == [chunk];
    } else {
      ConcatSnoc(chunks[1..], chunk);
      assert (chunks + [chunk])[1..] == chunks[1..] + [chunk];
    }
  }

  /** A text with nothing after its last blank line yields nothing more when a blank line is forced on it. */
  lemma {:induction false} EmptyRestIsSilent<J>(json: string -> Option<J>)
    ensures WholeText("", json) == []
  {
    assert OccursAt(BLANK, BLANK, 0);
    FirstOccurrence(BLANK, BLANK, 0);
    assert "" + BLANK == BLANK && BLANK[..0] == "" && BLANK[2..] == "";
    assert Split("", BLANK) == [""] by { assert !OccursAt("", BLANK, 0); }
    SplitUnfold(BLANK, BLANK);
    assert DropLast(["", ""]) == [""];
    NoSuchChar("", '\n');
    assert BlockEvents("", json) == [];
  }

  lemma {:induction false} SeenThenRest<J>(seen: string, more: string, json: string -> Option<J>)
    ensures EventsOf(DropLast(Split(seen + more, BLANK)), json)
            == EventsOf(DropLast(Split(seen, BLANK)), json) + EventsOf(DropLast(Split(Last(Split(seen, BLANK)) + more, BLANK)), json)
    ensures Last(Split(seen + more, BLANK)) == Last(Split(Last(Split(seen, BLANK)) + more, BLANK))
  {
    hide Split, EventsOf;
    SplitExtended(seen, more, BLANK);
    var done, tail := DropLast(Split(seen, BLANK)), Split(Last(Split(seen, BLANK)) + more, BLANK);
    assert DropLast(done + tail) == done + DropLast(tail);
    EventsOfConcat(done, DropLast(tail), json);
  }

  /** The whole text's events: those of the blocks already complete, then those of what is left. */
  lemma {:induction false} WholeSplits<J>(seen: string, more: string, json: string -> Option<J>)
    ensures WholeText(seen + more, json)
            == EventsOf(DropLast(Split(seen, BLANK)), json) + WholeText(Last(Split(seen, BLANK)) + more, json)
  {
    hide Split, EventsOf;
    SeenThenRest(seen, more + BLANK, json);
    assert seen + more + BLANK == seen + (more + BLANK);
    assert Last(Split(seen, BLANK)) + more + BLANK == Last(Split(seen, BLANK)) + (more + BLANK);
  }

  lemma {:induction false} ConcatAt(chunks: seq<string>, i: nat)
    requires i <= |chunks|
    ensures Concat(chunks) == Concat(chunks[..i]) + Concat(chunks[i..])
    decreases i
  {
    if i == 0 {
      assert chunks[0..] == chunks;
    } else {
      ConcatAt(chunks, i - 1);
      ConcatSnoc(chunks[..i - 1], chunks[i - 1]);
      assert chunks[..i] == chunks[..i - 1] + [chunks[i - 1]];
      assert chunks[i - 1..][1..] == chunks[i..];
    }
  }

  lemma {:induction false} EmptyStream<J(!new)>(json: string -> Option<J>, returns_: Event<J> -> bool)
    ensures Concat([]) == "" && Split("", BLANK) == [""] && EventsOf([], json) == []
    ensures AllReturn([], returns_) && Through([], returns_) == []
  {
    assert !OccursAt("", BLANK, 0);
  }

  // ----- the read loop -----

  method Dispatch<J(!new)>(events: seq<Event<J>>, returns_: Event<J> -> bool) returns (called: seq<Event<J>>, threw: bool)
    ensures called == Through(events, returns_) && threw == !AllReturn(events, returns_)
  {
    called, threw := [], false;
    for i := 0 to |events|
      invariant called == events[..i] && AllReturn(events[..i], returns_)
    {
      called := called + [events[i]];
      ThroughConcat(events[..i], events[i..], returns_);
      ThroughConcat(events[..i], [events[i]], returns_);
      assert events == events[..i] + events[i..] && events[..i + 1] == events[..i] + [events[i]];
      if !returns_(events[i]) {
        return called, true;
      }
    }
    assert events[..|events|] == events;
    ThroughConcat(events, [], returns_);
  }

  /** `chunks` are what the successive reads decode to, `held` what the decoder still held back at the end.
      However the text was cut, the callbacks are those of one parse of the whole text, up to the first that
      throws. */
  method StreamSSE<J(!new)>(chunks: seq<string>, held: string, json: string -> Option<J>, returns_: Event<J> -> bool)
    returns (called: seq<Event<J>>, threw: bool)
    ensures var whole := EventsOf(DropLast(Split(Concat(chunks) + held + "\n\n", "\n\n")), json);
            && called <= whole && (!threw ==> called == whole)
            && (threw ==> called != [] && !returns_(Last(called)))
            && forall i :: 0 <= i < |called| - (if threw then 1 else 0) ==> returns_(called[i])
    ensures called == Through(WholeText(Concat(chunks) + held, json), returns_)
    ensures threw == !AllReturn(WholeText(Concat(chunks) + held, json), returns_)
  {
    hide Split, EventsOf, AllReturn, Through, Concat;
    ghost var whole := WholeText(Concat(chunks) + held, json);
    ThroughReads(whole, returns_);
    var buffer := "";
    called := [];
    EmptyStream(json, returns_);
    for i := 0 to |chunks|
      invariant called == EventsOf(DropLast(Split(Concat(chunks[..i]), BLANK)), json) && AllReturn(called, returns_)
      invariant buffer == Last(Split(Concat(chunks[..i]), BLANK))
    {
      var seen := Concat(chunks[..i]);
      ConcatSnoc(chunks[..i], chunks[i]);
      assert chunks[..i + 1] == chunks[..i] + [chunks[i]];
      SeenThenRest(seen, chunks[i], json);
      var events, rest := ParseSSEBuffer(buffer + chunks[i], json);
      buffer := rest;
      var now, failed := Dispatch(events, returns_);
      ThroughConcat(called, events, returns_);
      ThroughConcat(events, [], returns_);
      called := called + now;
      if failed {
        ThrewEarly(chunks, i + 1, held, json, returns_);
        return called, true;
      }
    }
    assert chunks[..|chunks|] == chunks;
    WholeSplits(Concat(chunks), held, json);
    buffer := buffer + held;
    if buffer == "" {
      EmptyRestIsSilent(json);
      ThroughConcat(called, [], returns_);
      assert called + [] == called;
      return called, false;
    }
    var events, _ := ParseSSEBuffer(buffer + BLANK, json);
    var now, failed := Dispatch(events, returns_);
    ThroughConcat(called, events, returns_);
    return called + now, failed;
  }

  /** A callback that throws while chunk `n - 1` is dispatched throws for the whole text too. */
  lemma {:induction false} ThrewEarly<J(!new)>(chunks: seq<string>, n: nat, held: string, json: string -> Option<J>,
                                               returns_: Event<J> -> bool)
    requires n <= |chunks| && !AllReturn(EventsOf(DropLast(Split(Concat(chunks[..n]), BLANK)), json), returns_)
    ensures var early := EventsOf(DropLast(Split(Concat(chunks[..n]), BLANK)), json);
            var whole := WholeText(Concat(chunks) + held, json);
            Through(whole, returns_) == Through(early, returns_) && !AllReturn(whole, returns_)
  {
    hide Split, EventsOf, AllReturn, Through, Concat;
    var seen, later := Concat(chunks[..n]), Concat(chunks[n..]) + held;
    ConcatAt(chunks, n);
    assert Concat(chunks) + held == seen + later;
    WholeSplits(seen, later, json);
    ThroughConcat(EventsOf(DropLast(Split(seen, BLANK)), json), WholeText(Last(Split(seen, BLANK)) + later, json), returns_);
  }

  // ----- the emitter -----

  datatype Frame = Frame(event: string, payload: string)

  function Body(f: Frame): string { EVENT + f.event + "\n" + DATA + f.payload }

  function Emitted(frames: seq<Frame>): string {
    if frames == [] then "" else Body(frames[0]) + BLANK + Emitted(frames[1..])
  }

  /** The text grows by what the handler prints for one event. */
  lemma {:induction false} EmittedSnoc(frames: seq<Frame>, f: Frame)
    ensures Emitted([]) == ""
    ensures Emitted(frames + [f]) == Emitted(frames) + ("event: " + f.event + "\n" + "data: " + f.payload + "\n\n")
    decreases |frames|
  {
    hide Body;
    var text := Body(f) + BLANK;
    assert text == "event: " + f.event + "\n" + "data: " + f.payload + "\n\n" by { BodyText(f); }
    if frames == [] {
      assert frames + [f] == [f] && [f][1..] == [];
      assert Emitted([f]) == text + "" == "" + text;
    } else {
      EmittedSnoc(frames[1..], f);
      assert (frames + [f])[1..] == frames[1..] + [f];
      var first, rest := Body(frames[0]) + BLANK, Emitted(frames[1..]);
      assert first + (rest + text) == first + rest + text;
    }
  }

  lemma BodyText(f: Frame)
    ensures Body(f) + BLANK == "event: " + f.event + "\n" + "data: " + f.payload + "\n\n"
  {
    assert EVENT + f.event + "\n" + DATA + f.payload == EVENT + f.event + "\n" + (DATA + f.payload);
  }

  /** What the handler emits: a literal event name and one line of JSON. */
  ghost predicate Emittable<J>(f: Frame, json: string -> Option<J>) {
    && '\n' !in f.event && Trimmed(f.event, IsSpace)
    && '\n' !in f.payload && f.payload != "" && json(f.payload).Some?
  }

  ghost function Delivered<J>(frames: seq<Frame>, json: string -> Option<J>): seq<Event<J>>
    requires forall i :: 0 <= i < |frames| ==> Emittable(frames[i], json)
  {
    if frames == [] then []
    else
      assert Emittable(frames[0], json);
      [Event(frames[0].event, json(frames[0].payload).value)] + Delivered(frames[1..], json)
  }

  lemma {:induction false} BodyParses<J>(f: Frame, json: string -> Option<J>)
    requires Emittable(f, json)
    ensures BlockEvents(Body(f), json) == [Event(f.event, json(f.payload).value)]
  {
    hide Split, AddLines, Trim, TrimLeft, TrimRight, AddLine;
    var e, d := EVENT + f.event, DATA + f.payload;
    assert Join([e, d], "\n") == Body(f) by { assert [e, d][1..] == [d]; }
    SplitJoin([e, d], '\n');
    TrimFixes(f.event, IsSpace);
    assert e[7..] == f.event && d[6..] == f.payload && d[0] == 'd' && "" + f.payload == f.payload;
    LineIs(Fields("message", ""), e);
    LineIs(Fields(f.event, ""), d);
    TwoLines(Fields("message", ""), e, d);
  }

  lemma TwoLines(f: Fields, a: string, b: string)
    ensures AddLines(f, [a, b]) == AddLine(AddLine(f, a), b)
  {
    var g := AddLine(f, a);
    assert [a, b][1..] == [b] && [b][1..] == [];
    assert AddLines(g, [b]) == AddLines(AddLine(g, b), [b][1..]);
    assert AddLines(f, [a, b]) == AddLines(g, [a, b][1..]);
  }

  /** The first blank line of an emitted text is the one behind the first frame's body. */
  lemma {:induction false} BodyEndsFirst(f: Frame, rest: string)
    requires '\n' !in f.event && '\n' !in f.payload && f.payload != ""
    ensures IndexOf(Body(f) + BLANK + rest, BLANK) == Some(|Body(f)|)
  {
    var body := Body(f);
    var s := body + BLANK + rest;
    assert s[|body|..|body| + 2] == BLANK;
    forall j: nat | j < |body| ensures !OccursAt(s, BLANK, j) {
      assert s[j] == body[j] && s[j..j + 2] == [s[j], s[j + 1]];
      BodyNewline(f, j);
      if j + 1 < |body| { assert s[j + 1] == body[j + 1]; }
    }
    FirstOccurrence(s, BLANK, |body|);
  }

  /** A body has one line break, and it is not followed by another. */
  lemma BodyNewline(f: Frame, j: nat)
    requires '\n' !in f.event && '\n' !in f.payload && f.payload != "" && j < |Body(f)|
    ensures Body(f)[j] == '\n' ==> j + 1 < |Body(f)| && Body(f)[j + 1] == 'd'
  {
    var k := |EVENT| + |f.event|;
    if j < |EVENT| {
      assert Body(f)[j] == EVENT[j];
    } else if j < k {
      assert Body(f)[j] == f.event[j - |EVENT|] && f.event[j - |EVENT|] in f.event;
    } else if j > k + |DATA| {
      assert Body(f)[j] == f.payload[j - k - 1 - |DATA|] && f.payload[j - k - 1 - |DATA|] in f.payload;
    }
  }

  lemma {:induction false} FrameFirst<J>(f: Frame, rest: string, json: string -> Option<J>)
    requires Emittable(f, json)
    ensures WholeText(Body(f) + BLANK + rest, json) == [Event(f.event, json(f.payload).value)] + WholeText(rest, json)
  {
    hide Split, EventsOf, IndexOf;
    var s := Body(f) + BLANK + (rest + BLANK);
    assert Body(f) + BLANK + rest + BLANK == s;
    BodyEndsFirst(f, rest + BLANK);
    SplitUnfold(s, BLANK);
    assert s[..|Body(f)|] == Body(f) && s[|Body(f)| + 2..] == rest + BLANK;
    var tail := Split(rest + BLANK, BLANK);
    assert DropLast([Body(f)] + tail) == [Body(f)] + DropLast(tail);
    EventsOfConcat([Body(f)], DropLast(tail), json);
    OneBlock(Body(f), json);
    BodyParses(f, json);
  }

  /** Round trip: the events read from an emitted text are the events emitted, in order. */
  lemma {:induction false} EmittedIsDelivered<J>(frames: seq<Frame>, json: string -> Option<J>)
    requires forall i :: 0 <= i < |frames| ==> Emittable(frames[i], json)
    ensures WholeText(Emitted(frames), json) == Delivered(frames, json)
    decreases |frames|
  {
    hide WholeText;
    if frames == [] {
      EmptyRestIsSilent(json);
    } else {
      FrameFirst(frames[0], Emitted(frames[1..]), json);
      EmittedIsDelivered(frames[1..], json);
    }
  }
}
